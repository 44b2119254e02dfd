/** Characters and strings as the Rust standard library treats them: Unicode white space,
    trimming, and occurrences of one string inside another. */
module Text {

  datatype Option<+T> = None | Some(value: T)

  datatype Result<+T, +E> = Ok(value: T) | Err(error: E)

  /** `char::is_whitespace`: the Unicode White_Space property. */
  predicate IsWhitespace(c: char) {
    var n := c as int;
    || 0x09 <= n <= 0x0D || n == 0x20 || n == 0x85 || n == 0xA0 || n == 0x1680
    || 0x2000 <= n <= 0x200A || n == 0x2028 || n == 0x2029 || n == 0x202F || n == 0x205F || n == 0x3000
  }

  /** `char::is_control`: the Unicode category Cc. */
  predicate IsControl(c: char) {
    var n := c as int;
    n <= 0x1F || 0x7F <= n <= 0x9F
  }

  predicate IsDigit(c: char) { '0' <= c <= '9' }

  predicate Blank(w: string) { forall c | c in w :: IsWhitespace(c) }

  /** `x` is what `s` holds from index `i` on. */
  predicate At(s: string, i: nat, x: string) {
    i + |x| <= |s| && forall k {:trigger x[k]} | 0 <= k < |x| :: s[i + k] == x[k]
  }

  lemma Assoc(a: string, b: string, c: string)
    ensures a + b + c == a + (b + c)
  {}

  lemma OneChar(s: string, i: nat, c: char)
    ensures At(s, i, [c]) <==> i < |s| && s[i] == c
  {
    assert [c][0] == c;
  }

  lemma AtConcat(s: string, i: nat, x: string, y: string)
    requires At(s, i, x + y)
    ensures At(s, i, x) && At(s, i + |x|, y)
  {
    forall k | 0 <= k < |x| ensures s[i + k] == x[k] {
      assert (x + y)[k] == x[k];
    }
    forall k | 0 <= k < |y| ensures s[i + |x| + k] == y[k] {
      assert (x + y)[|x| + k] == y[k];
    }
  }

  lemma AtJoin(s: string, i: nat, x: string, y: string)
    requires At(s, i, x) && At(s, i + |x|, y)
    ensures At(s, i, x + y)
  {
    forall k | 0 <= k < |x + y| ensures s[i + k] == (x + y)[k] {
      if k >= |x| { assert s[i + |x| + (k - |x|)] == y[k - |x|]; }
    }
  }

  lemma AtTail(s: string, i: nat, w: string)
    requires At(s, i, w) && w != ""
    ensures i < |s| && s[i] == w[0] && w[0] in w && At(s, i + 1, w[1..])
  {
    assert w[0] == s[i];
    forall k | 0 <= k < |w[1..]| ensures s[i + 1 + k] == w[1..][k] {
      assert w[k + 1] == s[i + (k + 1)];
    }
  }

  /** `str::trim_start`. */
  function TrimStart(s: string): string {
    if s != "" && IsWhitespace(s[0]) then TrimStart(s[1..]) else s
  }

  /** `str::trim_end`. */
  function TrimEnd(s: string): string {
    if s != "" && IsWhitespace(s[|s| - 1]) then TrimEnd(s[..|s| - 1]) else s
  }

  /** `str::trim`. */
  function Trim(s: string): string { TrimEnd(TrimStart(s)) }

  lemma {:induction false} TrimStartBlank(w: string, s: string)
    requires Blank(w)
    requires s == "" || !IsWhitespace(s[0])
    ensures TrimStart(w + s) == s
  {
    if w == "" {
      assert w + s == s;
    } else {
      assert w[0] in w;
      assert (w + s)[1..] == w[1..] + s;
      TrimStartBlank(w[1..], s);
    }
  }

  /** Trimming the end of `a + b` never eats into an `a` that ends in a visible character. */
  lemma {:induction false} TrimEndKeeps(a: string, b: string)
    requires a != "" && !IsWhitespace(a[|a| - 1])
    ensures TrimEnd(a + b) == a + TrimEnd(b)
  {
    if b == "" {
      assert a + b == a;
    } else if IsWhitespace(b[|b| - 1]) {
      assert (a + b)[..|a + b| - 1] == a + b[..|b| - 1];
      TrimEndKeeps(a, b[..|b| - 1]);
    }
  }

  lemma {:induction false} TrimEndVisible(s: string)
    requires s != "" && !IsWhitespace(s[0])
    ensures TrimEnd(s) != ""
  {
    TrimEndKeeps(s[..1], s[1..]);
    assert s[..1] + s[1..] == s;
  }

  lemma {:induction false} TrimEndBlank(s: string, w: string)
    requires Blank(w) && s != "" && !IsWhitespace(s[|s| - 1])
    ensures TrimEnd(s + w) == s
    decreases |w|
  {
    if w == "" {
      assert s + w == s;
    } else {
      var init := w[..|w| - 1];
      TrimEndBlank(s, init);
      assert (s + w)[..|s + w| - 1] == s + init && (s + w)[|s + w| - 1] == w[|w| - 1] && w[|w| - 1] in w;
    }
  }

  /** Nothing but whole lines. */
  predicate EndsLine(s: string) { s == "" || s[|s| - 1] == '\n' }

  lemma EndsLineJoin(x: string, y: string)
    ensures EndsLine(x) && EndsLine(y) ==> EndsLine(x + y)
  {}

  function Utf16Units(c: char): nat { if c as int >= 0x10000 then 2 else 1 }

  function Utf16Length(s: string): nat { if s == "" then 0 else Utf16Units(s[0]) + Utf16Length(s[1..]) }

  function Utf8Units(c: char): nat {
    if c as int >= 0x10000 then 4 else if c as int >= 0x800 then 3 else if c as int >= 0x80 then 2 else 1
  }

  function Utf8Length(s: string): nat { if s == "" then 0 else Utf8Units(s[0]) + Utf8Length(s[1..]) }

  predicate NoControl(s: string) { forall c | c in s :: !IsControl(c) }

  lemma {:induction false} Utf16Fits(s: string)
    ensures Utf16Length(s) <= Utf8Length(s)
  {
    if s != "" { Utf16Fits(s[1..]); }
  }

  /** Where the first colon stands, or the end. */
  function ColonAt(s: string): (k: nat)
    ensures k <= |s| && (k < |s| ==> s[k] == ':') && forall j | 0 <= j < k :: s[j] != ':'
  {
    if s == "" || s[0] == ':' then 0 else 1 + ColonAt(s[1..])
  }

  lemma {:induction false} ColonFirst(a: string, b: string)
    requires ':' !in a
    ensures ColonAt(a + (":" + b)) == |a|
  {
    var s := a + (":" + b);
    if a != "" {
      assert s[0] == a[0] && a[0] in a && s[1..] == a[1..] + (":" + b);
      ColonFirst(a[1..], b);
    }
  }

  /** `str::split` at a character. */
  function Split(s: string, c: char): (r: seq<string>)
    ensures |r| >= 1
  {
    if s == "" then [""]
    else if s[0] == c then [""] + Split(s[1..], c)
    else var rest := Split(s[1..], c); [[s[0]] + rest[0]] + rest[1..]
  }

  lemma {:induction false} SplitAt(a: string, b: string, c: char)
    requires c !in a
    ensures Split(a + ([c] + b), c) == [a] + Split(b, c)
  {
    var s := a + ([c] + b);
    if a == "" {
      assert s[0] == c && s[1..] == b;
    } else {
      assert s[0] == a[0] && a[0] in a && s[1..] == a[1..] + ([c] + b);
      SplitAt(a[1..], b, c);
      assert [a[0]] + a[1..] == a;
    }
  }

  lemma {:induction false} SplitNowhere(a: string, c: char)
    requires c !in a
    ensures Split(a, c) == [a]
  {
    if a != "" {
      assert a[0] in a;
      SplitNowhere(a[1..], c);
      assert [a[0]] + a[1..] == a;
    }
  }

  /** Text without the separator stays in front of the first part. */
  lemma {:induction false} SplitBehind(a: string, b: string, c: char)
    requires c !in a
    ensures Split(a + b, c) == [a + Split(b, c)[0]] + Split(b, c)[1..]
  {
    if a == "" {
      assert a + b == b && a + Split(b, c)[0] == Split(b, c)[0];
    } else {
      assert (a + b)[0] == a[0] && a[0] in a && (a + b)[1..] == a[1..] + b;
      SplitBehind(a[1..], b, c);
      assert [a[0]] + (a[1..] + Split(b, c)[0]) == a + Split(b, c)[0];
    }
  }
}
