/** String helpers the routes and the client rely on: JavaScript's `\s`
    character class, the filename sanitiser `name.replace(/\s+/g, '-')`,
    decimal rendering of integers and the shape of `crypto.randomUUID()`. */
module Text {

  /** The characters JavaScript's `\s` matches: the WhiteSpace and
      LineTerminator code points of ECMAScript (ES2015 and later). */
  predicate IsWhitespace(c: char)
    ensures c == ' ' || c == '\t' || c == '\n' || c == '\r' ==> IsWhitespace(c)
    ensures (|| ('0' <= c <= '9') || ('a' <= c <= 'z') || ('A' <= c <= 'Z')
             || c == '-' || c == '.' || c == '_' || c == '/')
            ==> !IsWhitespace(c)
  {
    || c == '\t' || c == '\n' || c == '\U{B}' || c == '\U{C}' || c == '\r' || c == ' '
    || c == '\U{A0}' || c == '\U{1680}' || ('\U{2000}' <= c <= '\U{200A}')
    || c == '\U{2028}' || c == '\U{2029}' || c == '\U{202F}' || c == '\U{205F}'
    || c == '\U{3000}' || c == '\U{FEFF}'
  }

  predicate NoWhitespace(s: string) {
    forall i :: 0 <= i < |s| ==> !IsWhitespace(s[i])
  }

  predicate AllWhitespace(s: string) {
    forall i :: 0 <= i < |s| ==> IsWhitespace(s[i])
  }

  /** The scan `s.replace(/\s+/g, '-')` performs: `inRun` says whether the
      character before `s` was whitespace that already produced its hyphen. */
  function Collapse(s: string, inRun: bool): (r: string)
    ensures NoWhitespace(r)
    ensures |r| <= |s|
  {
    if s == [] then []
    else if IsWhitespace(s[0]) then
      if inRun then Collapse(s[1..], true) else "-" + Collapse(s[1..], true)
    else [s[0]] + Collapse(s[1..], false)
  }

  /** `name.replace(/\s+/g, '-')`: every maximal run of whitespace becomes one hyphen. */
  function Sanitize(s: string): (r: string)
    ensures NoWhitespace(r)
  {
    Collapse(s, false)
  }

  /** Whether the scan is inside a whitespace run after reading `s`. */
  function EndsInRun(s: string, inRun: bool): bool {
    if s == [] then inRun else IsWhitespace(s[|s| - 1])
  }

  /** The scan over `a + b` is the scan over `a` followed by the scan over `b`
      started in the state `a` left it in. */
  lemma {:induction false} CollapseAppend(a: string, b: string, inRun: bool)
    ensures Collapse(a + b, inRun) == Collapse(a, inRun) + Collapse(b, EndsInRun(a, inRun))
    decreases |a|
  {
    if a == [] {
      assert a + b == b;
    } else {
      var c, t := a[0], a[1..];
      var run := IsWhitespace(c);
      var e := EndsInRun(a, inRun);
      assert EndsInRun(t, run) == e by {
        if |a| > 1 { assert t[|t| - 1] == a[|a| - 1]; }
      }
      calc {
        Collapse(a + b, inRun);
      == { assert (a + b)[0] == c && (a + b)[1..] == t + b; CollapseStep(a + b, inRun); }
        Lead(c, inRun) + Collapse(t + b, run);
      == { CollapseAppend(t, b, run); }
        Lead(c, inRun) + (Collapse(t, run) + Collapse(b, e));
      == 
        (Lead(c, inRun) + Collapse(t, run)) + Collapse(b, e);
      == { CollapseStep(a, inRun); }
        Collapse(a, inRun) + Collapse(b, e);
      }
    }
  }

  /** One step of the scan: what the first character contributes. */
  lemma CollapseStep(s: string, inRun: bool)
    requires s != []
    ensures Collapse(s, inRun) == Lead(s[0], inRun) + Collapse(s[1..], IsWhitespace(s[0]))
  {
  }

  /** The output of the scan for one character. */
  function Lead(c: char, inRun: bool): string {
    if !IsWhitespace(c) then [c] else if inRun then [] else "-"
  }

  /** Text that does not open with whitespace is scanned alike in either state. */
  lemma CollapseFromText(s: string)
    requires s == [] || !IsWhitespace(s[0])
    ensures Collapse(s, true) == Collapse(s, false)
  {
  }

  /** A name without whitespace is left as it is. */
  lemma {:induction false} SanitizeKeepsClean(s: string)
    requires NoWhitespace(s)
    ensures Sanitize(s) == s
    decreases |s|
  {
    if s != [] {
      SanitizeKeepsClean(s[1..]);
    }
  }

  /** Inside a run, further whitespace produces nothing. */
  lemma {:induction false} CollapseWithinRun(w: string)
    requires AllWhitespace(w)
    ensures Collapse(w, true) == []
    decreases |w|
  {
    if w != [] {
      CollapseWithinRun(w[1..]);
    }
  }

  /** A whole run of whitespace becomes a single hyphen. */
  lemma SanitizeRun(w: string)
    requires w != [] && AllWhitespace(w)
    ensures Sanitize(w) == "-"
  {
    CollapseWithinRun(w[1..]);
  }

  /** The sanitiser works piece by piece when the cut does not split a whitespace run. */
  lemma SanitizeAppend(a: string, b: string)
    requires a == [] || b == [] || !IsWhitespace(a[|a| - 1]) || !IsWhitespace(b[0])
    ensures Sanitize(a + b) == Sanitize(a) + Sanitize(b)
  {
    CollapseAppend(a, b, false);
    if EndsInRun(a, false) {
      CollapseFromText(b);
    }
  }

  /** Each maximal whitespace run turns into exactly one hyphen, and the text
      on either side is sanitised on its own. */
  lemma CollapseRun(a: string, w: string, b: string)
    requires a == [] || !IsWhitespace(a[|a| - 1])
    requires w != [] && AllWhitespace(w)
    requires b == [] || !IsWhitespace(b[0])
    ensures Sanitize(a + w + b) == Sanitize(a) + "-" + Sanitize(b)
  {
    SanitizeAppend(a, w);
    SanitizeRun(w);
    assert (a + w)[|a + w| - 1] == w[|w| - 1];
    SanitizeAppend(a + w, b);
  }

  /** Sanitising twice is the same as sanitising once. */
  lemma SanitizeIdempotent(s: string)
    ensures Sanitize(Sanitize(s)) == Sanitize(s)
  {
    SanitizeKeepsClean(Sanitize(s));
  }

  /** The characters of `s` that are neither whitespace nor hyphens, in order. */
  function Visible(s: string): (r: string)
    ensures forall i :: 0 <= i < |r| ==> !IsWhitespace(r[i]) && r[i] != '-'
  {
    if s == [] then []
    else if IsWhitespace(s[0]) || s[0] == '-' then Visible(s[1..])
    else [s[0]] + Visible(s[1..])
  }

  /** Every character other than whitespace and hyphens survives, in order. */
  lemma {:induction false} CollapseKeepsVisible(s: string, inRun: bool)
    ensures Visible(Collapse(s, inRun)) == Visible(s)
    decreases |s|
  {
    if s != [] {
      CollapseKeepsVisible(s[1..], IsWhitespace(s[0]));
      var t := Collapse(s[1..], IsWhitespace(s[0]));
      assert ("-" + t)[1..] == t;
      assert ([s[0]] + t)[1..] == t;
    }
  }

  lemma SanitizeKeepsVisible(s: string)
    ensures Visible(Sanitize(s)) == Visible(s)
  {
    CollapseKeepsVisible(s, false);
  }

  // Decimal digits

  function Digit(d: nat): (c: char)
    requires d < 10
    ensures '0' <= c <= '9'
  {
    (('0' as int) + d) as char
  }

  function DigitValue(c: char): nat
    requires '0' <= c <= '9'
  {
    (c as int) - ('0' as int)
  }

  predicate IsDigits(s: string) {
    forall i :: 0 <= i < |s| ==> '0' <= s[i] <= '9'
  }

  /** The number a string of decimal digits denotes. */
  function Value(s: string): nat
    requires IsDigits(s)
  {
    if s == [] then 0 else 10 * Value(s[..|s| - 1]) + DigitValue(s[|s| - 1])
  }

  function Pow10(n: nat): (p: nat)
    ensures p >= 1
  {
    if n == 0 then 1 else 10 * Pow10(n - 1)
  }

  /** `n` written with exactly `width` digits, zero-padded on the left, as
      `String(n).padStart(width, '0')` does for a number that fits. */
  function Padded(n: nat, width: nat): (r: string)
    requires n < Pow10(width)
    ensures |r| == width && IsDigits(r)
    ensures Value(r) == n
  {
    if width == 0 then []
    else
      var r := Padded(n / 10, width - 1) + [Digit(n % 10)];
      assert r[..|r| - 1] == Padded(n / 10, width - 1);
      r
  }

  /** Zero-padded numbers of the same width are equal only when the numbers are. */
  lemma PaddedInjective(m: nat, n: nat, width: nat)
    requires m < Pow10(width) && n < Pow10(width)
    ensures Padded(m, width) == Padded(n, width) <==> m == n
  {
  }

  /** Numbers from 10 to 99 take two digits. */
  lemma TwoDigits(n: nat)
    requires 10 <= n < 100
    ensures |Decimal(n)| == 2
  {
    assert Decimal(n) == Decimal(n / 10) + [Digit(n % 10)];
  }

  /** `String(n)` / `${n}` for a non-negative integer. */
  function Decimal(n: nat): (r: string)
    ensures r != [] && IsDigits(r)
    ensures Value(r) == n
    ensures |r| == 1 || r[0] != '0'
    ensures r[0] == '0' ==> n == 0
  {
    if n < 10 then
      assert Value([Digit(n)]) == Value([]) * 10 + n;
      [Digit(n)]
    else
      var r := Decimal(n / 10) + [Digit(n % 10)];
      assert r[..|r| - 1] == Decimal(n / 10);
      r
  }

  // Identifiers

  predicate IsLowerHex(c: char) {
    '0' <= c <= '9' || 'a' <= c <= 'f'
  }

  /** The shape of `crypto.randomUUID()`: a version-4 UUID in lower-case
      8-4-4-4-12 form. */
  predicate IsUuid(id: string) {
    && |id| == 36
    && (forall i :: 0 <= i < 36 ==>
          if i == 8 || i == 13 || i == 18 || i == 23 then id[i] == '-' else IsLowerHex(id[i]))
    && id[14] == '4'
    && (id[19] == '8' || id[19] == '9' || id[19] == 'a' || id[19] == 'b')
  }

  /** A UUID carries no whitespace and no path separator. */
  lemma UuidIsPlain(id: string)
    requires IsUuid(id)
    ensures NoWhitespace(id)
    ensures forall i :: 0 <= i < |id| ==> id[i] != '/'
  {
    assert forall i :: 0 <= i < |id| ==> id[i] == '-' || IsLowerHex(id[i]);
  }
}
