/**
 * ECMAScript strings and the built-in string operations the service relies on:
 * `String.prototype.trim` and `trimStart`, `toLowerCase` (ASCII letters only),
 * `Array.prototype.join`, and `parseInt(s, 10)`.
 *
 * A JavaScript string is a sequence of UTF-16 code units and its `length`
 * counts code units, so a string is modelled as `seq<CodeUnit>`.
 */
module JsText {
  import opened Wrappers

  newtype CodeUnit = x: int | 0 <= x < 0x1_0000

  type JsString = seq<CodeUnit>

  const NEWLINE: CodeUnit := 0x0A
  const SPACE: CodeUnit := 0x20
  const PLUS: CodeUnit := 0x2B
  const COMMA: CodeUnit := 0x2C
  const MINUS: CodeUnit := 0x2D
  const DOT: CodeUnit := 0x2E
  const AT: CodeUnit := 0x40

  /** The code units of a Dafny literal; meant for the ASCII constants of the service. */
  function Lit(s: string): (r: JsString)
    ensures |r| == |s|
  {
    seq(|s|, i requires 0 <= i < |s| =>
      if s[i] as int < 0x1_0000 then (s[i] as int) as CodeUnit else 0xFFFD)
  }

  /** A character that a literal does not contain is not among its code units. */
  lemma LitExcludes(s: string, ch: char)
    requires ch !in s && (ch as int) < 0xD800
    ensures (ch as int) as CodeUnit !in Lit(s)
  {
    forall i | 0 <= i < |s|
      ensures Lit(s)[i] != (ch as int) as CodeUnit
    {
      assert s[i] != ch;
    }
  }

  // ---------------------------------------------------------------------------
  // Whitespace and trimming

  /**
   * The ECMAScript WhiteSpace and LineTerminator code points (tab, vertical tab,
   * form feed, the Unicode space separators, no-break space, byte order mark,
   * LF, CR, LS, PS). `trim`, `trimStart` and the regular-expression class `\s`
   * all use this one set.
   */
  predicate IsWhiteSpace(c: CodeUnit) {
    c == 0x09 || c == 0x0A || c == 0x0B || c == 0x0C || c == 0x0D
    || c == 0x20 || c == 0xA0 || c == 0x1680 || (0x2000 <= c <= 0x200A)
    || c == 0x2028 || c == 0x2029 || c == 0x202F || c == 0x205F
    || c == 0x3000 || c == 0xFEFF
  }

  /** No whitespace at either end. */
  predicate IsTrimmed(s: JsString) {
    s == [] || (!IsWhiteSpace(s[0]) && !IsWhiteSpace(s[|s| - 1]))
  }

  /** `s.trimStart()`: what is left after dropping leading whitespace. */
  function TrimStart(s: JsString): (r: JsString)
    ensures |r| <= |s|
    ensures r != [] ==> !IsWhiteSpace(r[0])
  {
    if s != [] && IsWhiteSpace(s[0]) then TrimStart(s[1..]) else s
  }

  /** What is left after dropping trailing whitespace. */
  function TrimEnd(s: JsString): (r: JsString)
    ensures |r| <= |s|
    ensures r != [] ==> !IsWhiteSpace(r[|r| - 1])
  {
    if s != [] && IsWhiteSpace(s[|s| - 1]) then TrimEnd(s[..|s| - 1]) else s
  }

  /** `trimStart` keeps a suffix. */
  lemma {:induction false} TrimStartIsSuffix(s: JsString)
    ensures TrimStart(s) == s[|s| - |TrimStart(s)|..]
  {
    if s != [] && IsWhiteSpace(s[0]) {
      TrimStartIsSuffix(s[1..]);
      assert s[1..][|s| - 1 - |TrimStart(s)|..] == s[|s| - |TrimStart(s)|..];
    }
  }

  /** `TrimEnd` keeps a prefix. */
  lemma {:induction false} TrimEndIsPrefix(s: JsString)
    ensures TrimEnd(s) == s[..|TrimEnd(s)|]
  {
    if s != [] && IsWhiteSpace(s[|s| - 1]) {
      TrimEndIsPrefix(s[..|s| - 1]);
      assert s[..|s| - 1][..|TrimEnd(s)|] == s[..|TrimEnd(s)|];
    }
  }

  /** What `trimStart` drops is whitespace. */
  lemma {:induction false} TrimStartDropsWhiteSpace(s: JsString)
    ensures forall i :: 0 <= i < |s| - |TrimStart(s)| ==> IsWhiteSpace(s[i])
  {
    if s != [] && IsWhiteSpace(s[0]) {
      TrimStartDropsWhiteSpace(s[1..]);
      assert forall i :: 1 <= i < |s| - |TrimStart(s)| ==> s[i] == s[1..][i - 1];
    }
  }

  /** What `TrimEnd` drops is whitespace. */
  lemma {:induction false} TrimEndDropsWhiteSpace(s: JsString)
    ensures forall i :: |TrimEnd(s)| <= i < |s| ==> IsWhiteSpace(s[i])
  {
    if s != [] && IsWhiteSpace(s[|s| - 1]) {
      TrimEndDropsWhiteSpace(s[..|s| - 1]);
      assert forall i :: |TrimEnd(s)| <= i < |s| - 1 ==> s[i] == s[..|s| - 1][i];
    }
  }

  /** Number of leading code units that `trim` removes. */
  function TrimOffset(s: JsString): (k: nat)
    ensures k <= |s|
  {
    |s| - |TrimStart(s)|
  }

  /** `s.trim()`. */
  function Trim(s: JsString): (r: JsString)
    ensures IsTrimmed(r) && |r| <= |s|
  {
    var t := TrimStart(s);
    var r := TrimEnd(t);
    TrimEndIsPrefix(t);
    assert r != [] ==> r[0] == t[0];
    r
  }

  /**
   * `trim` keeps the infix of `s` that starts at `TrimOffset(s)`; everything
   * cut off on either side is whitespace, and the result neither starts nor
   * ends with whitespace.
   */
  lemma TrimCutsWhiteSpace(s: JsString)
    ensures var r := Trim(s);
      && IsTrimmed(r)
      && TrimOffset(s) + |r| <= |s| && r == s[TrimOffset(s)..TrimOffset(s) + |r|]
      && (forall i :: 0 <= i < TrimOffset(s) ==> IsWhiteSpace(s[i]))
      && (forall i :: TrimOffset(s) + |r| <= i < |s| ==> IsWhiteSpace(s[i]))
  {
    var t := TrimStart(s);
    var r := TrimEnd(t);
    TrimStartIsSuffix(s);
    TrimEndIsPrefix(t);
    TrimStartDropsWhiteSpace(s);
    TrimEndDropsWhiteSpace(t);
    forall i | TrimOffset(s) + |r| <= i < |s|
      ensures IsWhiteSpace(s[i])
    {
      assert s[i] == t[i - TrimOffset(s)];
    }
  }

  /** A string without whitespace at its ends is its own trim. */
  lemma TrimOfTrimmed(s: JsString)
    requires IsTrimmed(s)
    ensures Trim(s) == s
  {
    if s != [] {
      assert TrimStart(s) == s;
      assert TrimEnd(s) == s;
    }
  }

  /** Trimming twice is trimming once. */
  lemma TrimIdempotent(s: JsString)
    ensures Trim(Trim(s)) == Trim(s)
  {
    TrimOfTrimmed(Trim(s));
  }

  /** Leading whitespace makes no difference to `trimStart`. */
  lemma {:induction false} TrimStartSkipsWhiteSpace(w: JsString, s: JsString)
    requires forall i :: 0 <= i < |w| ==> IsWhiteSpace(w[i])
    ensures TrimStart(w + s) == TrimStart(s)
  {
    if w != [] {
      assert (w + s)[0] == w[0] && (w + s)[1..] == w[1..] + s;
      calc {
        TrimStart(w + s);
        TrimStart(w[1..] + s);
        { TrimStartSkipsWhiteSpace(w[1..], s); }
        TrimStart(s);
      }
    } else {
      assert w + s == s;
    }
  }

  // ---------------------------------------------------------------------------
  // Case

  /** ASCII `A`..`Z` to `a`..`z`; every other code unit is left alone. */
  function LowerUnit(c: CodeUnit): CodeUnit {
    if 0x41 <= c <= 0x5A then c + 0x20 else c
  }

  /** `s.toLowerCase()`, restricted to ASCII letters. */
  function ToLowerAscii(s: JsString): (r: JsString)
    ensures |r| == |s|
  {
    seq(|s|, i requires 0 <= i < |s| => LowerUnit(s[i]))
  }

  /**
   * Lower-casing changes letters only: every code unit keeps its whitespace
   * class, `@` and `.` stay where they are and nothing else becomes either.
   */
  lemma LowerKeepsClasses(s: JsString)
    ensures forall i :: 0 <= i < |s| ==>
      && (IsWhiteSpace(ToLowerAscii(s)[i]) <==> IsWhiteSpace(s[i]))
      && (ToLowerAscii(s)[i] == AT <==> s[i] == AT)
      && (ToLowerAscii(s)[i] == DOT <==> s[i] == DOT)
  {
  }

  /** Lower-casing a lower-cased string changes nothing. */
  lemma LowerIdempotent(s: JsString)
    ensures ToLowerAscii(ToLowerAscii(s)) == ToLowerAscii(s)
  {
  }

  /** Lower-casing neither adds nor removes whitespace at the ends. */
  lemma LowerKeepsTrimmed(s: JsString)
    requires IsTrimmed(s)
    ensures IsTrimmed(ToLowerAscii(s))
  {
    LowerKeepsClasses(s);
  }

  // ---------------------------------------------------------------------------
  // Joining, searching, prefixes

  /** `parts.join(sep)`. */
  function Join(parts: seq<JsString>, sep: JsString): (r: JsString)
    ensures parts != [] ==> |r| >= |parts[0]| && r[..|parts[0]|] == parts[0]
  {
    if |parts| == 0 then []
    else if |parts| == 1 then parts[0]
    else parts[0] + sep + Join(parts[1..], sep)
  }

  /** The position of the first `c` in `s`, if any. */
  function IndexOf(s: JsString, c: CodeUnit): (r: Option<nat>)
    ensures r.Some? ==> r.value < |s| && s[r.value] == c && c !in s[..r.value]
    ensures r.None? <==> c !in s
  {
    if s == [] then None
    else if s[0] == c then Some(0)
    else
      match IndexOf(s[1..], c)
      case None => None
      case Some(k) =>
        assert s[..k + 1] == [s[0]] + s[1..][..k];
        Some(k + 1)
  }

  /** The first `c` after a `c`-free prefix is the one just after that prefix. */
  lemma IndexOfAfter(a: JsString, c: CodeUnit, b: JsString)
    requires c !in a
    ensures IndexOf(a + [c] + b, c) == Some(|a|)
  {
    var s := a + [c] + b;
    assert s[|a|] == c && s[..|a|] == a;
  }

  predicate StartsWith(s: JsString, prefix: JsString) {
    |prefix| <= |s| && s[..|prefix|] == prefix
  }

  /** `needle` occurs in `hay` as the contiguous run starting at index `i`. */
  predicate OccursAt(hay: JsString, needle: JsString, i: int) {
    0 <= i <= |hay| - |needle| && hay[i..i + |needle|] == needle
  }

  lemma InfixAt(a: JsString, needle: JsString, b: JsString)
    ensures OccursAt(a + needle + b, needle, |a|)
  {
    assert (a + needle + b)[|a|..|a| + |needle|] == needle;
  }

  // ---------------------------------------------------------------------------
  // parseInt(s, 10)

  predicate IsDigit(c: CodeUnit) {
    0x30 <= c <= 0x39
  }

  /** The longest prefix of `s` made of decimal digits. */
  function LeadingDigits(s: JsString): (z: JsString)
    ensures |z| <= |s| && z == s[..|z|]
    ensures forall i :: 0 <= i < |z| ==> IsDigit(z[i])
    ensures |z| < |s| ==> !IsDigit(s[|z|])
  {
    if s != [] && IsDigit(s[0]) then [s[0]] + LeadingDigits(s[1..]) else []
  }

  /** The value of a run of decimal digits, most significant first. */
  function DigitsValue(z: JsString): nat
    requires forall i :: 0 <= i < |z| ==> IsDigit(z[i])
  {
    if z == [] then 0
    else
      var d := z[|z| - 1];
      assert IsDigit(d);
      DigitsValue(z[..|z| - 1]) * 10 + (d as int - 0x30)
  }

  /** The decimal rendering of `n`, without sign or leading zeros. */
  function Decimal(n: nat): (z: JsString)
    ensures z != [] && forall i :: 0 <= i < |z| ==> IsDigit(z[i])
  {
    if n < 10 then [(0x30 + n) as CodeUnit]
    else Decimal(n / 10) + [(0x30 + n % 10) as CodeUnit]
  }

  lemma {:induction false} DecimalValue(n: nat)
    ensures DigitsValue(Decimal(n)) == n
  {
    if n >= 10 {
      var z := Decimal(n);
      assert z[..|z| - 1] == Decimal(n / 10);
      DecimalValue(n / 10);
    }
  }

  lemma {:induction false} LeadingDigitsOf(z: JsString, rest: JsString)
    requires forall i :: 0 <= i < |z| ==> IsDigit(z[i])
    requires rest == [] || !IsDigit(rest[0])
    ensures LeadingDigits(z + rest) == z
  {
    if z != [] {
      assert (z + rest)[1..] == z[1..] + rest;
      LeadingDigitsOf(z[1..], rest);
    }
  }

  /**
   * `parseInt(s, 10)`, with `None` for NaN: skip leading whitespace, take an
   * optional sign, then the longest run of decimal digits; no digits is NaN.
   * The radix is 10, so no `0x` prefix is recognised.
   */
  function ParseInt(s: JsString): Option<int> {
    ParseSigned(TrimStart(s))
  }

  /** `parseInt` after the leading whitespace: optional sign, then digits. */
  function ParseSigned(t: JsString): Option<int> {
    var negative := t != [] && t[0] == MINUS;
    var u := if t != [] && (t[0] == MINUS || t[0] == PLUS) then t[1..] else t;
    var z := LeadingDigits(u);
    if z == [] then None
    else
      var v: int := DigitsValue(z);
      Some(if negative then -v else v)
  }

  /** Leading whitespace makes no difference to `parseInt`. */
  lemma ParseIntSkipsWhiteSpace(w: JsString, s: JsString)
    requires forall i :: 0 <= i < |w| ==> IsWhiteSpace(w[i])
    ensures ParseInt(w + s) == ParseInt(s)
  {
    TrimStartSkipsWhiteSpace(w, s);
  }

  /**
   * Prefix parsing: an unsigned decimal number parses to its value whatever
   * non-digit text follows it.
   */
  lemma ParseIntOfUnsigned(n: nat, rest: JsString)
    requires rest == [] || !IsDigit(rest[0])
    ensures ParseInt(Decimal(n) + rest) == Some(n)
  {
    var t := Decimal(n) + rest;
    assert t[0] == Decimal(n)[0] && IsDigit(t[0]);
    assert TrimStart(t) == t;
    LeadingDigitsOf(Decimal(n), rest);
    assert LeadingDigits(t) == Decimal(n);
    DecimalValue(n);
  }

  /** A decimal number behind a minus sign parses to its negation. */
  lemma ParseIntOfNegative(n: nat, rest: JsString)
    requires rest == [] || !IsDigit(rest[0])
    ensures var v: int := -(n as int); ParseInt([MINUS] + Decimal(n) + rest) == Some(v)
  {
    var t := [MINUS] + Decimal(n) + rest;
    assert t[0] == MINUS;
    assert TrimStart(t) == t;
    assert t[1..] == Decimal(n) + rest;
    LeadingDigitsOf(Decimal(n), rest);
    DecimalValue(n);
  }

  /** Text that does not start (after whitespace) with a sign or digit is NaN. */
  lemma ParseIntNaN(s: JsString)
    requires var t := TrimStart(s); t == [] || (!IsDigit(t[0]) && t[0] != PLUS && t[0] != MINUS)
    ensures ParseInt(s) == None
  {
  }
}
