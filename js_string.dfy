/** The JavaScript string built-ins the plugin relies on: white space as `\s`
    and `trim` see it, `toLowerCase`, `startsWith`, `substring`, `replace`
    with a string or a global pattern, `join`, number-to-string and
    `parseInt`. A JavaScript string is modelled as a `string`. */
module JsString {
  import opened Wrappers

  // ---------------------------------------------------------------------
  // White space and trim
  // ---------------------------------------------------------------------

  /** The code points that `\s` matches and that `String.prototype.trim`
      strips: the WhiteSpace and LineTerminator characters of ECMA-262
      (section 12.2 and 12.3 of ECMAScript 2023). */
  predicate IsWs(c: char) {
    || c == ' ' || c == '\t' || c == '\n' || c == '\U{B}' || c == '\U{C}' || c == '\r'
    || c == '\U{A0}' || c == '\U{1680}' || ('\U{2000}' <= c <= '\U{200A}')
    || c == '\U{2028}' || c == '\U{2029}' || c == '\U{202F}' || c == '\U{205F}'
    || c == '\U{3000}' || c == '\U{FEFF}'
  }

  /** Neither the first nor the last character is white space. */
  predicate NoEdgeWs(s: string) {
    s == [] || (!IsWs(s[0]) && !IsWs(s[|s| - 1]))
  }

  /** `trimStart`: the suffix of `s` left after its leading white space. */
  function TrimStart(s: string): (r: string)
    ensures |r| <= |s|
    ensures r == [] || !IsWs(r[0])
    ensures s != [] && IsWs(s[0]) ==> |r| < |s|
  {
    if s != [] && IsWs(s[0]) then TrimStart(s[1..]) else s
  }

  /** `TrimStart(s)` is a suffix of `s`, and all it cuts off is white space. */
  lemma {:induction false} TrimStartSuffix(s: string)
    ensures TrimStart(s) == s[|s| - |TrimStart(s)|..]
    ensures forall i :: 0 <= i < |s| - |TrimStart(s)| ==> IsWs(s[i])
  {
    if s != [] && IsWs(s[0]) {
      TrimStartSuffix(s[1..]);
    }
  }

  /** One step of `TrimStart` over a leading white-space character. */
  lemma TrimStartStep(s: string)
    requires s != [] && IsWs(s[0])
    ensures TrimStart(s) == TrimStart(s[1..])
  {
  }

  /** `TrimStart` leaves a string that does not start with white space alone. */
  lemma TrimStartStop(s: string)
    requires s == [] || !IsWs(s[0])
    ensures TrimStart(s) == s
  {
  }

  /** A run of white space in front of a text that does not start with
      white space is cut off whole. */
  lemma {:induction false} TrimStartRun(w: string, b: string)
    requires forall i :: 0 <= i < |w| ==> IsWs(w[i])
    requires b == [] || !IsWs(b[0])
    ensures TrimStart(w + b) == b
  {
    if w != [] {
      assert (w + b)[1..] == w[1..] + b;
      TrimStartRun(w[1..], b);
    } else {
      assert w + b == b;
    }
  }

  /** `TrimStart` stops inside a text that ends in a character that is
      not white space, so whatever follows is kept. */
  lemma {:induction false} TrimStartAppend(x: string, y: string)
    requires x != [] && !IsWs(x[|x| - 1])
    ensures TrimStart(x + y) == TrimStart(x) + y
  {
    if IsWs(x[0]) {
      assert |x| > 1;
      assert (x + y)[1..] == x[1..] + y;
      TrimStartAppend(x[1..], y);
    }
  }

  /** `trimEnd`: the prefix of `s` left after its trailing white space. */
  function TrimEnd(s: string): (r: string)
    ensures |r| <= |s|
    ensures r == [] || !IsWs(r[|r| - 1])
  {
    if s != [] && IsWs(s[|s| - 1]) then TrimEnd(s[..|s| - 1]) else s
  }

  /** `TrimEnd(s)` is a prefix of `s`, and all it cuts off is white space. */
  lemma {:induction false} TrimEndPrefix(s: string)
    ensures TrimEnd(s) == s[..|TrimEnd(s)|]
    ensures forall i :: |TrimEnd(s)| <= i < |s| ==> IsWs(s[i])
  {
    if s != [] && IsWs(s[|s| - 1]) {
      TrimEndPrefix(s[..|s| - 1]);
    }
  }

  /** Where `Trim(s)` starts inside `s`. */
  function TrimOffset(s: string): (k: nat)
    ensures k <= |s|
  {
    |s| - |TrimStart(s)|
  }

  /** `String.prototype.trim`: `s` without its leading and trailing white
      space; a string without white space at its edges is unchanged. */
  function Trim(s: string): (r: string)
    ensures |r| <= |s|
    ensures NoEdgeWs(r)
    ensures NoEdgeWs(s) ==> r == s
  {
    TrimEndPrefix(TrimStart(s));
    TrimEnd(TrimStart(s))
  }

  /** What `Trim` cuts off: `Trim(s)` is the slice of `s` from
      `TrimOffset(s)`, and everything on either side of it is white space. */
  lemma TrimSlice(s: string)
    ensures TrimOffset(s) + |Trim(s)| <= |s|
    ensures Trim(s) == s[TrimOffset(s)..TrimOffset(s) + |Trim(s)|]
    ensures forall i :: 0 <= i < TrimOffset(s) ==> IsWs(s[i])
    ensures forall i :: TrimOffset(s) + |Trim(s)| <= i < |s| ==> IsWs(s[i])
  {
    var t := TrimStart(s);
    var r := TrimEnd(t);
    TrimStartSuffix(s);
    TrimEndPrefix(t);
    assert r == s[TrimOffset(s)..TrimOffset(s) + |r|];
  }

  // ---------------------------------------------------------------------
  // Lower case
  // ---------------------------------------------------------------------

  /** `toLowerCase` on one character, for the scripts the plugin's users
      write in: ASCII, Latin-1 and basic Cyrillic (U+0400 to U+042F). Every
      other character is its own lower case here. */
  function ToLowerChar(c: char): (d: char)
  {
    if 'A' <= c <= 'Z' || ('\U{C0}' <= c <= '\U{DE}' && c != '\U{D7}') || ('\U{410}' <= c <= '\U{42F}')
    then (c as int + 32) as char
    else if '\U{400}' <= c <= '\U{40F}' then (c as int + 80) as char
    else c
  }

  /** `String.prototype.toLowerCase`, character by character. */
  function ToLower(s: string): (r: string)
    ensures |r| == |s|
    ensures forall i :: 0 <= i < |s| ==> r[i] == ToLowerChar(s[i])
  {
    seq(|s|, i requires 0 <= i < |s| => ToLowerChar(s[i]))
  }

  // ---------------------------------------------------------------------
  // substring
  // ---------------------------------------------------------------------

  /** `s.substring(start)` for a non-negative start: what follows the
      first `start` characters, and the empty string once `start` reaches
      the end. */
  function SubstringFrom(s: string, start: nat): (r: string)
    ensures start <= |s| ==> s[..start] + r == s
    ensures |r| == if start <= |s| then |s| - start else 0
  {
    if start <= |s| then s[start..] else ""
  }

  // ---------------------------------------------------------------------
  // replace
  // ---------------------------------------------------------------------

  /** `pat` occurs in `s` starting at index `i`. */
  predicate OccursAt(s: string, pat: string, i: nat) {
    i + |pat| <= |s| && s[i..i + |pat|] == pat
  }

  /** `pat` occurs somewhere in `s`. */
  predicate Contains(s: string, pat: string) {
    exists i: nat | i <= |s| :: OccursAt(s, pat, i)
  }

  /** `s.replace(pat, rep)` with a string pattern: only the first
      occurrence is replaced; the replacement is inserted literally. */
  function ReplaceFirst(s: string, pat: string, rep: string): (r: string)
    requires pat != []
    decreases |s|
  {
    if |s| < |pat| then s
    else if s[..|pat|] == pat then rep + s[|pat|..]
    else [s[0]] + ReplaceFirst(s[1..], pat, rep)
  }

  /** `s.replace(/pat/g, rep)`: every occurrence, scanning left to right
      without overlaps; the replacement is inserted literally. */
  function ReplaceAll(s: string, pat: string, rep: string): (r: string)
    requires pat != []
    decreases |s|
  {
    if |s| < |pat| then s
    else if s[..|pat|] == pat then rep + ReplaceAll(s[|pat|..], pat, rep)
    else [s[0]] + ReplaceAll(s[1..], pat, rep)
  }

  /** An occurrence in the tail of a text is an occurrence in the text. */
  lemma ContainsTail(s: string, pat: string)
    requires s != []
    ensures Contains(s[1..], pat) ==> Contains(s, pat)
  {
    if Contains(s[1..], pat) {
      var i: nat :| i <= |s[1..]| && OccursAt(s[1..], pat, i);
      assert s[1..][i..i + |pat|] == s[i + 1..i + 1 + |pat|];
      assert OccursAt(s, pat, i + 1);
    }
  }

  /** A text in which the pattern never occurs comes back from a global
      replace unchanged. */
  lemma {:induction false} ReplaceAllAbsent(s: string, pat: string, rep: string)
    requires pat != []
    requires !Contains(s, pat)
    ensures ReplaceAll(s, pat, rep) == s
  {
    if |s| >= |pat| {
      assert !OccursAt(s, pat, 0);
      ContainsTail(s, pat);
      ReplaceAllAbsent(s[1..], pat, rep);
    }
  }

  /** A text in which the pattern never occurs comes back from a
      first-occurrence replace unchanged. */
  lemma {:induction false} ReplaceFirstAbsent(s: string, pat: string, rep: string)
    requires pat != []
    requires !Contains(s, pat)
    ensures ReplaceFirst(s, pat, rep) == s
  {
    if |s| >= |pat| {
      assert !OccursAt(s, pat, 0);
      ContainsTail(s, pat);
      ReplaceFirstAbsent(s[1..], pat, rep);
    }
  }

  /** A text that does not contain the pattern's first character is copied
      through by a global replace. */
  lemma {:induction false} ReplaceAllSkips(a: string, b: string, pat: string, rep: string)
    requires pat != []
    requires pat[0] !in a
    ensures ReplaceAll(a + b, pat, rep) == a + ReplaceAll(b, pat, rep)
  {
    if a == [] {
      assert a + b == b;
    } else {
      var s := a + b;
      if |s| < |pat| {
        assert |b| < |pat|;
      } else {
        assert s[0] == a[0] != pat[0];
        assert s[..|pat|] != pat;
        assert s[1..] == a[1..] + b;
        ReplaceAllSkips(a[1..], b, pat, rep);
      }
    }
  }

  /** `sep` joined between the elements of `parts`, as `Array.prototype.join`. */
  function Join(parts: seq<string>, sep: string): (r: string)
    decreases |parts|
  {
    if parts == [] then ""
    else if |parts| == 1 then parts[0]
    else parts[0] + sep + Join(parts[1..], sep)
  }

  /** A global replace substitutes an occurrence at the very start and
      goes on after it. */
  lemma ReplaceAllAtStart(pat: string, b: string, rep: string)
    requires pat != []
    ensures ReplaceAll(pat + b, pat, rep) == rep + ReplaceAll(b, pat, rep)
  {
    assert (pat + b)[..|pat|] == pat && (pat + b)[|pat|..] == b;
  }

  /** A token of which the pattern is neither a prefix nor an extension
      does not start with the pattern, whatever follows it. */
  lemma TokenMismatch(h: string, b: string, pat: string)
    requires !(pat <= h) && !(h <= pat)
    requires |h + b| >= |pat|
    ensures (h + b)[..|pat|] != pat
  {
    var s := h + b;
    if |pat| <= |h| {
      assert s[..|pat|] == h[..|pat|];
    } else {
      assert s[..|pat|][..|h|] == h;
    }
  }

  /** A token that opens with the pattern's first character, holds it
      nowhere else, and of which the pattern is neither a prefix nor an
      extension, passes through a global replace untouched. */
  lemma ReplaceAllPastToken(h: string, b: string, pat: string, rep: string)
    requires pat != [] && h != [] && h[0] == pat[0] && pat[0] !in h[1..]
    requires !(pat <= h) && !(h <= pat)
    ensures ReplaceAll(h + b, pat, rep) == h + ReplaceAll(b, pat, rep)
  {
    if |h + b| < |pat| {
      assert ReplaceAll(b, pat, rep) == b;
    } else {
      TokenMismatch(h, b, pat);
      ReplaceAllStep(h + b, pat, rep);
      ConsSplit(h, b, ReplaceAll(b, pat, rep));
      ReplaceAllSkips(h[1..], b, pat, rep);
    }
  }

  /** Where the pattern does not start, a global replace keeps the first
      character and goes on with the rest. */
  lemma ReplaceAllStep(s: string, pat: string, rep: string)
    requires pat != [] && |s| >= |pat| && s[..|pat|] != pat
    ensures ReplaceAll(s, pat, rep) == [s[0]] + ReplaceAll(s[1..], pat, rep)
  {
  }

  lemma ConsSplit(h: string, b: string, x: string)
    requires h != []
    ensures (h + b)[1..] == h[1..] + b
    ensures h + x == [h[0]] + (h[1..] + x)
  {
    assert (h + b)[1..] == h[1..] + b;
    assert h + x == [h[0]] + (h[1..] + x);
  }

  /** The first placeholder after a text free of its opening character is
      the one `replace` substitutes; the rest is left as it was. */
  lemma {:induction false} ReplaceFirstAfter(a: string, pat: string, rep: string, b: string)
    requires pat != []
    requires pat[0] !in a
    ensures ReplaceFirst(a + pat + b, pat, rep) == a + rep + b
  {
    assert a + pat + b == a + (pat + b);
    assert a + rep + b == a + (rep + b);
    ReplaceFirstAfterTail(a, pat, rep, pat + b, b);
  }

  /** A placeholder at the very end, after a text free of its opening
      character, is the one `replace` substitutes. */
  lemma ReplaceFirstAtEnd(a: string, pat: string, rep: string)
    requires pat != []
    requires pat[0] !in a
    ensures ReplaceFirst(a + pat, pat, rep) == a + rep
  {
    assert a + pat == a + pat + "";
    ReplaceFirstAfter(a, pat, rep, "");
    assert a + rep + "" == a + rep;
  }

  lemma {:induction false} ReplaceFirstAfterTail(a: string, pat: string, rep: string, t: string, b: string)
    requires pat != [] && t == pat + b
    requires pat[0] !in a
    ensures ReplaceFirst(a + t, pat, rep) == a + (rep + b)
  {
    if a == [] {
      assert a + t == t && a + (rep + b) == rep + b;
      assert t[..|pat|] == pat && t[|pat|..] == b;
    } else {
      var s := a + t;
      assert s[0] == a[0];
      assert s[..|pat|][0] != pat[0];
      assert s[1..] == a[1..] + t;
      ReplaceFirstAfterTail(a[1..], pat, rep, t, b);
      assert a + (rep + b) == [a[0]] + (a[1..] + (rep + b));
    }
  }

  /** `replace` substitutes the first occurrence: when no occurrence of the
      pattern starts inside the text before it, the chosen occurrence is the
      one replaced. */
  lemma ReplaceFirstAtFirst(a: string, pat: string, rep: string, b: string)
    requires pat != []
    requires forall i :: 0 <= i < |a| ==> !OccursAt(a + pat + b, pat, i)
    ensures ReplaceFirst(a + pat + b, pat, rep) == a + rep + b
  {
    assert a + pat + b == a + (pat + b);
    assert a + rep + b == a + (rep + b);
    ReplaceFirstAtFirstTail(a, pat, rep, pat + b, b);
  }

  lemma {:induction false} ReplaceFirstAtFirstTail(a: string, pat: string, rep: string, t: string, b: string)
    requires pat != [] && t == pat + b
    requires forall i :: 0 <= i < |a| ==> !OccursAt(a + t, pat, i)
    ensures ReplaceFirst(a + t, pat, rep) == a + (rep + b)
    decreases |a|
  {
    if a == [] {
      assert a + t == t && a + (rep + b) == rep + b;
      assert t[..|pat|] == pat && t[|pat|..] == b;
    } else {
      var s := a + t;
      assert !OccursAt(s, pat, 0);
      assert s[..|pat|] != pat;
      assert s[1..] == a[1..] + t;
      forall i | 0 <= i < |a[1..]| ensures !OccursAt(a[1..] + t, pat, i) {
        assert !OccursAt(s, pat, i + 1);
        assert s[1..][i..i + |pat|] == s[i + 1..i + 1 + |pat|];
      }
      ReplaceFirstAtFirstTail(a[1..], pat, rep, t, b);
      assert a + (rep + b) == [a[0]] + (a[1..] + (rep + b));
    }
  }

  // ---------------------------------------------------------------------
  // Numbers
  // ---------------------------------------------------------------------

  predicate IsDecimalDigit(c: char) {
    '0' <= c <= '9'
  }

  function DigitChar(d: nat): (c: char)
    requires d < 10
    ensures IsDecimalDigit(c) && c as int - '0' as int == d
  {
    ('0' as int + d) as char
  }

  /** The decimal rendering of a natural number, as JavaScript's `String(n)`
      for a non-negative integer: digits only, no leading zero. */
  function NatToString(n: nat): (r: string)
    ensures r != []
    ensures forall i :: 0 <= i < |r| ==> IsDecimalDigit(r[i])
    ensures |r| > 1 ==> r[0] != '0'
  {
    if n < 10 then [DigitChar(n)] else NatToString(n / 10) + [DigitChar(n % 10)]
  }

  /** `String(n)` for an integer: a minus sign before the digits of `-n`. */
  function IntToString(n: int): (r: string)
  {
    if n < 0 then "-" + NatToString(-n) else NatToString(n)
  }

  /** The value of a digit in the given radix (10 or 16), if it is one. */
  function DigitValue(c: char, radix: nat): (v: Option<nat>)
    ensures v.Some? ==> v.value < radix
    requires radix == 10 || radix == 16
  {
    if '0' <= c <= '9' then Some(c as int - '0' as int)
    else if radix == 16 && 'a' <= c <= 'f' then Some(c as int - 'a' as int + 10)
    else if radix == 16 && 'A' <= c <= 'F' then Some(c as int - 'A' as int + 10)
    else None
  }

  /** The longest prefix of `s` made of digits of the radix. */
  function LeadingDigits(s: string, radix: nat): (r: string)
    requires radix == 10 || radix == 16
    ensures r <= s
    ensures forall i :: 0 <= i < |r| ==> DigitValue(r[i], radix).Some?
    ensures |r| < |s| ==> DigitValue(s[|r|], radix).None?
  {
    if s != [] && DigitValue(s[0], radix).Some? then [s[0]] + LeadingDigits(s[1..], radix) else []
  }

  /** The number a string of digits denotes, most significant first. */
  function DigitsValue(ds: string, radix: nat): nat
    requires radix == 10 || radix == 16
    requires forall i :: 0 <= i < |ds| ==> DigitValue(ds[i], radix).Some?
    decreases |ds|
  {
    if ds == [] then 0
    else DigitsValue(ds[..|ds| - 1], radix) * radix + DigitValue(ds[|ds| - 1], radix).value
  }

  /** `parseInt(s)` without a radix, `None` standing for `NaN`: leading
      white space is skipped, one sign is read, and the digits that follow
      are read by `ParseUnsigned`. */
  function ParseInt(s: string): (r: Option<int>)
    ensures TrimStart(s) == [] ==> r.None?
    ensures r.Some? && r.value < 0 ==> TrimStart(s)[0] == '-'
    ensures TrimStart(s) != [] && !IsDecimalDigit(TrimStart(s)[0]) && TrimStart(s)[0] !in "+-" ==> r.None?
  {
    ParseSigned(TrimStart(s))
  }

  /** One optional sign, then an unsigned number. */
  function ParseSigned(t: string): (r: Option<int>)
    ensures t == [] ==> r.None?
    ensures r.Some? && r.value < 0 ==> t[0] == '-'
    ensures t != [] && !IsDecimalDigit(t[0]) && t[0] !in "+-" ==> r.None?
  {
    if t != [] && t[0] == '-' then
      (match ParseUnsigned(t[1..])
       case None => None
       case Some(v) => Some(-v))
    else if t != [] && t[0] == '+' then ParseUnsigned(t[1..])
    else ParseUnsigned(t)
  }

  /** After the sign: a `0x` or `0X` prefix selects hexadecimal, and the
      longest run of digits that follows is the value; no digit at all is
      `NaN`. */
  function ParseUnsigned(u: string): (r: Option<int>)
    ensures r.Some? ==> r.value >= 0
    ensures u == [] || !IsDecimalDigit(u[0]) ==> r.None?
  {
    var hex := |u| >= 2 && u[0] == '0' && (u[1] == 'x' || u[1] == 'X');
    var radix := if hex then 16 else 10;
    var ds := LeadingDigits(if hex then u[2..] else u, radix);
    if ds == [] then None
    else Some(DigitsValue(ds, radix))
  }

  /** Decimal digits read back give the number they were written from. */
  lemma {:induction false} DecimalRoundTrip(n: nat)
    ensures DigitsValue(NatToString(n), 10) == n
    ensures LeadingDigits(NatToString(n), 10) == NatToString(n)
  {
    var s := NatToString(n);
    if n >= 10 {
      DecimalRoundTrip(n / 10);
      assert s[..|s| - 1] == NatToString(n / 10);
    }
    LeadingDigitsAll(s);
  }

  /** A string made only of decimal digits is its own longest digit prefix. */
  lemma {:induction false} LeadingDigitsAll(s: string)
    requires forall i :: 0 <= i < |s| ==> IsDecimalDigit(s[i])
    ensures LeadingDigits(s, 10) == s
  {
    if s != [] {
      LeadingDigitsAll(s[1..]);
    }
  }

  /** A run of decimal digits without a leading zero is read back as the
      number it denotes, with or without a leading minus. */
  lemma ParseDigits(d: string, v: nat)
    requires d != [] && IsDecimalDigit(d[0]) && (|d| > 1 ==> d[0] != '0')
    requires LeadingDigits(d, 10) == d && DigitsValue(d, 10) == v
    ensures ParseInt(d) == Some(v)
    ensures ParseInt("-" + d) == Some(-(v as int))
  {
    ParseUnsignedDecimal(d, v);
    ParsePlain(d, v);
    ParseNegative(d, v);
  }

  lemma ParsePlain(d: string, v: nat)
    requires d != [] && IsDecimalDigit(d[0]) && ParseUnsigned(d) == Some(v)
    ensures ParseInt(d) == Some(v)
  {
    TrimStartStop(d);
  }

  lemma ParseUnsignedDecimal(d: string, v: nat)
    requires d != [] && IsDecimalDigit(d[0]) && (|d| > 1 ==> d[0] != '0')
    requires LeadingDigits(d, 10) == d && DigitsValue(d, 10) == v
    ensures ParseUnsigned(d) == Some(v)
  {
    assert !(|d| >= 2 && d[0] == '0');
  }

  lemma ParseNegative(d: string, v: nat)
    requires ParseUnsigned(d) == Some(v)
    ensures ParseInt("-" + d) == Some(-(v as int))
  {
    var t := "-" + d;
    assert t[0] == '-' && t[1..] == d;
    TrimStartStop(t);
  }

  /** `parseInt(String(n))` gives `n` back for every integer `n`. */
  lemma IntStringRoundTrip(n: int)
    ensures ParseInt(IntToString(n)) == Some(n)
  {
    var m: nat := if n < 0 then -n else n;
    DecimalRoundTrip(m);
    ParseDigits(NatToString(m), m);
  }
}
