/**
 * String helpers with the semantics of the JavaScript built-ins the bot uses:
 * `trim`, the regex class `\s`, `includes`, `replace` with a string pattern,
 * `split`/`join` on one character, number-to-string conversion, `padStart`
 * and `parseInt` without a radix. Strings are sequences of code points.
 */
module Text {
  import opened Wrappers

  // ---------------------------------------------------------------------------
  // White space and trimming
  // ---------------------------------------------------------------------------

  /** The white-space and line-terminator characters of ECMAScript: what
      `String.prototype.trim` strips and what the regex class `\s` matches. */
  predicate IsWhitespace(c: char) {
    ('\t' <= c <= '\r') || c == ' ' || c == '\U{00A0}' || c == '\U{1680}'
    || ('\U{2000}' <= c <= '\U{200A}') || c == '\U{2028}' || c == '\U{2029}'
    || c == '\U{202F}' || c == '\U{205F}' || c == '\U{3000}' || c == '\U{FEFF}'
  }

  predicate NoWhitespace(s: string) {
    forall i :: 0 <= i < |s| ==> !IsWhitespace(s[i])
  }

  /** Drops the leading white space: the result is the suffix of `s` that
      starts at its first non-white-space character. */
  function TrimStart(s: string): (r: string)
    ensures |r| <= |s| && r == s[|s| - |r|..]
    ensures forall i :: 0 <= i < |s| - |r| ==> IsWhitespace(s[i])
    ensures r == [] || !IsWhitespace(r[0])
    decreases |s|
  {
    if s != [] && IsWhitespace(s[0]) then TrimStart(s[1..]) else s
  }

  /** Drops the trailing white space. */
  function TrimEnd(s: string): (r: string)
    ensures |r| <= |s| && r == s[..|r|]
    ensures forall i :: |r| <= i < |s| ==> IsWhitespace(s[i])
    ensures r == [] || !IsWhitespace(r[|r| - 1])
    decreases |s|
  {
    if s != [] && IsWhitespace(s[|s| - 1]) then TrimEnd(s[..|s| - 1]) else s
  }

  /** `s.trim()`. */
  function Trim(s: string): (r: string)
    ensures |r| <= |s|
    ensures r == [] || (!IsWhitespace(r[0]) && !IsWhitespace(r[|r| - 1]))
    ensures r == [] ==> forall i :: 0 <= i < |s| ==> IsWhitespace(s[i])
  {
    TrimEnd(TrimStart(s))
  }

  /** A string without white space is its own trim. */
  lemma TrimWithoutWhitespace(s: string)
    requires NoWhitespace(s)
    ensures Trim(s) == s
  {
    assert s == [] || !IsWhitespace(s[0]);
    assert s == [] || !IsWhitespace(s[|s| - 1]);
    TrimStartPadded([], s);
    assert [] + s == s;
    TrimEndPadded(s, []);
    assert s + [] == s;
  }

  predicate AllWhitespace(s: string) {
    forall i :: 0 <= i < |s| ==> IsWhitespace(s[i])
  }

  /** Leading white space in front of a string that does not start with white
      space is exactly what `TrimStart` removes. */
  lemma {:induction false} TrimStartPadded(p: string, s: string)
    requires AllWhitespace(p)
    requires s == [] || !IsWhitespace(s[0])
    ensures TrimStart(p + s) == s
    decreases |p|
  {
    if p != [] {
      assert (p + s)[1..] == p[1..] + s;
      TrimStartPadded(p[1..], s);
    } else {
      assert p + s == s;
    }
  }

  /** Trailing white space after a string that does not end with white space
      is exactly what `TrimEnd` removes. */
  lemma {:induction false} TrimEndPadded(s: string, p: string)
    requires AllWhitespace(p)
    requires s == [] || !IsWhitespace(s[|s| - 1])
    ensures TrimEnd(s + p) == s
    decreases |p|
  {
    if p != [] {
      assert (s + p)[..|s + p| - 1] == s + p[..|p| - 1];
      TrimEndPadded(s, p[..|p| - 1]);
    } else {
      assert s + p == s;
    }
  }

  /** `trim` gives back a string without surrounding white space from any
      padding of it. */
  lemma TrimPadded(p1: string, s: string, p2: string)
    requires AllWhitespace(p1) && AllWhitespace(p2)
    requires s == [] || (!IsWhitespace(s[0]) && !IsWhitespace(s[|s| - 1]))
    ensures Trim(p1 + s + p2) == s
  {
    if s == [] {
      assert p1 + s + p2 == (p1 + p2) + [];
      TrimStartPadded(p1 + p2, []);
    } else {
      var t := p1 + s + p2;
      assert t == p1 + (s + p2);
      TrimStartPadded(p1, s + p2);
      assert TrimStart(t) == s + p2;
      TrimEndPadded(s, p2);
      assert Trim(t) == TrimEnd(s + p2);
    }
  }

  // ---------------------------------------------------------------------------
  // Searching and replacing
  // ---------------------------------------------------------------------------

  /** `t` occurs in `s` starting at position `i`. */
  predicate OccursAt(s: string, t: string, i: int) {
    0 <= i && i + |t| <= |s| && s[i..i + |t|] == t
  }

  lemma OccursAtTail(s: string, t: string, i: int)
    requires s != [] && i >= 1
    ensures OccursAt(s, t, i) <==> OccursAt(s[1..], t, i - 1)
  {
    if i + |t| <= |s| {
      var a, b := s[i..i + |t|], s[1..][i - 1..i - 1 + |t|];
      forall k | 0 <= k < |t| ensures a[k] == b[k] {
        assert a[k] == s[i + k] && b[k] == s[1..][i - 1 + k];
      }
      assert a == b;
    }
  }

  /** `s.indexOf(t)`: the first position where `t` occurs in `s`, if any. */
  function IndexOf(s: string, t: string): (r: Option<nat>)
    ensures r.Some? ==> OccursAt(s, t, r.value)
    ensures r.Some? ==> forall i :: 0 <= i < r.value ==> !OccursAt(s, t, i)
    ensures r.None? ==> forall i :: !OccursAt(s, t, i)
    decreases |s|
  {
    if |s| < |t| then None
    else if s[..|t|] == t then Some(0)
    else
      var rest := s[1..];
      match IndexOf(rest, t)
      case None =>
        assert !OccursAt(s, t, 0);
        forall i | i >= 1 ensures !OccursAt(s, t, i) {
          OccursAtTail(s, t, i);
        }
        None
      case Some(i) =>
        OccursAtTail(s, t, i + 1);
        forall j | 1 <= j < i + 1 ensures !OccursAt(s, t, j) {
          OccursAtTail(s, t, j);
        }
        Some(i + 1)
  }

  /** `s.includes(t)`. */
  predicate Includes(s: string, t: string) {
    IndexOf(s, t).Some?
  }

  /** `s.replace(t, r)` with a string pattern: only the first occurrence is
      replaced, and `s` is returned unchanged when `t` does not occur. */
  function ReplaceFirst(s: string, t: string, r: string): string {
    match IndexOf(s, t)
    case None => s
    case Some(i) => s[..i] + r + s[i + |t|..]
  }

  /** Removing a prefix with `replace(prefix, '')` gives back what followed it. */
  lemma StripPrefix(prefix: string, rest: string)
    ensures IndexOf(prefix + rest, prefix) == Some(0)
    ensures ReplaceFirst(prefix + rest, prefix, "") == rest
  {
    assert (prefix + rest)[..|prefix|] == prefix;
    assert (prefix + rest)[|prefix|..] == rest;
  }

  /** A string that contains `t` at the front includes it. */
  lemma IncludesPrefixOf(t: string, u: string, rest: string)
    requires |t| <= |u| && u[..|t|] == t
    ensures Includes(u + rest, t)
  {
    assert (u + rest)[..|t|] == t;
  }

  // ---------------------------------------------------------------------------
  // Decimal digits
  // ---------------------------------------------------------------------------

  predicate IsDigit(c: char) {
    '0' <= c <= '9'
  }

  predicate AllDigits(s: string) {
    forall i :: 0 <= i < |s| ==> IsDigit(s[i])
  }

  function DigitChar(d: nat): (c: char)
    requires d < 10
    ensures IsDigit(c)
  {
    ('0' as int + d) as char
  }

  function DigitValue(c: char): (d: nat)
    requires IsDigit(c)
    ensures d < 10 && DigitChar(d) == c
  {
    c as int - '0' as int
  }

  /** The number written by a string of decimal digits (leading zeros allowed). */
  function DigitsValue(s: string): nat
    requires AllDigits(s)
    decreases |s|
  {
    if s == [] then 0 else DigitsValue(s[..|s| - 1]) * 10 + DigitValue(s[|s| - 1])
  }

  /** `String(n)` for a non-negative integer: its shortest decimal numeral. */
  function NatToString(n: nat): (r: string)
    ensures |r| >= 1 && AllDigits(r) && NoWhitespace(r)
    ensures (r[0] == '0') <==> n == 0
    ensures n == 0 ==> r == "0"
    decreases n
  {
    if n < 10 then [DigitChar(n)] else NatToString(n / 10) + [DigitChar(n % 10)]
  }

  /** The numeral reads back as the number it was made from. */
  lemma {:induction false} NatToStringValue(n: nat)
    ensures DigitsValue(NatToString(n)) == n
  {
    var r := NatToString(n);
    if n >= 10 {
      NatToStringValue(n / 10);
      assert r[..|r| - 1] == NatToString(n / 10);
    }
  }

  /** `String(i)` for any integer (a minus sign before negative numbers). */
  function IntToString(i: int): (r: string)
    ensures |r| >= 1
    ensures i >= 0 ==> r == NatToString(i)
    ensures i < 0 ==> r == "-" + NatToString(-i)
  {
    if i < 0 then "-" + NatToString(-i) else NatToString(i)
  }

  /** `s.padStart(w, '0')`. */
  function PadZeros(s: string, w: nat): (r: string)
    ensures |r| == if |s| >= w then |s| else w
    ensures r[|r| - |s|..] == s
    ensures forall i :: 0 <= i < |r| - |s| ==> r[i] == '0'
  {
    if |s| >= w then s else seq(w - |s|, _ => '0') + s
  }

  /** Leading zeros do not change the value of a numeral. */
  lemma {:induction false} LeadingZerosValue(z: nat, s: string)
    requires AllDigits(s)
    ensures AllDigits(seq(z, _ => '0') + s)
    ensures DigitsValue(seq(z, _ => '0') + s) == DigitsValue(s)
    decreases z, |s|
  {
    var p := seq(z, _ => '0') + s;
    if s == [] {
      assert p == seq(z, _ => '0');
      if z > 0 {
        assert p[..|p| - 1] == seq(z - 1, _ => '0') + [];
        LeadingZerosValue(z - 1, []);
      }
    } else {
      assert p[..|p| - 1] == seq(z, _ => '0') + s[..|s| - 1];
      LeadingZerosValue(z, s[..|s| - 1]);
    }
  }

  /** A number below 100 zero-padded to two places is a two-digit numeral
      that reads back as the number. */
  lemma TwoDigitPad(n: nat)
    requires n < 100
    ensures |PadZeros(NatToString(n), 2)| == 2
    ensures AllDigits(PadZeros(NatToString(n), 2))
    ensures DigitsValue(PadZeros(NatToString(n), 2)) == n
  {
    var s := NatToString(n);
    NatToStringValue(n);
    if n >= 10 {
      assert NatToString(n / 10) == [DigitChar(n / 10)];
      assert |s| == 2;
    } else {
      assert |s| == 1;
      LeadingZerosValue(1, s);
    }
  }

  /** The value of a two-digit numeral. */
  lemma TwoDigitsValue(s: string)
    requires |s| == 2 && AllDigits(s)
    ensures DigitsValue(s) == DigitValue(s[0]) * 10 + DigitValue(s[1])
  {
    var p := s[..1];
    assert p[..0] == [];
    assert DigitsValue(p) == DigitValue(p[0]);
  }

  /** 10 to the power `k`. */
  function Pow10(k: nat): (p: nat)
    ensures p >= 1
  {
    if k == 0 then 1 else 10 * Pow10(k - 1)
  }

  /** A number below 10^w is written with at most w digits. */
  lemma {:induction false} NatToStringWidth(n: nat, w: nat)
    requires w >= 1 && n < Pow10(w)
    ensures |NatToString(n)| <= w
    decreases w
  {
    if n >= 10 {
      assert w >= 2;
      assert 10 * (n / 10) <= n < 10 * Pow10(w - 1);
      NatToStringWidth(n / 10, w - 1);
    }
  }

  /** A numeral of w digits stands for a number below 10^w. */
  lemma {:induction false} DigitsBound(s: string)
    requires AllDigits(s)
    ensures DigitsValue(s) < Pow10(|s|)
    decreases |s|
  {
    if s != [] {
      var k := |s| - 1;
      DigitsBound(s[..k]);
      assert DigitsValue(s[..k]) + 1 <= Pow10(k);
      assert (DigitsValue(s[..k]) + 1) * 10 <= Pow10(k) * 10;
    }
  }

  /** `n` zero-padded to w places, for n below 10^w, is a numeral of exactly
      w digits that reads back as n. */
  lemma PadWidth(n: nat, w: nat)
    requires w >= 1 && n < Pow10(w)
    ensures |PadZeros(NatToString(n), w)| == w
    ensures AllDigits(PadZeros(NatToString(n), w))
    ensures DigitsValue(PadZeros(NatToString(n), w)) == n
  {
    var s := NatToString(n);
    NatToStringWidth(n, w);
    NatToStringValue(n);
    LeadingZerosValue(w - |s|, s);
    if |s| == w {
      assert seq(0, _ => '0') + s == s;
    }
  }

  /** The last digit and the rest of a numeral are determined by its value. */
  lemma LastDigitSplit(x: nat, d: nat, y: nat, e: nat)
    requires d < 10 && e < 10 && x * 10 + d == y * 10 + e
    ensures x == y && d == e
  {
    assert (x - y) * 10 == e - d;
  }

  /** Two numerals of the same width and the same value are the same string. */
  lemma {:induction false} DigitsInjective(a: string, b: string)
    requires AllDigits(a) && AllDigits(b) && |a| == |b|
    requires DigitsValue(a) == DigitsValue(b)
    ensures a == b
    decreases |a|
  {
    if a != [] {
      var k := |a| - 1;
      LastDigitSplit(DigitsValue(a[..k]), DigitValue(a[k]), DigitsValue(b[..k]), DigitValue(b[k]));
      DigitsInjective(a[..k], b[..k]);
      assert a == a[..k] + [a[k]] && b == b[..k] + [b[k]];
    }
  }

  /** A non-empty numeral is the zero-padded rendering of its own value at its
      own width: reading and rendering are inverse on fixed-width fields. */
  lemma PadCanonical(s: string)
    requires AllDigits(s) && s != []
    ensures PadZeros(NatToString(DigitsValue(s)), |s|) == s
  {
    DigitsBound(s);
    PadWidth(DigitsValue(s), |s|);
    DigitsInjective(PadZeros(NatToString(DigitsValue(s)), |s|), s);
  }

  // ---------------------------------------------------------------------------
  // parseInt
  // ---------------------------------------------------------------------------

  /** The longest prefix of `s` made of characters satisfying `IsDigit`. */
  function LeadingDigits(s: string): (r: string)
    ensures |r| <= |s| && r == s[..|r|] && AllDigits(r)
    ensures |r| < |s| ==> !IsDigit(s[|r|])
    decreases |s|
  {
    if s != [] && IsDigit(s[0]) then [s[0]] + LeadingDigits(s[1..]) else []
  }

  predicate IsHexDigit(c: char) {
    IsDigit(c) || 'a' <= c <= 'f' || 'A' <= c <= 'F'
  }

  function HexDigitValue(c: char): (d: nat)
    requires IsHexDigit(c)
    ensures d < 16
  {
    if IsDigit(c) then DigitValue(c)
    else if 'a' <= c <= 'f' then c as int - 'a' as int + 10
    else c as int - 'A' as int + 10
  }

  /** The longest prefix of `s` made of hexadecimal digits. */
  function LeadingHexDigits(s: string): (r: string)
    ensures |r| <= |s| && r == s[..|r|]
    ensures forall i :: 0 <= i < |r| ==> IsHexDigit(r[i])
    ensures |r| < |s| ==> !IsHexDigit(s[|r|])
    decreases |s|
  {
    if s != [] && IsHexDigit(s[0]) then [s[0]] + LeadingHexDigits(s[1..]) else []
  }

  function HexValue(s: string): nat
    requires forall i :: 0 <= i < |s| ==> IsHexDigit(s[i])
    decreases |s|
  {
    if s == [] then 0 else HexValue(s[..|s| - 1]) * 16 + HexDigitValue(s[|s| - 1])
  }

  /** `parseInt(s)` with no radix: leading white space is skipped, one sign is
      read, a `0x`/`0X` prefix switches to base 16, and the longest run of digits
      that follows is the value; no digits at all is `NaN` (here `None`).
      Rounding of very large values to floating point is not modelled. */
  function ParseInt(s: string): Option<int> {
    var u := TrimStart(s);
    var negative := u != [] && u[0] == '-';
    var v := if u != [] && (u[0] == '-' || u[0] == '+') then u[1..] else u;
    if |v| >= 2 && v[0] == '0' && (v[1] == 'x' || v[1] == 'X') then
      var h := LeadingHexDigits(v[2..]);
      var value: int := if negative then -(HexValue(h) as int) else HexValue(h);
      if h == [] then None else Some(value)
    else
      var d := LeadingDigits(v);
      var value: int := if negative then -(DigitsValue(d) as int) else DigitsValue(d);
      if d == [] then None else Some(value)
  }

  /** A string of digits is entirely its own leading digit run. */
  lemma {:induction false} LeadingDigitsOfDigits(s: string)
    requires AllDigits(s)
    ensures LeadingDigits(s) == s
    decreases |s|
  {
    if s != [] {
      LeadingDigitsOfDigits(s[1..]);
    }
  }

  /** The digit run of a numeral followed by a non-digit is the numeral. */
  lemma {:induction false} LeadingDigitsStop(s: string, rest: string)
    requires AllDigits(s)
    requires rest == [] || !IsDigit(rest[0])
    ensures LeadingDigits(s + rest) == s
    decreases |s|
  {
    if s != [] {
      assert (s + rest)[1..] == s[1..] + rest;
      LeadingDigitsStop(s[1..], rest);
    } else {
      assert s + rest == rest;
    }
  }

  /** `parseInt` reads a decimal numeral back from the front of a string
      when the next character cannot continue it. */
  lemma ParseIntOfDecimalThen(n: nat, rest: string)
    requires rest == [] || (!IsDigit(rest[0]) && rest[0] != 'x' && rest[0] != 'X')
    ensures ParseInt(NatToString(n) + rest) == Some(n)
  {
    var s := NatToString(n) + rest;
    assert s[0] == NatToString(n)[0];
    assert TrimStart(s) == s;
    if |NatToString(n)| == 1 && rest != [] {
      assert s[1] == rest[0];
    }
    LeadingDigitsStop(NatToString(n), rest);
    NatToStringValue(n);
  }

  /** `parseInt(String(n)) == n`. */
  lemma ParseIntOfDecimal(n: nat)
    ensures ParseInt(NatToString(n)) == Some(n)
  {
    var s := NatToString(n);
    assert TrimStart(s) == s;
    LeadingDigitsOfDigits(s);
    NatToStringValue(n);
  }

  // ---------------------------------------------------------------------------
  // split and join on one separator character
  // ---------------------------------------------------------------------------

  /** `s.split(sep)`: the pieces between separators, always at least one. */
  function Split(s: string, sep: char): (r: seq<string>)
    ensures |r| >= 1
    ensures forall i :: 0 <= i < |r| ==> sep !in r[i]
    decreases |s|
  {
    if s == [] then [[]]
    else
      var rest := Split(s[1..], sep);
      if s[0] == sep then [[]] + rest else [[s[0]] + rest[0]] + rest[1..]
  }

  /** `parts.join(sep)`. */
  function Join(parts: seq<string>, sep: char): string
    requires |parts| >= 1
    decreases |parts|
  {
    if |parts| == 1 then parts[0] else parts[0] + [sep] + Join(parts[1..], sep)
  }

  /** Splitting and joining again gives back the string. */
  lemma {:induction false} JoinSplit(s: string, sep: char)
    ensures Join(Split(s, sep), sep) == s
    decreases |s|
  {
    if s != [] {
      var rest := Split(s[1..], sep);
      JoinSplit(s[1..], sep);
      if s[0] == sep {
        assert Split(s, sep) == [[]] + rest;
        assert ([[]] + rest)[1..] == rest;
      } else {
        var r := [[s[0]] + rest[0]] + rest[1..];
        assert Split(s, sep) == r;
        if |rest| > 1 {
          assert r[1..] == rest[1..];
          assert Join(rest, sep) == rest[0] + [sep] + Join(rest[1..], sep);
        }
      }
    }
  }

  /** A piece without the separator followed by a separator is split off whole. */
  lemma {:induction false} SplitPiece(p: string, rest: string, sep: char)
    requires sep !in p
    ensures Split(p + [sep] + rest, sep) == [p] + Split(rest, sep)
    ensures Split(p, sep) == [p]
    decreases |p|
  {
    if p == [] {
      assert ([sep] + rest)[1..] == rest;
      assert [] + [sep] + rest == [sep] + rest;
    } else {
      SplitPiece(p[1..], rest, sep);
      assert (p + [sep] + rest)[1..] == p[1..] + [sep] + rest;
      assert [p[0]] + p[1..] == p;
    }
  }

  /** Joining pieces that do not contain the separator and splitting again
      gives back the pieces. */
  lemma {:induction false} SplitJoin(parts: seq<string>, sep: char)
    requires |parts| >= 1
    requires forall i :: 0 <= i < |parts| ==> sep !in parts[i]
    ensures Split(Join(parts, sep), sep) == parts
    decreases |parts|
  {
    if |parts| == 1 {
      SplitPiece(parts[0], [], sep);
    } else {
      SplitJoin(parts[1..], sep);
      SplitPiece(parts[0], Join(parts[1..], sep), sep);
      assert [parts[0]] + parts[1..] == parts;
    }
  }
}
