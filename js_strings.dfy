/**
 * The parts of JavaScript's String and Number built-ins that the dashboard relies on,
 * on strings modelled as sequences of chars: trim, ASCII toLowerCase, includes, the
 * single-character split and join, decimal printing of integers and a decimal parseFloat.
 */
module JsStrings {
  import opened Wrappers

  /** The characters String.prototype.trim removes (ECMAScript WhiteSpace and LineTerminator). */
  predicate IsJsWhitespace(c: char) {
    c == '\t' || c == '\n' || c == '\U{000B}' || c == '\U{000C}' || c == '\r' || c == ' '
    || c == '\U{00A0}' || c == '\U{1680}' || ('\U{2000}' <= c <= '\U{200A}')
    || c == '\U{2028}' || c == '\U{2029}' || c == '\U{202F}' || c == '\U{205F}'
    || c == '\U{3000}' || c == '\U{FEFF}'
  }

  predicate AllWhitespace(s: string) {
    forall i :: 0 <= i < |s| ==> IsJsWhitespace(s[i])
  }

  /** Leading whitespace removed: what remains is a suffix of `s` that starts with a non-space. */
  function TrimStart(s: string): (r: string)
    ensures |r| <= |s| && r == s[|s| - |r|..]
    ensures r == [] || !IsJsWhitespace(r[0])
    ensures AllWhitespace(s[..|s| - |r|])
    decreases |s|
  {
    if s != [] && IsJsWhitespace(s[0]) then TrimStart(s[1..]) else s
  }

  /** Trailing whitespace removed: what remains is a prefix of `s` that ends with a non-space. */
  function TrimEnd(s: string): (r: string)
    ensures |r| <= |s| && r == s[..|r|]
    ensures r == [] || !IsJsWhitespace(r[|r| - 1])
    ensures AllWhitespace(s[|r|..])
    decreases |s|
  {
    if s != [] && IsJsWhitespace(s[|s| - 1]) then TrimEnd(s[..|s| - 1]) else s
  }

  /** String.prototype.trim. */
  function Trim(s: string): (r: string)
    ensures |r| <= |s|
    ensures r == [] <==> AllWhitespace(s)
    ensures r != [] ==> !IsJsWhitespace(r[0]) && !IsJsWhitespace(r[|r| - 1])
  {
    var t := TrimStart(s);
    assert s == s[..|s| - |t|] + t;
    TrimEnd(t)
  }

  /** A string with no whitespace at either end is its own trim. */
  lemma TrimIdentity(s: string)
    requires s == [] || (!IsJsWhitespace(s[0]) && !IsJsWhitespace(s[|s| - 1]))
    ensures Trim(s) == s
  {
  }

  /** String.prototype.toLowerCase, restricted to ASCII letters. */
  function LowerChar(c: char): (d: char)
    ensures 'A' <= c <= 'Z' ==> 'a' <= d <= 'z'
    ensures !('A' <= c <= 'Z') ==> d == c
  {
    if 'A' <= c <= 'Z' then (c as int + 32) as char else c
  }

  function ToLowerCase(s: string): (r: string)
    ensures |r| == |s|
    ensures forall i :: 0 <= i < |s| ==> r[i] == LowerChar(s[i])
  {
    if s == [] then [] else [LowerChar(s[0])] + ToLowerCase(s[1..])
  }

  /** `sub` occurs in `s` at position `i`. */
  predicate OccursAt(s: string, sub: string, i: int) {
    0 <= i && i + |sub| <= |s| && s[i..i + |sub|] == sub
  }

  /** String.prototype.includes: tries every starting position from the left. */
  function Includes(s: string, sub: string): (r: bool)
    ensures r <==> exists i :: OccursAt(s, sub, i)
    decreases |s|
  {
    if |sub| > |s| then false
    else if s[..|sub|] == sub then assert OccursAt(s, sub, 0); true
    else
      var r := Includes(s[1..], sub);
      assert forall i :: OccursAt(s[1..], sub, i) <==> OccursAt(s, sub, i + 1) by {
        forall i ensures OccursAt(s[1..], sub, i) <==> OccursAt(s, sub, i + 1) {
          if 0 <= i && i + 1 + |sub| <= |s| {
            assert s[1..][i..i + |sub|] == s[i + 1..i + 1 + |sub|];
          }
        }
      }
      assert !OccursAt(s, sub, 0);
      assert (exists i :: OccursAt(s, sub, i)) ==> exists i :: OccursAt(s[1..], sub, i) by {
        if i :| OccursAt(s, sub, i) {
          assert i != 0;
          assert OccursAt(s[1..], sub, i - 1);
        }
      }
      r
  }

  /** Every string includes the empty string. */
  lemma IncludesEmpty(s: string)
    ensures Includes(s, "")
  {
    assert OccursAt(s, "", 0);
  }

  predicate StartsWith(s: string, prefix: string) {
    |prefix| <= |s| && s[..|prefix|] == prefix
  }

  predicate EndsWith(s: string, suffix: string) {
    |suffix| <= |s| && s[|s| - |suffix|..] == suffix
  }

  /** `s.replace(/suffix$/, '')` for a literal suffix: removes one occurrence at the very end. */
  function StripSuffix(s: string, suffix: string): (r: string)
    ensures EndsWith(s, suffix) ==> r + suffix == s
    ensures !EndsWith(s, suffix) ==> r == s
  {
    if EndsWith(s, suffix) then s[..|s| - |suffix|] else s
  }

  /** `s.replace(/[...]/g, '')`: removes every character of the class, keeps the rest in order. */
  function RemoveWhere(s: string, drop: char -> bool): (r: string)
    ensures |r| <= |s|
    ensures forall c :: c in r <==> c in s && !drop(c)
    decreases |s|
  {
    if s == [] then []
    else if drop(s[0]) then RemoveWhere(s[1..], drop)
    else [s[0]] + RemoveWhere(s[1..], drop)
  }

  /** A string none of whose characters is in the class is unchanged by the replace. */
  lemma {:induction false} RemoveWhereNone(s: string, drop: char -> bool)
    requires forall c :: c in s ==> !drop(c)
    ensures RemoveWhere(s, drop) == s
    decreases |s|
  {
    if s != [] {
      RemoveWhereNone(s[1..], drop);
    }
  }

  /** The replace works piece by piece. */
  lemma {:induction false} RemoveWhereAppend(s: string, t: string, drop: char -> bool)
    ensures RemoveWhere(s + t, drop) == RemoveWhere(s, drop) + RemoveWhere(t, drop)
    decreases |s|
  {
    if s == [] {
      assert s + t == t;
    } else {
      assert (s + t)[1..] == s[1..] + t;
      RemoveWhereAppend(s[1..], t, drop);
    }
  }

  /** Index of the first occurrence of `c`. */
  function FirstIndexOf(s: string, c: char): (i: nat)
    requires c in s
    ensures i < |s| && s[i] == c && c !in s[..i]
  {
    if s[0] == c then 0 else 1 + FirstIndexOf(s[1..], c)
  }

  /** String.prototype.split with a one-character separator. */
  function Split(s: string, sep: char): (parts: seq<string>)
    ensures |parts| >= 1
    ensures forall i :: 0 <= i < |parts| ==> sep !in parts[i]
    decreases |s|
  {
    if sep !in s then [s]
    else
      var i := FirstIndexOf(s, sep);
      [s[..i]] + Split(s[i + 1..], sep)
  }

  /** Array.prototype.join with a one-character separator; the empty array joins to "". */
  function Join(parts: seq<string>, sep: char): string
  {
    if parts == [] then ""
    else if |parts| == 1 then parts[0]
    else parts[0] + [sep] + Join(parts[1..], sep)
  }

  /** Joining the pieces of a split gives back the original string. */
  lemma {:induction false} JoinSplit(s: string, sep: char)
    ensures Join(Split(s, sep), sep) == s
    decreases |s|
  {
    if sep in s {
      var i := FirstIndexOf(s, sep);
      JoinSplit(s[i + 1..], sep);
      assert s == s[..i] + [sep] + s[i + 1..];
    }
  }

  /** The first separator of `p + [sep] + rest`, when `p` has none, is the one after `p`. */
  lemma {:induction false} FirstIndexAfterPiece(p: string, rest: string, sep: char)
    requires sep !in p
    ensures FirstIndexOf(p + [sep] + rest, sep) == |p|
    decreases |p|
  {
    if p != [] {
      assert (p + [sep] + rest)[1..] == p[1..] + [sep] + rest;
      FirstIndexAfterPiece(p[1..], rest, sep);
    }
  }

  /** Splitting a join of separator-free pieces gives back the pieces. */
  lemma {:induction false} SplitJoin(parts: seq<string>, sep: char)
    requires |parts| >= 1
    requires forall i :: 0 <= i < |parts| ==> sep !in parts[i]
    ensures Split(Join(parts, sep), sep) == parts
    decreases |parts|
  {
    if |parts| > 1 {
      var rest := Join(parts[1..], sep);
      var s := Join(parts, sep);
      assert s == parts[0] + [sep] + rest;
      FirstIndexAfterPiece(parts[0], rest, sep);
      assert s[..|parts[0]|] == parts[0];
      assert s[|parts[0]| + 1..] == rest;
      SplitJoin(parts[1..], sep);
    }
  }

  // ---- Decimal digits -------------------------------------------------------

  predicate IsDigit(c: char) {
    '0' <= c <= '9'
  }

  predicate AllDigits(s: string) {
    forall i :: 0 <= i < |s| ==> IsDigit(s[i])
  }

  function DigitChar(d: nat): (c: char)
    requires d < 10
    ensures IsDigit(c) && c as int - '0' as int == d
  {
    ('0' as int + d) as char
  }

  /** The value of a string of decimal digits; the empty string is 0. */
  function DigitsValue(s: string): nat
    requires AllDigits(s)
  {
    if s == [] then 0 else 10 * DigitsValue(s[..|s| - 1]) + (s[|s| - 1] as int - '0' as int)
  }

  /** Number.prototype.toString for a non-negative integer: decimal, without leading zeros. */
  function NatToString(n: nat): (r: string)
    ensures |r| >= 1 && AllDigits(r)
  {
    if n < 10 then [DigitChar(n)] else NatToString(n / 10) + [DigitChar(n % 10)]
  }

  /** Number.prototype.toString for an integer. */
  function IntToString(n: int): (r: string)
    ensures |r| >= 1
  {
    if n < 0 then "-" + NatToString(-n) else NatToString(n)
  }

  /** Reading back the printed digits gives the number. */
  lemma {:induction false} NatToStringValue(n: nat)
    ensures DigitsValue(NatToString(n)) == n
  {
    if n >= 10 {
      NatToStringValue(n / 10);
      var s := NatToString(n);
      assert s[..|s| - 1] == NatToString(n / 10);
    }
  }

  /** Different numbers print differently. */
  lemma NatToStringInjective(a: nat, b: nat)
    requires NatToString(a) == NatToString(b)
    ensures a == b
  {
    NatToStringValue(a);
    NatToStringValue(b);
  }

  // ---- parseFloat -----------------------------------------------------------

  function Pow10(n: nat): (r: nat)
    ensures r >= 1
  {
    if n == 0 then 1 else 10 * Pow10(n - 1)
  }

  /** Length of the run of digits at the start of `s`. */
  function DigitRun(s: string): (n: nat)
    ensures n <= |s| && AllDigits(s[..n])
    ensures n < |s| ==> !IsDigit(s[n])
    decreases |s|
  {
    if s != [] && IsDigit(s[0]) then
      var n := 1 + DigitRun(s[1..]);
      assert s[..n] == [s[0]] + s[1..][..n - 1];
      n
    else 0
  }

  /** The exponent part `e[+-]digits` at the start of `s`, if it is complete. */
  function ExponentPart(s: string): Option<int>
  {
    if |s| >= 2 && (s[0] == 'e' || s[0] == 'E') then
      var signed := s[1] == '+' || s[1] == '-';
      var digits := if signed then s[2..] else s[1..];
      var n := DigitRun(digits);
      if n == 0 then None
      else
        var v: int := DigitsValue(digits[..n]);
        Some(if s[1] == '-' then -v else v)
    else None
  }

  function ScaleBy10(x: real, e: int): real
  {
    if e >= 0 then x * (Pow10(e) as real) else x / (Pow10(-e) as real)
  }

  /** The unsigned decimal literal at the start of `body`; None when it has no digit. */
  function ParseUnsigned(body: string): Option<real>
  {
    var intLen := DigitRun(body);
    var afterInt := body[intLen..];
    var hasPoint := |afterInt| > 0 && afterInt[0] == '.';
    var fracLen := if hasPoint then DigitRun(afterInt[1..]) else 0;
    if intLen == 0 && fracLen == 0 then None
    else
      var whole := DigitsValue(body[..intLen]) as real;
      var frac := if hasPoint then DigitsValue(afterInt[1..][..fracLen]) as real / (Pow10(fracLen) as real) else 0.0;
      var rest := if hasPoint then afterInt[1 + fracLen..] else afterInt;
      match ExponentPart(rest)
      case Some(e) => Some(ScaleBy10(whole + frac, e))
      case None => Some(whole + frac)
  }

  /**
   * parseFloat: skips leading whitespace, reads an optional sign and then the longest
   * prefix that is a decimal literal (digits, optional fraction, optional exponent).
   * None stands for NaN: there is no digit before or after the point.
   */
  function ParseFloat(s: string): Option<real>
  {
    var t := TrimStart(s);
    if |t| > 0 && (t[0] == '+' || t[0] == '-') then
      match ParseUnsigned(t[1..])
      case Some(x) => Some(if t[0] == '-' then -x else x)
      case None => None
    else ParseUnsigned(t)
  }

  /** An all-digit string is read as its decimal value. */
  lemma ParseUnsignedDigits(d: string)
    requires |d| >= 1 && AllDigits(d)
    ensures ParseUnsigned(d) == Some(DigitsValue(d) as real)
  {
    DigitRunAll(d);
    assert d[..|d|] == d;
    assert d[|d|..] == [];
  }

  /** A string that starts with a non-space is untouched by the whitespace skip. */
  lemma TrimStartKeeps(s: string)
    requires s != [] && !IsJsWhitespace(s[0])
    ensures TrimStart(s) == s
  {
  }

  /** parseFloat reads back a printed non-negative integer exactly. */
  lemma ParseFloatOfNat(m: nat)
    ensures ParseFloat(NatToString(m)) == Some(m as real)
  {
    var d := NatToString(m);
    NatToStringValue(m);
    ParseUnsignedDigits(d);
    DigitsNotSign(d);
  }

  /** On a string that starts with a digit, parseFloat is the unsigned read. */
  lemma DigitsNotSign(d: string)
    requires |d| >= 1 && AllDigits(d)
    ensures ParseFloat(d) == ParseUnsigned(d)
  {
    assert IsDigit(d[0]);
    TrimStartKeeps(d);
  }

  /** parseFloat reads back a printed integer exactly. */
  lemma ParseFloatOfInt(n: int)
    ensures ParseFloat(IntToString(n)) == Some(n as real)
  {
    if n < 0 {
      var d := NatToString(-n);
      NatToStringValue(-n);
      ParseUnsignedDigits(d);
      var s := IntToString(n);
      assert s == "-" + d && s[0] == '-' && s[1..] == d;
      TrimStartKeeps(s);
    } else {
      ParseFloatOfNat(n);
    }
  }

  lemma {:induction false} DigitRunAll(s: string)
    requires AllDigits(s)
    ensures DigitRun(s) == |s|
    decreases |s|
  {
    if s != [] {
      DigitRunAll(s[1..]);
    }
  }
}
