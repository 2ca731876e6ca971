/** The parts of JavaScript's string library that the demos rely on: white space and
    `trim()`, `toLowerCase()` (on the ranges the demos care about), `includes()`,
    `split()`/`join()` on one separator character, and the decimal conversions
    `String(n)`, `parseInt(s, 10)`, `parseInt(s)` and `parseFloat(s)`. */
module Text {

  import opened Seqs

  /** JavaScript's WhiteSpace and LineTerminator characters: the set `trim()` strips and `\s` matches. */
  predicate IsSpace(c: char)
  {
    c == '\t' || c == '\n' || c == '\U{000B}' || c == '\U{000C}' || c == '\r' || c == ' ' ||
    c == '\U{00A0}' || c == '\U{1680}' || ('\U{2000}' <= c <= '\U{200A}') ||
    c == '\U{2028}' || c == '\U{2029}' || c == '\U{202F}' || c == '\U{205F}' ||
    c == '\U{3000}' || c == '\U{FEFF}'
  }

  predicate AllSpace(s: string)
  {
    forall i :: 0 <= i < |s| ==> IsSpace(s[i])
  }

  /** The number of white-space characters at the start of `s`. */
  function LeadingSpaces(s: string): (n: nat)
    ensures n <= |s|
    ensures forall i :: 0 <= i < n ==> IsSpace(s[i])
    ensures n < |s| ==> !IsSpace(s[n])
    decreases |s|
  {
    if s != [] && IsSpace(s[0]) then 1 + LeadingSpaces(s[1..]) else 0
  }

  /** The number of white-space characters at the end of `s`. */
  function TrailingSpaces(s: string): (n: nat)
    ensures n <= |s|
    ensures forall i :: |s| - n <= i < |s| ==> IsSpace(s[i])
    ensures n < |s| ==> !IsSpace(s[|s| - 1 - n])
    decreases |s|
  {
    if s != [] && IsSpace(s[|s| - 1]) then 1 + TrailingSpaces(s[..|s| - 1]) else 0
  }

  /** `s.trim()`: `s` without its leading and trailing white space. */
  function Trim(s: string): (r: string)
    ensures r == [] <==> AllSpace(s)
    ensures r != [] ==> !IsSpace(r[0]) && !IsSpace(r[|r| - 1])
    ensures forall i :: 0 <= i < |r| ==> r[i] in s
    ensures exists a: nat, b: nat :: Strips(s, a, b, r)
  {
    var a := LeadingSpaces(s);
    if a == |s| then
      assert Strips(s, a, 0, []);
      []
    else
      var b := TrailingSpaces(s);
      assert !IsSpace(s[a]);
      assert Strips(s, a, b, s[a..|s| - b]);
      s[a..|s| - b]
  }

  /** `r` is `s` with `a` white-space characters removed from its start and `b` from its end. */
  predicate Strips(s: string, a: nat, b: nat, r: string)
  {
    a + b <= |s| && r == s[a..|s| - b] && AllSpace(s[..a]) && AllSpace(s[|s| - b..])
  }

  /** Text that neither starts nor ends with white space is left as it is. */
  lemma TrimUnspaced(s: string)
    requires s != [] && !IsSpace(s[0]) && !IsSpace(s[|s| - 1])
    ensures Trim(s) == s
  {
    assert LeadingSpaces(s) == 0 && TrailingSpaces(s) == 0;
    assert s[0..|s|] == s;
  }

  /** Trimming twice is trimming once. */
  lemma TrimIdempotent(s: string)
    ensures Trim(Trim(s)) == Trim(s)
  {
    var r := Trim(s);
    if r != [] {
      TrimUnspaced(r);
    } else {
      assert LeadingSpaces(r) == 0;
    }
  }

  predicate IsAsciiUpper(c: char) { 'A' <= c <= 'Z' }

  /** Full-width Latin capital letters U+FF21..U+FF3A. */
  predicate IsWideUpper(c: char) { '\U{FF21}' <= c <= '\U{FF3A}' }

  /** `toLowerCase()` on one character, for ASCII and full-width Latin letters. */
  function LowerChar(c: char): char
  {
    if IsAsciiUpper(c) || IsWideUpper(c) then (c as int + 32) as char else c
  }

  /** `s.toLowerCase()`: the same length, each capital letter moved 32 code points up to its
      small letter, no capital letter left, every other character kept. */
  function ToLower(s: string): (r: string)
    ensures |r| == |s|
    ensures forall i :: 0 <= i < |r| ==> !IsAsciiUpper(r[i]) && !IsWideUpper(r[i])
    ensures forall i :: 0 <= i < |s| && !IsAsciiUpper(s[i]) && !IsWideUpper(s[i]) ==> r[i] == s[i]
    ensures forall i :: 0 <= i < |s| && (IsAsciiUpper(s[i]) || IsWideUpper(s[i])) ==> r[i] == (s[i] as int + 32) as char
  {
    seq(|s|, i requires 0 <= i < |s| => LowerChar(s[i]))
  }

  lemma {:induction false} ToLowerIdempotent(s: string)
    ensures ToLower(ToLower(s)) == ToLower(s)
  {
  }

  /** `text.includes(pat)`: `pat` occurs in `text` as a contiguous block. */
  predicate Contains(text: string, pat: string)
    decreases |text|
  {
    (|pat| <= |text| && text[..|pat|] == pat) || (text != [] && Contains(text[1..], pat))
  }

  lemma {:induction false} ContainsAt(text: string, pat: string, i: nat)
    requires i + |pat| <= |text| && text[i..i + |pat|] == pat
    ensures Contains(text, pat)
    decreases i
  {
    if i > 0 {
      assert text[1..][i - 1..i - 1 + |pat|] == text[i..i + |pat|];
      ContainsAt(text[1..], pat, i - 1);
    }
  }

  /** `s.split(sep)` for a one-character separator: never empty, and no piece holds `sep`. */
  function Split(s: string, sep: char): (parts: seq<string>)
    ensures |parts| >= 1
    ensures forall i :: 0 <= i < |parts| ==> sep !in parts[i]
    decreases |s|
  {
    if s == [] then [[]]
    else
      var rest := Split(s[1..], sep);
      if s[0] == sep then [[]] + rest else [[s[0]] + rest[0]] + rest[1..]
  }

  /** `parts.join(sep)`. */
  function Join(parts: seq<string>, sep: char): string
    decreases |parts|
  {
    if parts == [] then []
    else if |parts| == 1 then parts[0]
    else parts[0] + [sep] + Join(parts[1..], sep)
  }

  lemma {:induction false} SplitPiece(p: string, rest: string, sep: char)
    requires sep !in p
    ensures Split(p + [sep] + rest, sep) == [p] + Split(rest, sep)
    ensures Split(p, sep) == [p]
    decreases |p|
  {
    if p == [] {
      assert p + [sep] + rest == [sep] + rest;
      assert ([sep] + rest)[1..] == rest;
    } else {
      assert (p + [sep] + rest)[1..] == p[1..] + [sep] + rest;
      SplitPiece(p[1..], rest, sep);
      assert [p[0]] + p[1..] == p;
    }
  }

  /** Splitting a joined list gives the list back when no piece holds the separator. */
  lemma {:induction false} SplitJoin(parts: seq<string>, sep: char)
    requires |parts| >= 1
    requires forall i :: 0 <= i < |parts| ==> sep !in parts[i]
    ensures Split(Join(parts, sep), sep) == parts
    decreases |parts|
  {
    if |parts| == 1 {
      SplitPiece(parts[0], [], sep);
    } else {
      SplitJoin(parts[1..], sep);
      SplitPiece(parts[0], Join(parts[1..], sep), sep);
      assert [parts[0]] + parts[1..] == parts;
    }
  }

  /** Joining the pieces of a split gives the string back. */
  lemma {:induction false} JoinSplit(s: string, sep: char)
    ensures Join(Split(s, sep), sep) == s
    decreases |s|
  {
    if s != [] {
      JoinSplit(s[1..], sep);
      var rest := Split(s[1..], sep);
      if s[0] == sep {
        assert Split(s, sep) == [[]] + rest;
        assert ([[]] + rest)[1..] == rest;
      } else {
        assert Split(s, sep) == [[s[0]] + rest[0]] + rest[1..];
        if |rest| > 1 {
          assert Join(Split(s, sep), sep) == [s[0]] + rest[0] + [sep] + Join(rest[1..], sep);
          assert Join(rest, sep) == rest[0] + [sep] + Join(rest[1..], sep);
        }
      }
    }
  }

  // ---- decimal numbers ----

  predicate IsDigit(c: char) { '0' <= c <= '9' }

  predicate AllDigits(s: string) { forall i :: 0 <= i < |s| ==> IsDigit(s[i]) }

  function DigitChar(d: nat): (c: char)
    requires d < 10
    ensures IsDigit(c)
  {
    (48 + d) as char
  }

  /** The value of a run of decimal digits, most significant first. */
  function DigitsValue(s: string): nat
    requires AllDigits(s)
    decreases |s|
  {
    if s == [] then 0 else 10 * DigitsValue(s[..|s| - 1]) + (s[|s| - 1] as int - 48)
  }

  /** `String(n)` for a natural number: its shortest decimal digits, so only zero is written
      with a leading `0`. */
  function NatToString(n: nat): (r: string)
    ensures |r| >= 1 && AllDigits(r)
    ensures DigitsValue(r) == n
    ensures r[0] == '0' <==> n == 0
    ensures |r| == 1 || r[0] != '0'
    decreases n
  {
    if n < 10 then [DigitChar(n)]
    else
      var r := NatToString(n / 10) + [DigitChar(n % 10)];
      assert r[..|r| - 1] == NatToString(n / 10);
      r
  }

  /** `String(n)` for an integer. */
  function IntToString(n: int): (r: string)
    ensures |r| >= 1
    ensures forall i :: 0 <= i < |r| ==> IsDigit(r[i]) || (i == 0 && r[i] == '-')
  {
    if n < 0 then "-" + NatToString(-n) else NatToString(n)
  }

  /** The length of the run of digits at the start of `s`. */
  function DigitRun(s: string): (n: nat)
    ensures n <= |s|
    ensures forall i :: 0 <= i < n ==> IsDigit(s[i])
    ensures n < |s| ==> !IsDigit(s[n])
    decreases |s|
  {
    if s != [] && IsDigit(s[0]) then 1 + DigitRun(s[1..]) else 0
  }

  /** `parseInt(s, 10)`: leading white space is skipped, then an optional sign and the longest run
      of digits; `None` stands for `NaN` (no digit at all). A number is read exactly when a digit
      follows the white space and sign, and its magnitude is the value of the whole digit run. */
  function ParseInt(s: string): (r: Option<int>)
    ensures r.Some? <==> DigitRun(SignlessTail(s[LeadingSpaces(s)..])) > 0
    ensures r.Some? ==>
              var t := s[LeadingSpaces(s)..];
              var u := SignlessTail(t);
              DigitsValue(u[..DigitRun(u)]) == if t[0] == '-' then -r.value else r.value
  {
    var t := s[LeadingSpaces(s)..];
    var u := SignlessTail(t);
    var n := DigitRun(u);
    if n == 0 then None
    else
      var v: int := DigitsValue(u[..n]);
      Some(if t != [] && t[0] == '-' then -v else v)
  }

  predicate IsHexDigit(c: char) { IsDigit(c) || 'a' <= c <= 'f' || 'A' <= c <= 'F' }

  function HexDigitValue(c: char): (d: nat)
    requires IsHexDigit(c)
    ensures d < 16
  {
    if IsDigit(c) then c as int - 48 else if 'a' <= c <= 'f' then c as int - 87 else c as int - 55
  }

  /** The length of the run of hexadecimal digits at the start of `s`. */
  function HexRun(s: string): (n: nat)
    ensures n <= |s|
    ensures forall i :: 0 <= i < n ==> IsHexDigit(s[i])
    ensures n < |s| ==> !IsHexDigit(s[n])
    decreases |s|
  {
    if s != [] && IsHexDigit(s[0]) then 1 + HexRun(s[1..]) else 0
  }

  /** The value of a run of hexadecimal digits, most significant first. */
  function HexValue(s: string): nat
    requires forall i :: 0 <= i < |s| ==> IsHexDigit(s[i])
    decreases |s|
  {
    if s == [] then 0 else 16 * HexValue(s[..|s| - 1]) + HexDigitValue(s[|s| - 1])
  }

  /** `0x` or `0X` at the start of `u`. */
  predicate HexPrefixed(u: string)
  {
    |u| >= 2 && u[0] == '0' && (u[1] == 'x' || u[1] == 'X')
  }

  /** `parseInt(s)` without a radix: as `parseInt(s, 10)`, except that `0x` or `0X` after the white
      space and sign switches to hexadecimal, and then a number is read exactly when a hexadecimal
      digit follows the prefix, its magnitude being the value of the whole hexadecimal run. */
  function ParseIntAnyRadix(s: string): (r: Option<int>)
    ensures !HexPrefixed(SignlessTail(s[LeadingSpaces(s)..])) ==> r == ParseInt(s)
    ensures HexPrefixed(SignlessTail(s[LeadingSpaces(s)..])) ==>
              var t := s[LeadingSpaces(s)..];
              var h := SignlessTail(t)[2..];
              (r.Some? <==> HexRun(h) > 0) &&
              (r.Some? ==> HexValue(h[..HexRun(h)]) == if t[0] == '-' then -r.value else r.value)
  {
    var t := s[LeadingSpaces(s)..];
    var u := SignlessTail(t);
    if HexPrefixed(u) then
      var h := u[2..];
      var n := HexRun(h);
      if n == 0 then None
      else
        var v: int := HexValue(h[..n]);
        Some(if t[0] == '-' then -v else v)
    else ParseInt(s)
  }

  /** `String(n)` never carries a hexadecimal prefix, so `parseInt` with or without a radix reads
      it back as `n`. */
  lemma ParseIntAnyRadixOfIntToString(n: int)
    ensures ParseIntAnyRadix(IntToString(n)) == Some(n)
  {
    var s := IntToString(n);
    IntToStringShape(n);
    assert s[0..] == s;
    var m: nat := if n < 0 then -n else n;
    var u := NatToString(m);
    if |u| >= 2 {
      assert IsDigit(u[1]);
    }
    ParseIntOfIntToString(n);
  }

  /** `t` without one leading `+` or `-`. */
  function SignlessTail(t: string): (u: string)
    ensures |u| <= |t|
  {
    if t != [] && (t[0] == '+' || t[0] == '-') then t[1..] else t
  }

  function Pow10(e: nat): (p: nat)
    ensures p >= 1
  {
    if e == 0 then 1 else 10 * Pow10(e - 1)
  }

  /** The length of a well-formed exponent part (`e`, optional sign, digits) at the start of `s`, or 0. */
  function ExponentLength(s: string): (n: nat)
    ensures n <= |s|
  {
    if s == [] || (s[0] != 'e' && s[0] != 'E') then 0
    else
      var u := SignlessTail(s[1..]);
      var d := DigitRun(u);
      if d == 0 then 0 else 1 + (|s[1..]| - |u|) + d
  }

  /** The value of the exponent part found by ExponentLength. */
  function ExponentValue(s: string): int
  {
    if ExponentLength(s) == 0 then 0
    else
      var u := SignlessTail(s[1..]);
      var v: int := DigitsValue(u[..DigitRun(u)]);
      if s[1] == '-' then -v else v
  }

  function Scale(m: real, e: int): real
  {
    if e >= 0 then m * (Pow10(e) as real) else m / (Pow10(-e) as real)
  }

  /** A decimal point right after the integer digits of the sign-free text `u`. */
  predicate HasPoint(u: string)
  {
    DigitRun(u) < |u| && u[DigitRun(u)] == '.'
  }

  /** The number of fraction digits after that point, or 0 when there is none. */
  function FractionDigits(u: string): (n: nat)
    ensures n <= |u|
  {
    if HasPoint(u) then DigitRun(u[DigitRun(u) + 1..]) else 0
  }

  /** The length of the mantissa (integer digits, point and fraction digits) at the start of `u`. */
  function MantissaLength(u: string): (n: nat)
    ensures n <= |u|
  {
    if HasPoint(u) then DigitRun(u) + 1 + FractionDigits(u) else DigitRun(u)
  }

  /** The value of the fraction digits after the point, or 0 when there is none. */
  function FractionValue(u: string): real
  {
    if HasPoint(u) then
      DigitsValue(u[DigitRun(u) + 1..][..FractionDigits(u)]) as real / Pow10(FractionDigits(u)) as real
    else 0.0
  }

  /** The value of the mantissa at the start of `u`. */
  function MantissaValue(u: string): real
  {
    DigitsValue(u[..DigitRun(u)]) as real + FractionValue(u)
  }

  /** `parseFloat(s)`: leading white space is skipped, then the longest prefix that reads as a
      decimal literal (sign, digits, fraction, exponent); `None` stands for `NaN`. */
  function ParseFloat(s: string): (r: Option<real>)
    ensures r.None? <==>
      (var u := SignlessTail(s[LeadingSpaces(s)..]);
       var d1 := DigitRun(u);
       d1 == 0 && (u == [] || u[0] != '.' || DigitRun(u[1..]) == 0))
  {
    var t := s[LeadingSpaces(s)..];
    var u := SignlessTail(t);
    if DigitRun(u) == 0 && FractionDigits(u) == 0 then None
    else
      var magnitude := Scale(MantissaValue(u), ExponentValue(u[MantissaLength(u)..]));
      Some(SignedBy(t, magnitude))
  }

  /** `parseFloat` of a text with no leading white space whose sign-free part is a mantissa with
      nothing after it: the mantissa's value, negated after a minus sign. */
  lemma ParseFloatMantissa(t: string)
    requires LeadingSpaces(t) == 0
    requires var u := SignlessTail(t); (DigitRun(u) > 0 || FractionDigits(u) > 0) && MantissaLength(u) == |u|
    ensures ParseFloat(t) == Some(SignedBy(t, MantissaValue(SignlessTail(t))))
  {
    var u := SignlessTail(t);
    assert t[0..] == t;
    assert u[|u|..] == [];
    assert ExponentValue([]) == 0;
  }

  /** `v` negated when `t` starts with a minus sign. */
  function SignedBy(t: string, v: real): real
  {
    if t != [] && t[0] == '-' then -v else v
  }

  /** A run of digits followed by anything: the digit run covers the digits and continues into
      whatever digits follow. */
  lemma {:induction false} DigitRunAppend(a: string, rest: string)
    requires AllDigits(a)
    ensures DigitRun(a + rest) == |a| + DigitRun(rest)
    decreases |a|
  {
    if a != [] {
      assert (a + rest)[0] == a[0] && (a + rest)[1..] == a[1..] + rest;
      assert AllDigits(a[1..]) by {
        forall i | 0 <= i < |a| - 1 ensures IsDigit(a[1..][i]) { assert a[1..][i] == a[i + 1]; }
      }
      DigitRunAppend(a[1..], rest);
    } else {
      assert a + rest == rest;
    }
  }

  /** The number a decimal literal `a.b` stands for. */
  function DecimalValue(a: string, b: string): real
    requires AllDigits(a) && AllDigits(b)
  {
    DigitsValue(a) as real + DigitsValue(b) as real / Pow10(|b|) as real
  }

  /** The mantissa `a.b` with nothing after it: `a` and `b` are its digits and it is all read. */
  lemma PointMantissa(a: string, b: string)
    requires AllDigits(a) && AllDigits(b)
    ensures var u := a + "." + b;
      DigitRun(u) == |a| && HasPoint(u) && FractionDigits(u) == |b| && MantissaLength(u) == |u| &&
      MantissaValue(u) == DecimalValue(a, b)
  {
    var u := a + "." + b;
    assert DigitRun("." + b) == 0 by { assert ("." + b)[0] == '.'; }
    assert u == a + ("." + b);
    DigitRunAppend(a, "." + b);
    assert u[..|a|] == a && u[|a|] == '.' && u[|a| + 1..] == b;
    DigitRunAppend(b, []);
    assert b + [] == b && b[..|b|] == b;
  }

  /** `parseFloat` of a text that starts, after no white space and an optional sign, with the
      decimal literal `a.b` and nothing after it. */
  lemma ParseFloatPoint(t: string, a: string, b: string)
    requires LeadingSpaces(t) == 0 && SignlessTail(t) == a + "." + b
    requires AllDigits(a) && AllDigits(b) && (a != [] || b != [])
    ensures ParseFloat(t) == Some(SignedBy(t, DecimalValue(a, b)))
  {
    PointMantissa(a, b);
    ParseFloatMantissa(t);
  }

  /** `parseFloat` of an optional sign, an integer part `a`, a point and a fraction `b`: the
      value is `a` plus `b` tenths, hundredths and so on, negated after a minus sign. Either
      part may be empty, but not both. */
  lemma ParseFloatDecimal(sign: string, a: string, b: string)
    requires sign == "" || sign == "+" || sign == "-"
    requires AllDigits(a) && AllDigits(b) && (a != [] || b != [])
    ensures ParseFloat(sign + a + "." + b) ==
            Some(if sign == "-" then -DecimalValue(a, b) else DecimalValue(a, b))
  {
    var s := sign + a + "." + b;
    var u := a + "." + b;
    assert s == sign + u;
    if sign == [] {
      assert s == u;
      if a == [] { assert s[0] == '.'; } else { assert s[0] == a[0]; }
    } else {
      assert s[0] == sign[0] && s[1..] == u;
    }
    ParseFloatPoint(s, a, b);
  }

  /** `parseFloat` of an optional sign and a run of digits with no point: the digits' value. */
  lemma ParseFloatWhole(sign: string, a: string)
    requires sign == "" || sign == "+" || sign == "-"
    requires AllDigits(a) && a != []
    ensures ParseFloat(sign + a) ==
            Some(if sign == "-" then -(DigitsValue(a) as real) else DigitsValue(a) as real)
  {
    var s := sign + a;
    assert IsDigit(a[0]);
    if sign == [] {
      assert s == a && s[0] == a[0];
    } else {
      assert s[0] == sign[0] && s[1..] == a;
    }
    ParseFloatDigits(s, a);
  }

  /** `parseFloat` of a text that is, after no white space and an optional sign, the digit run
      `a` alone. */
  lemma ParseFloatDigits(t: string, a: string)
    requires LeadingSpaces(t) == 0 && SignlessTail(t) == a
    requires AllDigits(a) && a != []
    ensures ParseFloat(t) == Some(SignedBy(t, DigitsValue(a) as real))
  {
    WholeMantissa(a);
    ParseFloatMantissa(t);
  }

  /** A run of digits with nothing after it is a whole mantissa worth the digits' value. */
  lemma WholeMantissa(a: string)
    requires AllDigits(a)
    ensures DigitRun(a) == |a| && FractionDigits(a) == 0 && MantissaLength(a) == |a|
    ensures MantissaValue(a) == DigitsValue(a) as real
  {
    DigitRunAppend(a, []);
    assert a + [] == a && a[..|a|] == a;
    assert !HasPoint(a);
    assert FractionValue(a) == 0.0;
  }

  lemma {:induction false} NatToStringDigits(n: nat)
    ensures DigitRun(NatToString(n)) == |NatToString(n)|
  {
  }

  /** `String(n)` starts with no white space and, after its optional minus sign, is the
      magnitude's digits. */
  lemma IntToStringShape(n: int)
    ensures var s := IntToString(n);
      LeadingSpaces(s) == 0 && SignlessTail(s) == NatToString(if n < 0 then -n else n) &&
      (s[0] == '-' <==> n < 0)
  {
    var s := IntToString(n);
    assert !IsSpace(s[0]);
    var m: nat := if n < 0 then -n else n;
    if n < 0 {
      assert s == "-" + NatToString(m);
    } else {
      assert s == NatToString(m);
      assert IsDigit(s[0]);
    }
  }

  /** `parseInt(String(n), 10) == n`. */
  lemma {:induction false} ParseIntOfIntToString(n: int)
    ensures ParseInt(IntToString(n)) == Some(n)
  {
    var s := IntToString(n);
    IntToStringShape(n);
    assert s[0..] == s;
    var m: nat := if n < 0 then -n else n;
    NatToStringDigits(m);
    var u := NatToString(m);
    assert u[..|u|] == u;
  }

  /** `parseFloat(String(n)) == n` for an integer `n`. */
  lemma {:induction false} ParseFloatOfIntToString(n: int)
    ensures ParseFloat(IntToString(n)) == Some(n as real)
  {
    var s := IntToString(n);
    IntToStringShape(n);
    assert s[0..] == s;
    var m: nat := if n < 0 then -n else n;
    NatToStringDigits(m);
    var u := NatToString(m);
    assert u[..|u|] == u;
    assert u[|u|..] == [];
    assert ExponentValue([]) == 0;
    assert Scale(m as real + 0 as real / (Pow10(0) as real), 0) == m as real;
  }
}
