/** Small shared vocabulary: optional values and the outcome of a network call. */
module Common {

  datatype Option<+T> = None | Some(value: T)

  /** What a `fetch` came back with, seen from the caller: a 2xx response,
      any other status, or an exception (network failure, unparsable body). */
  datatype Fetch<+T> = Ok(data: T) | NotOk(status: int) | Threw

  function Min(a: int, b: int): int { if a <= b then a else b }
}

/** String helpers with the meaning JavaScript gives them. Strings are sequences
    of Unicode scalar values; every character this program inspects is in the
    Basic Multilingual Plane, where that agrees with JavaScript's UTF-16 units. */
module Text {
  import opened Common

  predicate IsDigit(c: char) { '0' <= c <= '9' }

  predicate AllDigits(s: string) { forall i :: 0 <= i < |s| ==> IsDigit(s[i]) }

  predicate StartsWith(s: string, p: string) { |p| <= |s| && s[..|p|] == p }

  predicate EndsWith(s: string, p: string) { |p| <= |s| && s[|s| - |p|..] == p }

  /** `sub` occurs in `s` at position `i`. */
  predicate OccursAt(s: string, sub: string, i: int) {
    0 <= i && i + |sub| <= |s| && s[i..i + |sub|] == sub
  }

  /** `s.includes(sub)` */
  predicate Contains(s: string, sub: string) {
    exists i | 0 <= i <= |s| :: OccursAt(s, sub, i)
  }

  predicate HasChar(s: string, c: char) { exists i :: 0 <= i < |s| && s[i] == c }

  function DigitChar(d: nat): (c: char)
    requires d < 10
    ensures IsDigit(c)
  {
    ('0' as int + d) as char
  }

  function DigitValue(c: char): nat
    requires IsDigit(c)
  {
    (c as int - '0' as int) as nat
  }

  /** Decimal rendering of a natural number, as `String(n)` gives it. */
  function NatToString(n: nat): (r: string)
    ensures |r| >= 1 && AllDigits(r)
    ensures r[0] == '0' ==> n == 0
  {
    if n < 10 then [DigitChar(n)] else NatToString(n / 10) + [DigitChar(n % 10)]
  }

  /** The value of a string of decimal digits (the empty string is 0). */
  function DigitsValue(s: string): nat
    requires AllDigits(s)
  {
    if s == [] then 0 else DigitsValue(s[..|s| - 1]) * 10 + DigitValue(s[|s| - 1])
  }

  lemma {:induction false} NatToStringRoundTrip(n: nat)
    ensures DigitsValue(NatToString(n)) == n
  {
    if n >= 10 {
      var s := NatToString(n);
      assert s[..|s| - 1] == NatToString(n / 10);
      NatToStringRoundTrip(n / 10);
    }
  }

  lemma NatToStringInjective()
    ensures forall a: nat, b: nat :: NatToString(a) == NatToString(b) ==> a == b
  {
    forall a: nat, b: nat | NatToString(a) == NatToString(b) ensures a == b {
      NatToStringRoundTrip(a);
      NatToStringRoundTrip(b);
    }
  }

  /** `String(i)` for an integer. */
  function IntToString(i: int): (r: string)
    ensures |r| >= 1
  {
    if i < 0 then "-" + NatToString(-i) else NatToString(i)
  }

  /** `x % y` in JavaScript: the remainder takes the sign of the dividend. */
  function JsRem(a: int, b: int): (r: int)
    requires b > 0
    ensures a >= 0 ==> r == a % b
    ensures a == (if a >= 0 then a / b else -((-a) / b)) * b + r
  {
    if a >= 0 then a % b else -((-a) % b)
  }

  /** `s.padStart(2, '0')` */
  function PadStart2(s: string): (r: string)
    ensures |r| == if |s| < 2 then 2 else |s|
    ensures EndsWith(r, s)
  {
    if |s| == 0 then "00" else if |s| == 1 then "0" + s else s
  }

  /** White space and line terminators as `trim` removes them: tab, line
      feed, vertical tab, form feed, carriage return and space below U+00A0,
      then the no-break space, the Unicode space separators, the line and
      paragraph separators and the byte-order mark. */
  predicate IsSpace(c: char) {
    if c < '\U{00A0}' then c == ' ' || '\t' <= c <= '\r'
    else
      c == '\U{00A0}' || c == '\U{1680}' || ('\U{2000}' <= c <= '\U{200A}')
      || c == '\U{2028}' || c == '\U{2029}' || c == '\U{202F}' || c == '\U{205F}'
      || c == '\U{3000}' || c == '\U{FEFF}'
  }

  predicate AllSpace(s: string) { forall i :: 0 <= i < |s| ==> IsSpace(s[i]) }

  /** How many white-space characters `s` starts with. */
  function LeadingSpace(s: string): (n: nat)
    ensures n <= |s| && AllSpace(s[..n]) && (n < |s| ==> !IsSpace(s[n]))
  {
    if s != [] && IsSpace(s[0]) then
      var k := LeadingSpace(s[1..]);
      assert forall i :: 1 <= i < k + 1 ==> s[i] == s[1..][..k][i - 1];
      k + 1
    else 0
  }

  /** How many white-space characters `s` ends with. */
  function TrailingSpace(s: string): (n: nat)
    ensures n <= |s| && AllSpace(s[|s| - n..]) && (n < |s| ==> !IsSpace(s[|s| - n - 1]))
  {
    if s != [] && IsSpace(s[|s| - 1]) then
      var k := TrailingSpace(s[..|s| - 1]);
      assert forall i :: |s| - k - 1 <= i < |s| - 1 ==> s[i] == s[..|s| - 1][i];
      k + 1
    else 0
  }

  function TrimStart(s: string): (r: string)
    ensures |r| <= |s| && r == s[|s| - |r|..]
    ensures AllSpace(s[..|s| - |r|])
    ensures r != [] ==> !IsSpace(r[0])
  {
    s[LeadingSpace(s)..]
  }

  function TrimEnd(s: string): (r: string)
    ensures |r| <= |s| && r == s[..|r|]
    ensures AllSpace(s[|r|..])
    ensures r != [] ==> !IsSpace(r[|r| - 1])
  {
    s[..|s| - TrailingSpace(s)]
  }

  /** `s.trim()`; `TrimIsSlice` states that the result is a slice of `s` and
      everything cut off is white space. */
  function Trim(s: string): (r: string)
    ensures |r| <= |s|
    ensures r != [] ==> !IsSpace(r[0]) && !IsSpace(r[|r| - 1])
  {
    TrimEnd(TrimStart(s))
  }

  lemma TrimIsSlice(s: string)
    ensures var r := Trim(s);
      exists i :: 0 <= i <= |s| - |r| && r == s[i..i + |r|] && AllSpace(s[..i]) && AllSpace(s[i + |r|..])
  {
    var i := TrimOffset(s);
    SliceWitness(s, Trim(s), i);
  }

  /** Where the result of `Trim(s)` starts in `s`. */
  lemma TrimOffset(s: string) returns (i: int)
    ensures var r := Trim(s);
      0 <= i <= |s| - |r| && r == s[i..i + |r|] && AllSpace(s[..i]) && AllSpace(s[i + |r|..])
  {
    var t := TrimStart(s);
    var r := TrimEnd(t);
    SpaceAround(s, t, r);
    i := |s| - |t|;
  }

  lemma SliceWitness(s: string, r: string, i: int)
    requires 0 <= i <= |s| - |r| && r == s[i..i + |r|] && AllSpace(s[..i]) && AllSpace(s[i + |r|..])
    ensures exists j :: 0 <= j <= |s| - |r| && r == s[j..j + |r|] && AllSpace(s[..j]) && AllSpace(s[j + |r|..])
  {
  }

  /** Cutting white space off the front of `s` (giving `t`) and then off the
      back of `t` (giving `r`) leaves a slice of `s` with white space around it. */
  lemma SpaceAround(s: string, t: string, r: string)
    requires |t| <= |s| && t == s[|s| - |t|..] && AllSpace(s[..|s| - |t|])
    requires |r| <= |t| && r == t[..|r|] && AllSpace(t[|r|..])
    ensures var i := |s| - |t|; 0 <= i <= |s| - |r| && r == s[i..i + |r|] && AllSpace(s[..i]) && AllSpace(s[i + |r|..])
  {
    var i := |s| - |t|;
    assert t[..|r|] == s[i..i + |r|];
    assert t[|r|..] == s[i + |r|..];
  }

  lemma TrimNoSpace(s: string)
    requires forall i :: 0 <= i < |s| ==> !IsSpace(s[i])
    ensures Trim(s) == s
  {
  }

  /** `s.toLowerCase()` for the ASCII letters `A`-`Z` only. JavaScript also
      lower-cases every other Unicode character with case (Latin-1, Greek,
      Cyrillic, the Kelvin sign, ...); those are returned unchanged here. */
  function ToLower(s: string): (r: string)
    ensures |r| == |s|
  {
    if s == [] then [] else
      var c := s[0];
      [if 'A' <= c <= 'Z' then (c as int + 32) as char else c] + ToLower(s[1..])
  }

  /** The characters of `s` that satisfy `keep`, in order (`s.replace(/[^…]/g, "")`). */
  function Keep(s: string, keep: char -> bool): (r: string)
    ensures |r| <= |s|
    ensures forall i :: 0 <= i < |r| ==> keep(r[i])
    ensures (forall i :: 0 <= i < |s| ==> keep(s[i])) ==> r == s
  {
    if s == [] then [] else (if keep(s[0]) then [s[0]] else []) + Keep(s[1..], keep)
  }

  /** `s.slice(0, n)` for a non-negative `n`. */
  function Take(s: string, n: nat): (r: string)
    ensures |r| == (if |s| <= n then |s| else n) && r == s[..|r|]
  {
    if |s| <= n then s else s[..n]
  }

  /** `s.split(sep)` for a one-character separator. */
  function Split(s: string, sep: char): (r: seq<string>)
    ensures |r| >= 1
    ensures forall k :: 0 <= k < |r| ==> !HasChar(r[k], sep)
    decreases |s|
  {
    if !HasChar(s, sep) then [s]
    else
      var i := FirstIndex(s, sep);
      [s[..i]] + Split(s[i + 1..], sep)
  }

  /** `parts.join(sep)` for a one-character separator. */
  function Join(parts: seq<string>, sep: char): string
    requires |parts| >= 1
  {
    if |parts| == 1 then parts[0] else parts[0] + [sep] + Join(parts[1..], sep)
  }

  /** The first `c` is where `c` occurs with none before it. */
  lemma FirstIndexAt(s: string, c: char, i: nat)
    requires i < |s| && s[i] == c && !HasChar(s[..i], c)
    ensures HasChar(s, c) && FirstIndex(s, c) == i
  {
    assert s[..i + 1][i] == c;
  }

  /** Splitting undoes joining when no part contains the separator. */
  lemma {:induction false} SplitJoin(parts: seq<string>, sep: char)
    requires |parts| >= 1
    requires forall k :: 0 <= k < |parts| ==> !HasChar(parts[k], sep)
    ensures Split(Join(parts, sep), sep) == parts
  {
    if |parts| > 1 {
      var a := parts[0];
      var rest := Join(parts[1..], sep);
      var s := a + [sep] + rest;
      assert s[..|a|] == a;
      FirstIndexAt(s, sep, |a|);
      assert s[|a| + 1..] == rest;
      SplitJoin(parts[1..], sep);
    }
  }

  /** `s.padStart(n, '0')` */
  function PadZeros(s: string, n: nat): (r: string)
    ensures |r| == if |s| < n then n else |s|
    ensures EndsWith(r, s)
    ensures forall i :: 0 <= i < |r| - |s| ==> r[i] == '0'
  {
    if |s| >= n then s else seq(n - |s|, _ => '0') + s
  }

  /** The value of a zero-padded digit string is the value of the digits. */
  lemma {:induction false} LeadingZeros(k: nat, s: string)
    requires AllDigits(s)
    ensures AllDigits(seq(k, _ => '0') + s)
    ensures DigitsValue(seq(k, _ => '0') + s) == DigitsValue(s)
    decreases |s|
  {
    var z := seq(k, _ => '0');
    if s == [] {
      assert z + s == z;
      ZerosValue(k);
    } else {
      var w := z + s;
      assert w[..|w| - 1] == z + s[..|s| - 1];
      LeadingZeros(k, s[..|s| - 1]);
    }
  }

  lemma {:induction false} ZerosValue(k: nat)
    ensures AllDigits(seq(k, _ => '0')) && DigitsValue(seq(k, _ => '0')) == 0
  {
    if k > 0 {
      assert seq(k, _ => '0')[..k - 1] == seq(k - 1, _ => '0');
      ZerosValue(k - 1);
    }
  }

  /** A zero-padded number below 10^width, read back. */
  lemma PaddedValue(n: nat, width: nat)
    requires |NatToString(n)| <= width
    ensures var s := PadZeros(NatToString(n), width); |s| == width && AllDigits(s) && DigitsValue(s) == n
  {
    var t := NatToString(n);
    NatToStringRoundTrip(n);
    LeadingZeros(width - |t|, t);
    assert PadZeros(t, width) == seq(width - |t|, _ => '0') + t;
  }

  lemma NatToStringShort(n: nat)
    ensures n < 10 ==> |NatToString(n)| == 1
    ensures n < 100 ==> |NatToString(n)| <= 2
    ensures n < 10000 ==> |NatToString(n)| <= 4
  {
    if 10 <= n < 10000 {
      NatToStringShort(n / 10);
    }
  }

  /** A number below 100, padded to two digits, reads back as itself. */
  lemma PaddedTwoDigits(n: int)
    requires 0 <= n < 100
    ensures var s := PadStart2(NatToString(n)); |s| == 2 && AllDigits(s) && DigitsValue(s) == n
  {
    NatToStringShort(n);
    PaddedValue(n, 2);
    PadStart2IsPadZeros(NatToString(n));
  }

  lemma PadStart2IsPadZeros(s: string)
    requires 1 <= |s| <= 2
    ensures PadStart2(s) == PadZeros(s, 2)
  {
    if |s| == 1 {
      assert seq(1, _ => '0') == "0";
    }
  }

  /** Reading an `h:mm:ss` or `m:ss` clock back into seconds. */
  function ParseClock(s: string): Option<nat>
  {
    ClockValue(Split(s, ':'))
  }

  function ClockValue(parts: seq<string>): Option<nat>
  {
    if |parts| == 3 && AllDigits(parts[0]) && AllDigits(parts[1]) && AllDigits(parts[2]) then
      Some(DigitsValue(parts[0]) * 3600 + DigitsValue(parts[1]) * 60 + DigitsValue(parts[2]))
    else if |parts| == 2 && AllDigits(parts[0]) && AllDigits(parts[1]) then
      Some(DigitsValue(parts[0]) * 60 + DigitsValue(parts[1]))
    else None
  }

  lemma ReadThree(hs: string, ms: string, ss: string, h: nat, m: nat, s: nat)
    requires AllDigits(hs) && AllDigits(ms) && AllDigits(ss)
    requires DigitsValue(hs) == h && DigitsValue(ms) == m && DigitsValue(ss) == s
    ensures ParseClock(hs + ":" + ms + ":" + ss) == Some(h * 3600 + m * 60 + s)
  {
    JoinThree(hs, ms, ss, ':');
    var parts := [hs, ms, ss];
    assert parts[0] == hs && parts[1] == ms && parts[2] == ss;
    ClockParts(parts);
  }

  lemma ReadTwo(ms: string, ss: string, m: nat, s: nat)
    requires AllDigits(ms) && AllDigits(ss)
    requires DigitsValue(ms) == m && DigitsValue(ss) == s
    ensures ParseClock(ms + ":" + ss) == Some(m * 60 + s)
  {
    var parts := [ms, ss];
    assert ms + ":" + ss == Join(parts, ':');
    assert parts[0] == ms && parts[1] == ss;
    ClockParts(parts);
  }

  lemma JoinThree(a: string, b: string, c: string, sep: char)
    ensures Join([a, b, c], sep) == a + [sep] + b + [sep] + c
  {
    assert [b, c][1..] == [c];
    assert Join([b, c], sep) == b + [sep] + c;
    assert [a, b, c][1..] == [b, c];
  }

  /** Digit fields joined by colons split back into the same fields. */
  lemma ClockParts(parts: seq<string>)
    requires |parts| >= 1
    requires forall k :: 0 <= k < |parts| ==> AllDigits(parts[k])
    ensures Split(Join(parts, ':'), ':') == parts
  {
    forall k | 0 <= k < |parts| ensures !HasChar(parts[k], ':') {
      assert forall i :: 0 <= i < |parts[k]| ==> IsDigit(parts[k][i]);
    }
    SplitJoin(parts, ':');
  }

  // ---------------------------------------------------------------- Number(s)

  /** A JavaScript number: NaN, a finite value (an exact rational here), or
      one of the two infinities. */
  datatype JsNumber = NaN | Finite(value: real) | Infinite(positive: bool)

  /** The value of `c` as a digit in base `radix` (2, 8, 10 or 16), or 16 when
      it is not a hexadecimal digit at all. */
  function HexValue(c: char): nat
  {
    if '0' <= c <= '9' then (c as int - '0' as int) as nat
    else if 'a' <= c <= 'f' then (c as int - 'a' as int + 10) as nat
    else if 'A' <= c <= 'F' then (c as int - 'A' as int + 10) as nat
    else 16
  }

  predicate AllRadix(s: string, radix: nat)
  {
    forall i :: 0 <= i < |s| ==> HexValue(s[i]) < radix
  }

  /** The value of a run of base-`radix` digits. */
  function RadixValue(s: string, radix: nat): nat
    requires AllRadix(s, radix)
  {
    if s == [] then 0 else RadixValue(s[..|s| - 1], radix) * radix + HexValue(s[|s| - 1])
  }

  /** Where the exponent marker (`e` or `E`) is, or `|s|` without one. */
  function ExponentAt(s: string): (i: nat)
    ensures i <= |s| && (i < |s| ==> s[i] == 'e' || s[i] == 'E')
    ensures forall j :: 0 <= j < i ==> s[j] != 'e' && s[j] != 'E'
  {
    if s == [] || s[0] == 'e' || s[0] == 'E' then 0
    else
      var i := ExponentAt(s[1..]);
      assert forall j :: 1 <= j < i + 1 ==> s[j] == s[1..][j - 1];
      i + 1
  }

  /** An optionally signed, non-empty run of decimal digits. */
  function ExponentOf(s: string): Option<int>
  {
    if s != [] && (s[0] == '+' || s[0] == '-') then
      var ds := s[1..];
      if ds != [] && AllDigits(ds) then Some(if s[0] == '-' then -(DigitsValue(ds) as int) else DigitsValue(ds) as int) else None
    else if s != [] && AllDigits(s) then Some(DigitsValue(s))
    else None
  }

  /** Decimal digits with at most one `.` and at least one digit. */
  function MantissaOf(s: string): Option<real>
  {
    if HasChar(s, '.') then
      var i := FirstIndex(s, '.');
      var whole := s[..i];
      var frac := s[i + 1..];
      if AllDigits(whole) && AllDigits(frac) && (whole != [] || frac != []) then
        Some(DigitsValue(whole) as real + FractionValue(frac))
      else None
    else if s != [] && AllDigits(s) then Some(DigitsValue(s) as real)
    else None
  }

  /** The value of the digits after a decimal point. */
  function FractionValue(s: string): real
    requires AllDigits(s)
  {
    if s == [] then 0.0 else (DigitValue(s[0]) as real + FractionValue(s[1..])) / 10.0
  }

  /** `m` times ten to the power `e`. */
  function Scale(m: real, e: int): real
    decreases if e >= 0 then e else -e
  {
    if e == 0 then m
    else if e > 0 then 10.0 * Scale(m, e - 1)
    else Scale(m, e + 1) / 10.0
  }

  /** An unsigned decimal literal: `Infinity`, or a mantissa with an optional exponent. */
  function UnsignedDecimal(s: string): JsNumber
  {
    if s == "Infinity" then Infinite(true)
    else
      var i := ExponentAt(s);
      var m := MantissaOf(s[..i]);
      var e := if i == |s| then Some(0) else ExponentOf(s[i + 1..]);
      if m.Some? && e.Some? then Finite(Scale(m.value, e.value)) else NaN
  }

  function Negate(n: JsNumber): JsNumber
  {
    match n
    case NaN => NaN
    case Finite(v) => Finite(-v)
    case Infinite(p) => Infinite(!p)
  }

  /** The letters after a leading `0` that mark another radix. */
  predicate RadixMark(c: char)
  {
    c == 'x' || c == 'X' || c == 'o' || c == 'O' || c == 'b' || c == 'B'
  }

  /** `Number(s)` for a string (StringToNumber, section 7.1.4.1.1 of ECMA-262):
      white space around is ignored, blank text is 0, `0x`, `0o` and `0b`
      prefix unsigned hexadecimal, octal and binary digits, and otherwise an
      optionally signed decimal literal or `Infinity`; anything else is NaN. */
  function ToNumber(s: string): JsNumber
  {
    TrimmedNumber(Trim(s))
  }

  /** `Number` of text without white space around it. */
  function TrimmedNumber(t: string): JsNumber
  {
    if t == [] then Finite(0.0)
    else if |t| >= 2 && t[0] == '0' && RadixMark(t[1]) then
      var radix := if t[1] == 'x' || t[1] == 'X' then 16 else if t[1] == 'o' || t[1] == 'O' then 8 else 2;
      var ds := t[2..];
      if ds != [] && AllRadix(ds, radix) then Finite(RadixValue(ds, radix) as real) else NaN
    else if t[0] == '-' then Negate(UnsignedDecimal(t[1..]))
    else if t[0] == '+' then UnsignedDecimal(t[1..])
    else UnsignedDecimal(t)
  }

  lemma DigitsNoExponent(s: string)
    requires AllDigits(s)
    ensures ExponentAt(s) == |s|
  {
  }

  lemma DigitsMantissa(s: string)
    requires AllDigits(s) && s != []
    ensures MantissaOf(s) == Some(DigitsValue(s) as real)
  {
  }

  /** A run of decimal digits is an unsigned decimal literal of that value. */
  lemma DigitsDecimal(s: string)
    requires AllDigits(s) && s != []
    ensures UnsignedDecimal(s) == Finite(DigitsValue(s) as real)
  {
    assert s != "Infinity" by { assert IsDigit(s[0]); }
    DigitsNoExponent(s);
    assert s[..|s|] == s;
    DigitsMantissa(s);
    assert Scale(DigitsValue(s) as real, 0) == DigitsValue(s) as real;
  }

  /** A run of decimal digits reads as its value. */
  lemma DigitsNumber(s: string)
    requires AllDigits(s) && s != []
    ensures ToNumber(s) == Finite(DigitsValue(s) as real)
  {
    DigitsTrimmed(s);
    assert IsDigit(s[0]);
    assert |s| >= 2 ==> !RadixMark(s[1]) by {
      if |s| >= 2 { assert IsDigit(s[1]); }
    }
    DigitsDecimal(s);
  }

  lemma DigitsNumberIf(s: string)
    ensures AllDigits(s) && s != [] ==> ToNumber(s) == Finite(DigitsValue(s) as real)
  {
    if AllDigits(s) && s != [] {
      DigitsNumber(s);
    }
  }

  lemma NoSpaceNumber(s: string)
    requires forall i :: 0 <= i < |s| ==> !IsSpace(s[i])
    ensures ToNumber(s) == TrimmedNumber(s)
  {
    TrimNoSpace(s);
  }

  lemma MinusNumber(t: string)
    requires t != [] && t[0] == '-'
    ensures TrimmedNumber(t) == Negate(UnsignedDecimal(t[1..]))
  {
  }

  /** A minus sign before text without white space negates that text's
      reading as an unsigned decimal. */
  lemma MinusTextNumber(s: string, u: string)
    requires s == "-" + u && forall i :: 0 <= i < |u| ==> !IsSpace(u[i])
    ensures ToNumber(s) == Negate(UnsignedDecimal(u))
  {
    forall i | 0 <= i < |s| ensures !IsSpace(s[i]) {
      if i > 0 {
        assert s[i] == u[i - 1];
      }
    }
    NoSpaceNumber(s);
    MinusNumber(s);
    assert s[1..] == u;
  }

  /** `-` followed by digits is negative-number text with no white space. */
  lemma MinusDigitsNumber(d: string)
    requires AllDigits(d) && d != []
    ensures ToNumber("-" + d) == Negate(UnsignedDecimal(d))
  {
    forall i | 0 <= i < |d| ensures !IsSpace(d[i]) {
      assert IsDigit(d[i]);
    }
    MinusTextNumber("-" + d, d);
  }

  /** A minus sign before a run of digits negates its value. */
  lemma SignedDigitsNumber(d: string)
    requires AllDigits(d) && d != []
    ensures ToNumber("-" + d) == Finite(-(DigitsValue(d) as real))
  {
    MinusDigitsNumber(d);
    DigitsDecimal(d);
  }

  /** `Number(String(n))` is `n` for every integer: the two are inverse. */
  lemma NumberOfIntToString(n: int)
    ensures ToNumber(IntToString(n)) == Finite(n as real)
  {
    IntNumber(n, IntToString(n));
  }

  lemma IntNumber(n: int, s: string)
    requires s == IntToString(n)
    ensures ToNumber(s) == Finite(n as real)
  {
    if n >= 0 {
      NatNumber(n);
    } else {
      NegativeNumber(-n);
    }
  }

  lemma NatNumber(n: nat)
    ensures ToNumber(NatToString(n)) == Finite(n as real)
  {
    NatToStringRoundTrip(n);
    DigitsOfValue(NatToString(n), n);
  }

  lemma NegativeNumber(n: nat)
    requires n > 0
    ensures ToNumber("-" + NatToString(n)) == Finite(-(n as real))
  {
    NatToStringRoundTrip(n);
    MinusDigitsOfValue(NatToString(n), n);
  }

  lemma DigitsOfValue(d: string, n: nat)
    requires AllDigits(d) && d != [] && DigitsValue(d) == n
    ensures ToNumber(d) == Finite(n as real)
  {
    DigitsNumber(d);
  }

  lemma MinusDigitsOfValue(d: string, n: nat)
    requires AllDigits(d) && d != [] && DigitsValue(d) == n
    ensures ToNumber("-" + d) == Finite(-(n as real))
  {
    SignedDigitsNumber(d);
  }

  /** `0x` before hexadecimal digits reads as their value. */
  lemma HexNumber(ds: string)
    requires ds != [] && AllRadix(ds, 16)
    ensures ToNumber("0x" + ds) == Finite(RadixValue(ds, 16) as real)
  {
    var s := "0x" + ds;
    forall i | 0 <= i < |s| ensures !IsSpace(s[i]) {
      if i >= 2 {
        assert s[i] == ds[i - 2] && HexValue(ds[i - 2]) < 16;
      }
    }
    NoSpaceNumber(s);
    assert s[2..] == ds;
  }

  /** Text whose second character is `x` is no decimal mantissa. */
  lemma XMantissa(u: string)
    requires |u| >= 2 && u[1] == 'x'
    ensures MantissaOf(u) == None
  {
    if HasChar(u, '.') {
      var k := FirstIndex(u, '.');
      if k == 0 {
        assert !IsDigit(u[1..][0]);
      } else {
        assert k != 1 && !IsDigit(u[..k][1]);
      }
    } else {
      assert !IsDigit(u[1]);
    }
  }

  lemma SignedHexText(ds: string)
    requires AllRadix(ds, 16)
    ensures ToNumber("-0x" + ds) == Negate(UnsignedDecimal("0x" + ds))
  {
    var u := "0x" + ds;
    forall i | 0 <= i < |u| ensures !IsSpace(u[i]) {
      if i >= 2 {
        assert u[i] == ds[i - 2] && HexValue(ds[i - 2]) < 16;
      }
    }
    assert "-0x" + ds == "-" + u;
    MinusTextNumber("-0x" + ds, u);
  }

  /** A radix prefix takes no sign: `-0x…` is NaN whatever follows. */
  lemma SignedHexNaN(ds: string)
    requires AllRadix(ds, 16)
    ensures ToNumber("-0x" + ds) == NaN
  {
    SignedHexText(ds);
    var t := "0x" + ds;
    assert t != "Infinity" by { assert t[0] != "Infinity"[0]; }
    var i := ExponentAt(t);
    assert i >= 2 by { assert t[0] == '0' && t[1] == 'x'; }
    XMantissa(t[..i]);
  }

  /** Blank text reads as 0. */
  lemma BlankNumber(s: string)
    requires AllSpace(s)
    ensures ToNumber(s) == Finite(0.0)
  {
  }

  // ---------------------------------------------------------------------
  // decodeURIComponent (section 19.2.6.2 of ECMA-262): `%XX` escapes are the
  // bytes of UTF-8 text; every other character stands for itself.
  // ---------------------------------------------------------------------

  /** The byte a `%XX` escape at the front of `s` stands for. */
  function EscapeAt(s: string): (r: Option<nat>)
    ensures r.Some? ==> |s| >= 3 && s[0] == '%' && r.value < 256
  {
    if |s| >= 3 && s[0] == '%' && HexValue(s[1]) < 16 && HexValue(s[2]) < 16 then
      Some(HexValue(s[1]) * 16 + HexValue(s[2]))
    else None
  }

  /** How many bytes a sequence starting with `lead` has (its leading one
      bits), or 0 when `lead` cannot start one. */
  function LeadLength(lead: nat): nat
  {
    if lead < 0x80 then 1
    else if lead < 0xC0 then 0
    else if lead < 0xE0 then 2
    else if lead < 0xF0 then 3
    else if lead < 0xF8 then 4
    else 0
  }

  /** The payload bits a lead byte of an `n`-byte sequence carries. */
  function LeadBits(lead: nat, n: nat): nat
  {
    if n == 2 then lead % 32 else if n == 3 then lead % 16 else lead % 8
  }

  /** `n` escapes of continuation bytes (`10xxxxxx`) at the front of `s`, as
      their six payload bits each. */
  function Continuations(s: string, n: nat): (r: Option<seq<nat>>)
    ensures r.Some? ==> |s| >= 3 * n && |r.value| == n
  {
    if n == 0 then Some([])
    else match EscapeAt(s)
      case None => None
      case Some(b) =>
        if 0x80 <= b < 0xC0 then
          match Continuations(s[3..], n - 1)
          case None => None
          case Some(rest) => Some([b - 0x80] + rest)
        else None
  }

  /** The code point of a lead's bits followed by six-bit groups. */
  function Accumulate(acc: nat, groups: seq<nat>): nat
    decreases |groups|
  {
    if groups == [] then acc else Accumulate(acc * 64 + groups[0], groups[1..])
  }

  /** `cp` is a Unicode scalar value that needs exactly `n` bytes: anything
      else (an overlong form, a surrogate, beyond U+10FFFF) is no UTF-8. */
  predicate ShortestScalar(cp: nat, n: nat)
  {
    cp <= 0x10FFFF && !(0xD800 <= cp <= 0xDFFF)
    && (if n == 2 then cp >= 0x80 else if n == 3 then cp >= 0x800 else cp >= 0x10000)
  }

  function Prepend(c: char, r: Option<string>): Option<string>
  {
    match r
    case Some(t) => Some([c] + t)
    case None => None
  }

  /** `decodeURIComponent(s)`, or `None` where it throws a URIError. */
  function DecodeUri(s: string): Option<string>
    decreases |s|
  {
    if s == [] then Some([])
    else if s[0] != '%' then Prepend(s[0], DecodeUri(s[1..]))
    else match EscapeAt(s)
      case None => None
      case Some(b) =>
        var n := LeadLength(b);
        if n == 0 then None
        else if n == 1 then Prepend(b as char, DecodeUri(s[3..]))
        else match Continuations(s[3..], n - 1)
          case None => None
          case Some(groups) =>
            var cp := Accumulate(LeadBits(b, n), groups);
            if ShortestScalar(cp, n) then Prepend(cp as char, DecodeUri(s[3 * n..])) else None
  }

  /** Text without `%` decodes to itself. */
  lemma {:induction false} DecodePlain(s: string)
    requires !HasChar(s, '%')
    ensures DecodeUri(s) == Some(s)
  {
    if s != [] {
      assert !HasChar(s[1..], '%') by {
        forall i | 0 <= i < |s[1..]| ensures s[1..][i] != '%' { assert s[1..][i] == s[i + 1]; }
      }
      DecodePlain(s[1..]);
      assert s[0] != '%' && [s[0]] + s[1..] == s;
    }
  }

  /** The hexadecimal digit (upper case) of `d`. */
  function HexDigit(d: nat): (c: char)
    requires d < 16
    ensures HexValue(c) == d
  {
    if d < 10 then ('0' as int + d) as char else ('A' as int + d - 10) as char
  }

  /** The escape `%XX` of a byte. */
  function ByteEscape(b: nat): (r: string)
    requires b < 256
    ensures EscapeAt(r) == Some(b) && |r| == 3
  {
    ['%', HexDigit(b / 16), HexDigit(b % 16)]
  }

  /** The UTF-8 bytes of a character. */
  function Utf8(c: char): (r: seq<nat>)
    ensures 1 <= |r| <= 4 && forall i :: 0 <= i < |r| ==> r[i] < 256
  {
    var cp := c as int;
    if cp < 0x80 then [cp]
    else if cp < 0x800 then [0xC0 + cp / 64, 0x80 + cp % 64]
    else if cp < 0x10000 then [0xE0 + cp / 4096, 0x80 + cp / 64 % 64, 0x80 + cp % 64]
    else [0xF0 + cp / 262144, 0x80 + cp / 4096 % 64, 0x80 + cp / 64 % 64, 0x80 + cp % 64]
  }

  function EscapeBytes(bytes: seq<nat>): (r: string)
    requires forall i :: 0 <= i < |bytes| ==> bytes[i] < 256
    ensures |r| == 3 * |bytes|
  {
    if bytes == [] then [] else ByteEscape(bytes[0]) + EscapeBytes(bytes[1..])
  }

  /** Every character percent-encoded as its UTF-8 bytes. */
  function EscapeAll(s: string): string
  {
    if s == [] then [] else EscapeBytes(Utf8(s[0])) + EscapeAll(s[1..])
  }

  /** An escape in front of `tail` reads as its byte and leaves `tail`. */
  lemma EscapeFront(b: nat, tail: string)
    requires b < 256
    ensures var s := ByteEscape(b) + tail; EscapeAt(s) == Some(b) && s[3..] == tail
  {
    var e := ByteEscape(b);
    var s := e + tail;
    assert s[0] == e[0] && s[1] == e[1] && s[2] == e[2];
  }

  /** Escapes of bytes in front of `rest`: the first escape and then the
      remaining ones. */
  lemma EscapeBytesFront(bytes: seq<nat>, rest: string)
    requires bytes != [] && forall i :: 0 <= i < |bytes| ==> bytes[i] < 256
    ensures var s := EscapeBytes(bytes) + rest;
      EscapeAt(s) == Some(bytes[0]) && s[3..] == EscapeBytes(bytes[1..]) + rest
  {
    var tail := EscapeBytes(bytes[1..]) + rest;
    assert EscapeBytes(bytes) + rest == ByteEscape(bytes[0]) + tail;
    EscapeFront(bytes[0], tail);
  }

  /** Continuation bytes carrying six-bit groups. */
  function ContinuationBytes(groups: seq<nat>): (r: seq<nat>)
    requires forall i :: 0 <= i < |groups| ==> groups[i] < 64
    ensures |r| == |groups| && forall i :: 0 <= i < |r| ==> r[i] == 0x80 + groups[i] < 256
  {
    seq(|groups|, i requires 0 <= i < |groups| => 0x80 + groups[i])
  }

  /** The six-bit groups the continuation bytes of `c`'s UTF-8 form carry. */
  function Utf8Groups(c: char): (r: seq<nat>)
    ensures forall i :: 0 <= i < |r| ==> r[i] < 64
  {
    var cp := c as int;
    if cp < 0x80 then []
    else if cp < 0x800 then [cp % 64]
    else if cp < 0x10000 then [cp / 64 % 64, cp % 64]
    else [cp / 4096 % 64, cp / 64 % 64, cp % 64]
  }

  /** A character's UTF-8 bytes are its lead byte and then continuation bytes. */
  lemma Utf8Split(c: char)
    ensures |Utf8(c)| == |Utf8Groups(c)| + 1 && Utf8(c)[1..] == ContinuationBytes(Utf8Groups(c))
  {
    var bytes := Utf8(c);
    var groups := Utf8Groups(c);
    assert forall i :: 0 <= i < |groups| ==> bytes[1..][i] == 0x80 + groups[i];
  }

  /** Reading the escapes of continuation bytes gives back their payloads. */
  lemma {:induction false} ContinuationsOf(groups: seq<nat>, rest: string)
    requires forall i :: 0 <= i < |groups| ==> groups[i] < 64
    ensures Continuations(EscapeBytes(ContinuationBytes(groups)) + rest, |groups|) == Some(groups)
  {
    if groups != [] {
      var bytes := ContinuationBytes(groups);
      assert bytes[1..] == ContinuationBytes(groups[1..]);
      ContinuationsOf(groups[1..], rest);
      EscapeBytesFront(bytes, rest);
      ContinuationStep(EscapeBytes(bytes) + rest, bytes[0], |groups|, groups[1..]);
      assert [groups[0]] + groups[1..] == groups;
    }
  }

  /** An escaped continuation byte followed by `n - 1` more reads as `n`. */
  lemma ContinuationStep(s: string, b: nat, n: nat, more: seq<nat>)
    requires n >= 1 && EscapeAt(s) == Some(b) && 0x80 <= b < 0xC0
    requires Continuations(s[3..], n - 1) == Some(more)
    ensures Continuations(s, n) == Some([b - 0x80] + more)
  {
  }

  /** One character's escapes decode to that character, before whatever follows. */
  lemma DecodeEscapedChar(c: char, rest: string)
    ensures DecodeUri(EscapeBytes(Utf8(c)) + rest) == Prepend(c, DecodeUri(rest))
  {
    var bytes := Utf8(c);
    var s := EscapeBytes(bytes) + rest;
    EscapeBytesFront(bytes, rest);
    var n := |bytes|;
    assert s[3 * n..] == rest;
    if n > 1 {
      var groups := Utf8Groups(c);
      Utf8Split(c);
      ContinuationsOf(groups, rest);
      CodePointOf(c);
      DecodeSequence(s, bytes[0], n, groups, c);
    }
  }

  /** An escaped lead byte of an `n`-byte sequence and its continuations
      decode to the character they rebuild. */
  lemma DecodeSequence(s: string, lead: nat, n: nat, groups: seq<nat>, c: char)
    requires EscapeAt(s) == Some(lead) && LeadLength(lead) == n && n >= 2
    requires Continuations(s[3..], n - 1) == Some(groups)
    requires Accumulate(LeadBits(lead, n), groups) == c as int && ShortestScalar(c as int, n)
    ensures |s| >= 3 * n && DecodeUri(s) == Prepend(c, DecodeUri(s[3 * n..]))
  {
  }

  lemma TwoBytes(cp: nat)
    requires 0x80 <= cp < 0x800
    ensures LeadLength(0xC0 + cp / 64) == 2
    ensures Accumulate(LeadBits(0xC0 + cp / 64, 2), [cp % 64]) == cp
  {
    assert LeadBits(0xC0 + cp / 64, 2) == cp / 64;
    assert [cp % 64][1..] == [];
  }

  lemma ThreeBytes(cp: nat)
    requires 0x800 <= cp < 0x10000
    ensures LeadLength(0xE0 + cp / 4096) == 3
    ensures Accumulate(LeadBits(0xE0 + cp / 4096, 3), [cp / 64 % 64, cp % 64]) == cp
  {
    var q := cp / 64;
    assert cp / 4096 == q / 64;
    assert LeadBits(0xE0 + cp / 4096, 3) == q / 64;
    assert [q % 64, cp % 64][1..] == [cp % 64];
    assert Accumulate(q / 64, [q % 64, cp % 64]) == Accumulate(q / 64 * 64 + q % 64, [cp % 64]);
    assert q / 64 * 64 + q % 64 == q;
    assert Accumulate(q, [cp % 64]) == q * 64 + cp % 64 == cp;
  }

  lemma FourBytes(cp: nat)
    requires 0x10000 <= cp <= 0x10FFFF
    ensures LeadLength(0xF0 + cp / 262144) == 4
    ensures Accumulate(LeadBits(0xF0 + cp / 262144, 4), [cp / 4096 % 64, cp / 64 % 64, cp % 64]) == cp
  {
    var q := cp / 64;
    var p := q / 64;
    assert cp / 4096 == p && cp / 262144 == p / 64;
    assert LeadBits(0xF0 + cp / 262144, 4) == p / 64;
    assert [p % 64, q % 64, cp % 64][1..] == [q % 64, cp % 64];
    assert [q % 64, cp % 64][1..] == [cp % 64];
    assert Accumulate(p / 64, [p % 64, q % 64, cp % 64]) == Accumulate(p / 64 * 64 + p % 64, [q % 64, cp % 64]);
    assert p / 64 * 64 + p % 64 == p;
    assert Accumulate(p, [q % 64, cp % 64]) == Accumulate(p * 64 + q % 64, [cp % 64]);
    assert p * 64 + q % 64 == q;
    assert Accumulate(q, [cp % 64]) == q * 64 + cp % 64 == cp;
  }

  /** The lead's bits and the continuation groups rebuild the code point. */
  lemma CodePointOf(c: char)
    requires c as int >= 0x80
    ensures var bytes := Utf8(c); var n := |bytes|;
      LeadLength(bytes[0]) == n
      && Accumulate(LeadBits(bytes[0], n), Utf8Groups(c)) == c as int
      && ShortestScalar(c as int, n)
  {
    var cp := c as int;
    if cp < 0x800 {
      TwoBytes(cp);
    } else if cp < 0x10000 {
      ThreeBytes(cp);
    } else {
      FourBytes(cp);
    }
  }

  /** `decodeURIComponent` undoes percent-encoding: the two are inverse. */
  lemma {:induction false} DecodeEscapeAll(s: string)
    ensures DecodeUri(EscapeAll(s)) == Some(s)
  {
    if s != [] {
      DecodeEscapeAll(s[1..]);
      DecodeEscapedChar(s[0], EscapeAll(s[1..]));
      assert [s[0]] + s[1..] == s;
    }
  }

  /** The characters percent-encoding writes. */
  predicate EscapeChar(c: char)
  {
    c == '%' || '0' <= c <= '9' || 'A' <= c <= 'F'
  }

  lemma {:induction false} EscapeBytesChars(bytes: seq<nat>)
    requires forall i :: 0 <= i < |bytes| ==> bytes[i] < 256
    ensures forall i :: 0 <= i < |EscapeBytes(bytes)| ==> EscapeChar(EscapeBytes(bytes)[i])
  {
    if bytes != [] {
      EscapeBytesChars(bytes[1..]);
      var head := ByteEscape(bytes[0]);
      assert forall i :: 0 <= i < 3 ==> EscapeChar(head[i]);
    }
  }

  /** Percent-encoded text is non-empty for non-empty text and holds only `%`
      and upper-case hexadecimal digits. */
  lemma {:induction false} EscapeAllChars(s: string)
    ensures s != [] ==> EscapeAll(s) != []
    ensures forall i :: 0 <= i < |EscapeAll(s)| ==> EscapeChar(EscapeAll(s)[i])
  {
    if s != [] {
      EscapeAllChars(s[1..]);
      EscapeBytesChars(Utf8(s[0]));
      var t := EscapeAll(s);
      var head := EscapeBytes(Utf8(s[0]));
      forall i | 0 <= i < |t| ensures EscapeChar(t[i]) {
        if i < |head| {
          assert t[i] == head[i];
        } else {
          assert t[i] == EscapeAll(s[1..])[i - |head|];
        }
      }
    }
  }

  /** A truncated escape and a lone continuation byte both throw. */
  lemma MalformedEscapes()
    ensures DecodeUri("%E0%A4%A") == None
    ensures DecodeUri("%80") == None
    ensures DecodeUri("%") == None
  {
    assert EscapeAt("%E0%A4%A") == Some(0xE0);
    assert "%E0%A4%A"[3..] == "%A4%A";
    assert EscapeAt("%A4%A") == Some(0xA4);
    assert "%A4%A"[3..] == "%A";
    assert Continuations("%A", 1) == None;
    assert EscapeAt("%80") == Some(0x80);
  }

  /** `Number(s)` where the program needs an integer: `None` for NaN, the
      infinities and fractional values. */
  function NumberOf(s: string): (r: Option<int>)
    ensures AllDigits(s) && s != [] ==> r == Some(DigitsValue(s))
    ensures r.Some? <==> ToNumber(s).Finite? && ToNumber(s).value.Floor as real == ToNumber(s).value
    ensures r.Some? ==> ToNumber(s) == Finite(r.value as real)
  {
    DigitsNumberIf(s);
    match ToNumber(s)
    case Finite(v) => if v.Floor as real == v then Some(v.Floor) else None
    case _ => None
  }

  lemma DigitsTrimmed(s: string)
    ensures AllDigits(s) ==> Trim(s) == s
  {
    if AllDigits(s) {
      assert forall i :: 0 <= i < |s| ==> !IsSpace(s[i]) by {
        forall i | 0 <= i < |s| ensures !IsSpace(s[i]) { assert IsDigit(s[i]); }
      }
      TrimNoSpace(s);
    }
  }

  /** The position of the first `c` in `s`. */
  function FirstIndex(s: string, c: char): (i: nat)
    requires HasChar(s, c)
    ensures i < |s| && s[i] == c && !HasChar(s[..i], c)
  {
    if s[0] == c then 0 else
      assert HasChar(s[1..], c) by {
        var j :| 0 <= j < |s| && s[j] == c;
        assert s[1..][j - 1] == c;
      }
      var j := FirstIndex(s[1..], c);
      assert s[..j + 1] == [s[0]] + s[1..][..j];
      j + 1
  }

  /** The text after the last `c` in `s`, or all of `s` when there is none:
      `s.split(c).pop()`. */
  function AfterLast(s: string, c: char): (r: string)
    ensures EndsWith(s, r) && !HasChar(r, c)
    ensures |r| < |s| ==> s[|s| - |r| - 1] == c
    decreases |s|
  {
    if s == [] then []
    else if s[|s| - 1] == c then []
    else
      var p := s[..|s| - 1];
      var r := AfterLast(p, c);
      assert p[|p| - |r|..] == r;
      var q := r + [s[|s| - 1]];
      assert s[|s| - |q|..] == q;
      assert |q| < |s| ==> s[|s| - |q| - 1] == p[|p| - |r| - 1];
      assert !HasChar(q, c) by {
        forall i | 0 <= i < |q| ensures q[i] != c {
          if i < |r| { assert q[i] == r[i]; }
        }
      }
      q
  }
}

/** JavaScript values as this program handles them: JSON data, property
    access, truthiness, `String(v)` and object spread. JSON numbers are
    integers here; fractional progress values live in typed records instead. */
module Json {
  import opened Common
  import opened Text

  datatype Json =
    | JNull
    | JBool(b: bool)
    | JNum(n: int)
    | JStr(s: string)
    | JArr(items: seq<Json>)
    | JObj(fields: map<string, Json>)

  /** A plain object: property name to value; an absent name reads as `undefined`. */
  type Record = map<string, Json>

  /** `r.k`, where `None` is `undefined`. */
  function Field(r: Record, k: string): Option<Json>
  {
    if k in r then Some(r[k]) else None
  }

  /** `v?.k` on any value: only objects carry the named properties this program reads. */
  function Prop(v: Option<Json>, k: string): Option<Json>
  {
    if v.Some? && v.value.JObj? then Field(v.value.fields, k) else None
  }

  /** JavaScript truthiness, with `None` standing for `undefined`. */
  predicate Truthy(v: Option<Json>)
  {
    match v
    case None => false
    case Some(JNull) => false
    case Some(JBool(b)) => b
    case Some(JNum(n)) => n != 0
    case Some(JStr(s)) => s != ""
    case Some(_) => true
  }

  /** `v || d` */
  function Or(v: Option<Json>, d: Json): (r: Json)
    ensures Truthy(v) ==> Some(r) == v
    ensures !Truthy(v) ==> r == d
  {
    if Truthy(v) then v.value else d
  }

  /** `String(v)` and `${v}`. */
  function Show(v: Option<Json>): string
  {
    match v
    case None => "undefined"
    case Some(j) => ShowValue(j, false)
  }

  function ShowValue(j: Json, inArray: bool): string
  {
    match j
    case JNull => if inArray then "" else "null"
    case JBool(b) => if b then "true" else "false"
    case JNum(n) => IntToString(n)
    case JStr(s) => s
    case JArr(items) => JoinShown(items)
    case JObj(_) => "[object Object]"
  }

  /** `items.join(",")`: null elements print as the empty string. */
  function JoinShown(items: seq<Json>): string
  {
    if items == [] then ""
    else if |items| == 1 then ShowValue(items[0], true)
    else ShowValue(items[0], true) + "," + JoinShown(items[1..])
  }

  /** `{ ...v }`: own enumerable properties of `v`; strings and arrays spread
      their indices, other primitives contribute nothing. */
  function Spread(v: Json): (r: Record)
    ensures v.JObj? ==> r == v.fields
  {
    NatToStringInjective();
    match v
    case JObj(f) => f
    case JArr(items) => map i | 0 <= i < |items| :: NatToString(i) := items[i]
    case JStr(s) => map i | 0 <= i < |s| :: NatToString(i) := JStr([s[i]])
    case _ => map[]
  }

  /** A property whose name does not start with a digit is never an index, so
      `{ ...v }` has it exactly when `v` itself does. */
  lemma SpreadNamedProp(v: Json, k: string)
    requires |k| > 0 && !IsDigit(k[0])
    ensures Field(Spread(v), k) == Prop(Some(v), k)
  {
  }


  /** Reading a property of a parsed reply throws: the request or the parse
      threw (`None`), or the body is `null` (a `TypeError`). */
  predicate ReadThrows(v: Option<Json>)
  {
    v.None? || v.value == JNull
  }

  /** The message of the `TypeError` that reading `prop` of `null` throws, in
      the wording of the V8 engine. */
  function NullReadMessage(prop: string): string
  {
    "Cannot read properties of null (reading '" + prop + "')"
  }

  /** The message of the `TypeError` that reading `prop` of `undefined`
      throws, in the wording of the V8 engine. */
  function UndefinedReadMessage(prop: string): string
  {
    "Cannot read properties of undefined (reading '" + prop + "')"
  }

  // ---------------------------------------------------------------------
  // `Object.keys` order (OrdinaryOwnPropertyKeys, section 10.1.11.1 of
  // ECMA-262): array-index keys first in ascending numeric order, then the
  // other string keys in the order they were added.
  // ---------------------------------------------------------------------

  /** An array index as a property key: the canonical decimal text of an
      integer below 2^32 - 1. */
  predicate IsIndexKey(k: string)
  {
    k != [] && AllDigits(k) && (k[0] != '0' || |k| == 1) && DigitsValue(k) < 0xFFFF_FFFF
  }

  /** The number an index key names (0 for other keys). */
  function KeyNumber(k: string): nat
  {
    if AllDigits(k) then DigitsValue(k) else 0
  }

  predicate AllIndexKeys(s: seq<string>)
  {
    forall i :: 0 <= i < |s| ==> IsIndexKey(s[i])
  }

  /** Keys in ascending numeric order. */
  predicate Ascending(s: seq<string>)
  {
    forall i, j :: 0 <= i < j < |s| ==> KeyNumber(s[i]) <= KeyNumber(s[j])
  }

  /** One index key put into its place among ascending ones. */
  function InsertIndex(k: string, sorted: seq<string>): (r: seq<string>)
    ensures multiset(r) == multiset(sorted) + multiset{k}
    ensures |r| == |sorted| + 1
    ensures forall x :: x in r ==> x == k || x in sorted
  {
    if sorted == [] || KeyNumber(k) <= KeyNumber(sorted[0]) then [k] + sorted
    else
      assert sorted == [sorted[0]] + sorted[1..];
      [sorted[0]] + InsertIndex(k, sorted[1..])
  }

  lemma {:induction false} InsertIndexAscending(k: string, sorted: seq<string>)
    requires Ascending(sorted)
    ensures Ascending(InsertIndex(k, sorted))
  {
    if !(sorted == [] || KeyNumber(k) <= KeyNumber(sorted[0])) {
      var rest := InsertIndex(k, sorted[1..]);
      InsertIndexAscending(k, sorted[1..]);
      var r := [sorted[0]] + rest;
      forall i, j | 0 <= i < j < |r| ensures KeyNumber(r[i]) <= KeyNumber(r[j]) {
        if i == 0 {
          assert r[j] == rest[j - 1] && rest[j - 1] in rest;
          if r[j] != k {
            var m :| 0 <= m < |sorted[1..]| && sorted[1..][m] == r[j];
            assert sorted[m + 1] == r[j];
          }
        } else {
          assert r[i] == rest[i - 1] && r[j] == rest[j - 1];
        }
      }
    }
  }

  /** The index keys of `keys`, in their own order. */
  function IndexKeysOf(keys: seq<string>): (r: seq<string>)
    ensures AllIndexKeys(r)
  {
    if keys == [] then [] else (if IsIndexKey(keys[0]) then [keys[0]] else []) + IndexKeysOf(keys[1..])
  }

  /** The other keys of `keys`, in their own order. */
  function OtherKeysOf(keys: seq<string>): (r: seq<string>)
    ensures forall i :: 0 <= i < |r| ==> !IsIndexKey(r[i])
  {
    if keys == [] then [] else (if IsIndexKey(keys[0]) then [] else [keys[0]]) + OtherKeysOf(keys[1..])
  }

  /** The index keys of `keys`, sorted. */
  function SortIndices(keys: seq<string>): (r: seq<string>)
    ensures multiset(r) == multiset(IndexKeysOf(keys))
    ensures |r| == |IndexKeysOf(keys)|
  {
    if keys == [] then []
    else if IsIndexKey(keys[0]) then InsertIndex(keys[0], SortIndices(keys[1..]))
    else SortIndices(keys[1..])
  }

  lemma SortIndicesKeys(keys: seq<string>)
    ensures AllIndexKeys(SortIndices(keys))
  {
    var r := SortIndices(keys);
    var ix := IndexKeysOf(keys);
    forall i | 0 <= i < |r| ensures IsIndexKey(r[i]) {
      assert r[i] in multiset(r);
      assert r[i] in multiset(ix);
      var m :| 0 <= m < |ix| && ix[m] == r[i];
    }
  }

  lemma {:induction false} SortIndicesSorted(keys: seq<string>)
    ensures Ascending(SortIndices(keys))
  {
    if keys != [] {
      SortIndicesSorted(keys[1..]);
      if IsIndexKey(keys[0]) {
        InsertIndexAscending(keys[0], SortIndices(keys[1..]));
      }
    }
  }

  lemma {:induction false} SplitKeys(keys: seq<string>)
    ensures multiset(IndexKeysOf(keys)) + multiset(OtherKeysOf(keys)) == multiset(keys)
  {
    if keys != [] {
      SplitKeys(keys[1..]);
      assert keys == [keys[0]] + keys[1..];
    }
  }

  lemma {:induction false} NoIndexKeys(keys: seq<string>)
    requires forall i :: 0 <= i < |keys| ==> !IsIndexKey(keys[i])
    ensures IndexKeysOf(keys) == [] && OtherKeysOf(keys) == keys
  {
    if keys != [] {
      NoIndexKeys(keys[1..]);
      assert keys == [keys[0]] + keys[1..];
    }
  }

  /** `Object.keys` of an object whose keys were added in the order `keys`:
      the same keys, the index keys first and ascending, then the others as
      they were added. */
  function ObjectKeys(keys: seq<string>): (r: seq<string>)
    ensures multiset(r) == multiset(keys)
    ensures |SortIndices(keys)| <= |r|
    ensures var n := |SortIndices(keys)|;
      AllIndexKeys(r[..n]) && Ascending(r[..n]) && r[n..] == OtherKeysOf(keys)
  {
    SplitKeys(keys);
    SortIndicesSorted(keys);
    SortIndicesKeys(keys);
    var r := SortIndices(keys) + OtherKeysOf(keys);
    assert r[..|SortIndices(keys)|] == SortIndices(keys);
    r
  }

  /** Without index keys the order is the order the keys were added in. */
  lemma ObjectKeysInsertionOrder(keys: seq<string>)
    requires forall i :: 0 <= i < |keys| ==> !IsIndexKey(keys[i])
    ensures ObjectKeys(keys) == keys
  {
    NoIndexKeys(keys);
  }

  /** An index key added after a larger one is listed before it. */
  lemma IndexKeysAscend(a: string, b: string)
    requires IsIndexKey(a) && IsIndexKey(b) && KeyNumber(b) < KeyNumber(a)
    ensures ObjectKeys([a, b]) == [b, a]
  {
    assert [a, b][1..] == [b] && [b][1..] == [];
    assert SortIndices([b]) == [b];
    assert SortIndices([a, b]) == InsertIndex(a, [b]) == [b, a];
    assert OtherKeysOf([b]) == [] && OtherKeysOf([a, b]) == [];
  }

  /** `{ ...a, ...b }`: the properties of both, `b` winning on shared names. */
  function Merge(a: Record, b: Record): Record
  {
    a + b
  }
}
