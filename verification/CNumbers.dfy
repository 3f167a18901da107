/** How C reads numbers out of text: `strtol`, and the digit scanner of the sampling path. */
module CNumbers {
  import opened Text

  /** C's `isspace` in the "C" locale. */
  predicate IsSpace(c: char) {
    c == ' ' || '\t' <= c <= '\r'
  }

  function SkipSpace(s: string): string {
    if s != "" && IsSpace(s[0]) then SkipSpace(s[1..]) else s
  }

  /** The digits at the front of `s`. */
  function DigitRun(s: string): (d: string)
    ensures AllDigits(d)
  {
    if s != "" && IsDigit(s[0]) then [s[0]] + DigitRun(s[1..]) else ""
  }

  function Saturated(v: int): i64 {
    if v < -0x8000_0000_0000_0000 then -0x8000_0000_0000_0000
    else if v >= 0x8000_0000_0000_0000 then 0x7fff_ffff_ffff_ffff
    else v
  }

  /** `strtol(s, NULL, 10)`. */
  function StrTol(s: string): i64 {
    var t := SkipSpace(s);
    if t != "" && t[0] == '-' then
      var magnitude: int := NatOf(DigitRun(t[1..]));
      Saturated(-magnitude)
    else if t != "" && t[0] == '+' then Saturated(NatOf(DigitRun(t[1..])))
    else Saturated(NatOf(DigitRun(t)))
  }

  lemma {:induction false} DigitRunStops(x: string, y: string)
    requires AllDigits(x) && (y == "" || !IsDigit(y[0]))
    ensures DigitRun(x + y) == x
  {
    if x == "" {
      assert x + y == y;
    } else {
      assert (x + y)[1..] == x[1..] + y;
      DigitRunStops(x[1..], y);
    }
  }

  /** `strtol` undoes `%ld`, whatever non-digit follows. */
  lemma StrTolOfDec(v: int, y: string)
    requires -0x8000_0000_0000_0000 <= v < 0x8000_0000_0000_0000
    requires y == "" || !IsDigit(y[0])
    ensures StrTol(Dec(v) + y) == v
  {
    var s := Dec(v) + y;
    ParseDec(v);
    assert s[0] == Dec(v)[0] && NumeralChar(s[0]);
    assert SkipSpace(s) == s;
    if v < 0 {
      assert s[1..] == Digits(-v) + y;
      DigitRunStops(Digits(-v), y);
      NatOfDigits(-v);
    } else {
      assert IsDigit(s[0]);
      DigitRunStops(Digits(v), y);
      NatOfDigits(v);
    }
  }

  predicate Blank(w: string) {
    forall c :: c in w ==> c in {' ', '\t', '\n', '\U{000B}', '\U{000C}', '\r'}
  }

  lemma {:induction false} SkipBlank(w: string, s: string)
    requires Blank(w) && (s == "" || !IsSpace(s[0]))
    ensures SkipSpace(w + s) == s
  {
    if w == "" {
      assert w + s == s;
    } else {
      assert w[0] in w && forall c :: c in w[1..] ==> c in w;
      assert (w + s)[1..] == w[1..] + s;
      SkipBlank(w[1..], s);
    }
  }

  /** A numeral as C reads it: white space, a sign or none, digits, and whatever follows. */
  predicate Numeral(w: string, sign: string, digits: string, y: string) {
    && Blank(w) && sign in {"", "+", "-"} && AllDigits(digits) && (sign == "" ==> digits != "")
    && (y == "" || !IsDigit(y[0]))
  }

  lemma NumeralBody(w: string, sign: string, digits: string, y: string)
    requires Numeral(w, sign, digits, y)
    ensures var t := SkipSpace(w + (sign + (digits + y)));
            t == sign + (digits + y) && t != "" && DigitRun(digits + y) == digits &&
            (sign == "" ==> IsDigit(t[0])) && (sign != "" ==> t[0] == sign[0] && t[1..] == digits + y)
  {
    var t := sign + (digits + y);
    DigitRunStops(digits, y);
    if sign == "" {
      assert t[0] == digits[0] && IsDigit(digits[0]);
    } else {
      assert t[1..] == digits + y;
    }
    SkipBlank(w, t);
  }

  /** `strtol` on every numeral: its value, at most the largest and at least the smallest of 64 bits. */
  lemma StrTolExactly(w: string, sign: string, digits: string, y: string)
    requires Numeral(w, sign, digits, y)
    ensures var v: int := if sign == "-" then -(NatOf(digits) as int) else NatOf(digits);
            StrTol(w + (sign + (digits + y))) ==
            if v >= 0x8000_0000_0000_0000 then 0x7fff_ffff_ffff_ffff
            else if v <= -0x8000_0000_0000_0000 then -0x8000_0000_0000_0000
            else v
  {
    NumeralBody(w, sign, digits, y);
    var t := SkipSpace(w + (sign + (digits + y)));
    if sign == "" {
      assert t == digits + y;
    } else {
      assert sign[0] == '-' || sign[0] == '+';
    }
  }

  /** Text that starts with anything else is no number: `strtol` gives 0. */
  lemma StrTolOther(w: string, s: string)
    requires Blank(w)
    requires s == "" || (s[0] !in {' ', '\t', '\n', '\U{000B}', '\U{000C}', '\r', '+', '-'} && !IsDigit(s[0]))
    ensures StrTol(w + s) == 0
  {
    SkipBlank(w, s);
  }

  lemma Pow10Plus5(k: nat)
    ensures Pow10(k + 5) == 100_000 * Pow10(k)
  {
    assert Pow10(k + 2) == 100 * Pow10(k);
    assert Pow10(k + 4) == 100 * Pow10(k + 2);
  }

  // ---- Unsigned 64-bit scanning -------------------------------------------------------

  const U64: nat := 0x1_0000_0000_0000_0000

  /** Unsigned 64-bit arithmetic: the value modulo 2^64 (`WrapIsMod`). */
  function Wrap(x: int): (r: nat)
    ensures r < U64
    decreases if x < 0 then U64 - x else x
  {
    if x < 0 then Wrap(x + U64) else if x >= U64 then Wrap(x - U64) else x
  }

  lemma {:induction false} WrapIsMod(x: int)
    ensures Wrap(x) == x % U64
    decreases if x < 0 then U64 - x else x
  {
    if x < 0 {
      WrapIsMod(x + U64);
    } else if x >= U64 {
      WrapIsMod(x - U64);
    }
  }

  lemma WrapExactly(x: int)
    ensures Wrap(x) == x % 0x1_0000_0000_0000_0000
  {
    WrapIsMod(x);
  }

  predicate NoDigits(s: string) {
    forall i :: 0 <= i < |s| ==> !IsDigit(s[i])
  }

  function SkipToDigit(s: string): string {
    if s != "" && !IsDigit(s[0]) then SkipToDigit(s[1..]) else s
  }

  /** The next run of digits, modulo 2^64. */
  function Number(s: string): nat {
    Wrap(NatOf(DigitRun(SkipToDigit(s))))
  }

  lemma {:induction false} DigitRunPrefix(s: string)
    ensures DigitRun(s) <= s
  {
    if s == "" || !IsDigit(s[0]) {
    } else {
      DigitRunPrefix(s[1..]);
    }
  }

  /** The text behind that run. */
  function Behind(s: string): string {
    var t := SkipToDigit(s);
    DigitRunPrefix(t);
    t[|DigitRun(t)|..]
  }

  lemma {:induction false} SkipGap(gap: string, y: string)
    requires NoDigits(gap)
    ensures SkipToDigit(gap + y) == SkipToDigit(y)
  {
    if gap == "" {
      assert gap + y == y;
    } else {
      assert (gap + y)[1..] == gap[1..] + y;
      SkipGap(gap[1..], y);
    }
  }

  /** A printed number behind text without digits is the next number, and the rest is what follows it. */
  lemma NextPrinted(gap: string, v: nat, rest: string)
    requires NoDigits(gap) && (rest == "" || !IsDigit(rest[0]))
    ensures Number(gap + (Digits(v) + rest)) == Wrap(v)
    ensures Behind(gap + (Digits(v) + rest)) == rest
  {
    var y := Digits(v) + rest;
    SkipGap(gap, y);
    assert y[0] == Digits(v)[0];
    DigitRunStops(Digits(v), rest);
    NatOfDigits(v);
    assert y[|Digits(v)|..] == rest;
  }

  lemma WrapShift(x: int, k: int)
    ensures Wrap(x + U64 * k) == Wrap(x)
  {
    WrapIsMod(x);
    WrapIsMod(x + U64 * k);
  }

  /** Wrapping at every digit or once at the end is the same. */
  lemma WrapDigit(a: nat, d: nat)
    ensures Wrap(Wrap(a) * 10 + d) == Wrap(10 * a + d)
  {
    WrapIsMod(a);
    WrapShift(Wrap(a) * 10 + d, 10 * (a / U64));
  }

  lemma WrapScale(x: int, k: nat)
    ensures Wrap(Wrap(x) * k) == Wrap(x * k)
  {
    WrapIsMod(x);
    assert x * k == Wrap(x) * k + U64 * ((x / U64) * k);
    WrapShift(Wrap(x) * k, (x / U64) * k);
  }
}
