/** Strings as the C and Rust code see them: substring search, bounded copies and decimal text. */
module Text {
  datatype Option<+T> = None | Some(value: T)

  type i32 = x: int | -0x8000_0000 <= x < 0x8000_0000
  type i64 = x: int | -0x8000_0000_0000_0000 <= x < 0x8000_0000_0000_0000

  /** What a bounded copy of `s` keeps: at most `n` characters. */
  function Take<T>(s: seq<T>, n: nat): seq<T> {
    if |s| <= n then s else s[..n]
  }

  /** The last `n` elements. */
  function Last<T>(s: seq<T>, n: nat): seq<T> {
    if |s| <= n then s else s[|s| - n..]
  }

  // ---- Substring search -------------------------------------------------

  /** The text behind the first occurrence of `n` in `s` (`strstr` and then a step over the needle). */
  function After(s: string, n: string): Option<string> {
    if n <= s then Some(s[|n|..]) else if s == "" then None else After(s[1..], n)
  }

  predicate Contains(s: string, n: string) {
    After(s, n).Some?
  }

  /** `After` really is the first occurrence, and fails only when there is none. */
  lemma {:induction false} AfterIsFirst(s: string, n: string)
    ensures After(s, n).None? ==> forall i :: 0 <= i <= |s| ==> !(n <= s[i..])
    ensures After(s, n).Some? ==>
              exists i :: 0 <= i <= |s| && n <= s[i..] && After(s, n).value == s[i..][|n|..] &&
                          forall j :: 0 <= j < i ==> !(n <= s[j..])
  {
    if n <= s {
      assert s[0..] == s;
    } else if s != "" {
      AfterIsFirst(s[1..], n);
      forall i | 1 <= i <= |s| ensures s[i..] == s[1..][i - 1..] {}
      assert s[0..] == s;
      if After(s, n).Some? {
        var k :| 0 <= k <= |s[1..]| && n <= s[1..][k..] && After(s[1..], n).value == s[1..][k..][|n|..] &&
                 forall j :: 0 <= j < k ==> !(n <= s[1..][j..]);
        assert s[k + 1..] == s[1..][k..];
        assert forall j :: 0 <= j < k + 1 ==> !(n <= s[j..]);
      }
    }
  }

  /** Text that does not contain the needle's first character cannot start an occurrence. */
  lemma {:induction false} SkipForeign(x: string, y: string, n: string)
    requires n != "" && n[0] !in x
    ensures After(x + y, n) == After(y, n)
  {
    if x == "" {
      assert x + y == y;
    } else {
      assert (x + y)[0] == x[0] && (x + y)[1..] == x[1..] + y;
      assert x[0] in x && (forall c :: c in x[1..] ==> c in x);
      SkipForeign(x[1..], y, n);
    }
  }

  /** One character that starts no occurrence can be skipped. */
  lemma SkipOne(y: string, n: string)
    requires y != "" && !(n <= y)
    ensures After(y, n) == After(y[1..], n)
  {
  }

  /** A needle without the character `c` never straddles a `c`. */
  lemma {:induction false} SkipWord(x: string, y: string, n: string, c: char)
    requires c !in n && n != ""
    requires y == "" || y[0] == c
    requires !Contains(x, n)
    ensures After(x + y, n) == After(y, n)
  {
    if x == "" {
      assert x + y == y;
    } else {
      assert y != "" ==> (x + y)[|x|] == c;
      assert |n| <= |x| && n <= x + y ==> n <= x;
      assert (x + y)[1..] == x[1..] + y;
      SkipWord(x[1..], y, n, c);
    }
  }

  /** Joining two needle-free texts with a character foreign to the needle adds no occurrence. */
  lemma NoOccurrenceJoin(x: string, y: string, n: string, c: char)
    requires c !in n && n != "" && !Contains(x, n) && !Contains(y, n)
    ensures !Contains(x + [c] + y, n)
  {
    assert x + [c] + y == x + ([c] + y);
    SkipWord(x, [c] + y, n, c);
    SkipForeign([c], y, n);
  }

  /** The part of `s` in front of its first `c` (all of it when there is none): the end of a C token. */
  function UpTo(s: string, stop: set<char>): string {
    if s == "" || s[0] in stop then "" else [s[0]] + UpTo(s[1..], stop)
  }

  lemma {:induction false} UpToStops(x: string, y: string, stop: set<char>)
    requires forall c :: c in x ==> c !in stop
    requires y == "" || y[0] in stop
    ensures UpTo(x + y, stop) == x
  {
    if x == "" {
      assert x + y == y;
    } else {
      assert (x + y)[0] == x[0] && (x + y)[1..] == x[1..] + y;
      assert x[0] in x && (forall c :: c in x[1..] ==> c in x);
      UpToStops(x[1..], y, stop);
    }
  }

  lemma {:induction false} UpToAll(s: string, stop: set<char>)
    ensures UpTo(s, stop) <= s
    ensures forall c :: c in UpTo(s, stop) ==> c !in stop
    ensures |UpTo(s, stop)| < |s| ==> s[|UpTo(s, stop)|] in stop
  {
    if s == "" || s[0] in stop {
    } else {
      UpToAll(s[1..], stop);
    }
  }

  /** Rust's `split(c)`. */
  function Split(s: string, c: char): seq<string>
    decreases |s|
  {
    var head := UpTo(s, {c});
    UpToAll(s, {c});
    if |head| == |s| then [s] else [head] + Split(s[|head| + 1..], c)
  }

  lemma SplitNone(s: string, c: char)
    requires c !in s
    ensures Split(s, c) == [s]
  {
    UpToStops(s, "", {c});
    assert s + "" == s;
  }

  lemma {:induction false} SplitLast(a: string, b: string, c: char)
    requires c !in b
    ensures Split(a + ([c] + b), c) == Split(a, c) + [b]
    decreases |a|
  {
    var s := a + ([c] + b);
    var head := UpTo(a, {c});
    UpToAll(a, {c});
    if |head| == |a| {
      UpToStops(a, [c] + b, {c});
      assert s[|a| + 1..] == b;
      UpToStops(b, "", {c});
      assert b + "" == b;
    } else {
      var rest := a[|head|..];
      assert a == head + rest;
      UpToStops(head, rest + ([c] + b), {c});
      assert s == head + (rest + ([c] + b));
      assert s[|head| + 1..] == a[|head| + 1..] + ([c] + b);
      SplitLast(a[|head| + 1..], b, c);
    }
  }

  // ---- Decimal text -----------------------------------------------------

  predicate IsDigit(c: char) {
    '0' <= c <= '9'
  }

  predicate AllDigits(s: string) {
    forall i :: 0 <= i < |s| ==> IsDigit(s[i])
  }

  function DigitChar(d: nat): (c: char)
    requires d < 10
    ensures IsDigit(c)
  {
    '0' + d as char
  }

  function DigitValue(c: char): (d: nat)
    requires IsDigit(c)
    ensures d < 10
  {
    (c - '0') as nat
  }

  /** The number a run of decimal digits denotes. */
  function NatOf(s: string): nat
    requires AllDigits(s)
  {
    if s == "" then 0 else 10 * NatOf(s[..|s| - 1]) + DigitValue(s[|s| - 1])
  }

  /** `%d` / `to_string` of a natural number. */
  function Digits(n: nat): (s: string)
    ensures s != "" && AllDigits(s)
  {
    if n < 10 then [DigitChar(n)] else Digits(n / 10) + [DigitChar(n % 10)]
  }

  /** `%d` / `%ld` / `to_string` of an integer. */
  function Dec(n: int): string {
    if n < 0 then "-" + Digits(-n) else Digits(n)
  }

  lemma {:induction false} NatOfDigits(n: nat)
    ensures NatOf(Digits(n)) == n
  {
    if n < 10 {
    } else {
      NatOfDigits(n / 10);
      var s := Digits(n / 10) + [DigitChar(n % 10)];
      assert s[..|s| - 1] == Digits(n / 10);
    }
  }

  function Pow10(k: nat): nat {
    if k == 0 then 1 else 10 * Pow10(k - 1)
  }

  lemma {:induction false} DigitsLength(n: nat, k: nat)
    requires k >= 1 && n < Pow10(k)
    ensures |Digits(n)| <= k
  {
    if n < 10 {
    } else {
      DigitsLength(n / 10, k - 1);
    }
  }

  /** Rust's `str::parse` for integers: an optional sign, then one or more digits and nothing else. */
  function ParseInt(s: string): Option<int> {
    if s != "" && (s[0] == '-' || s[0] == '+') then
      if |s| > 1 && AllDigits(s[1..]) then
        var magnitude: int := NatOf(s[1..]);
        Some(if s[0] == '-' then -magnitude else magnitude)
      else None
    else if s != "" && AllDigits(s) then Some(NatOf(s))
    else None
  }

  function ParseI32(s: string): Option<int> {
    match ParseInt(s)
    case Some(v) => if -0x8000_0000 <= v < 0x8000_0000 then Some(v) else None
    case None => None
  }

  function ParseI64(s: string): Option<int> {
    match ParseInt(s)
    case Some(v) => if -0x8000_0000_0000_0000 <= v < 0x8000_0000_0000_0000 then Some(v) else None
    case None => None
  }

  predicate NumeralChar(c: char) {
    IsDigit(c) || c == '-'
  }

  predicate AllNumeral(s: string) {
    forall i :: 0 <= i < |s| ==> NumeralChar(s[i])
  }

  /** Printing and parsing an integer are inverses; the text is digits with at most a leading minus. */
  lemma ParseDec(n: int)
    ensures ParseInt(Dec(n)) == Some(n)
    ensures Dec(n) != "" && AllNumeral(Dec(n))
  {
    if n < 0 {
      NatOfDigits(-n);
      assert Dec(n)[1..] == Digits(-n);
    } else {
      NatOfDigits(n);
      assert IsDigit(Digits(n)[0]);
    }
  }
}
