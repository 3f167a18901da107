/** The sampling path of the monitor: numbers read in place from NUL-terminated buffers. */
module HotParsers {
  import opened Text
  import opened CNumbers
  import opened CReaders

  lemma OneMoreDigit(run: string, c: char, v: nat)
    requires AllDigits(run) && IsDigit(c) && v == Wrap(NatOf(run))
    ensures AllDigits(run + [c]) && Wrap(v * 10 + DigitValue(c)) == Wrap(NatOf(run + [c]))
  {
    assert (run + [c])[..|run|] == run;
    WrapDigit(NatOf(run), DigitValue(c));
  }

  lemma OneMoreOfRun(run: string, c: char, rest: string)
    requires IsDigit(c)
    ensures run + DigitRun([c] + rest) == run + [c] + DigitRun(rest)
  {
    assert ([c] + rest)[1..] == rest;
  }

  /** The second loop: digits, each step modulo 2^64. */
  method ParseDigits(buf: array<char>, ghost n: nat, start: nat) returns (v: nat, q: nat)
    requires CStringIn(buf, n) && start <= n
    ensures start <= q <= n && v == Wrap(NatOf(DigitRun(buf[start..n]))) && q == start + |DigitRun(buf[start..n])|
  {
    q := start;
    v := 0;
    ghost var run := "";
    while IsDigit(buf[q])
      invariant start <= q <= n && |run| == q - start
      invariant AllDigits(run) && v == Wrap(NatOf(run))
      invariant DigitRun(buf[start..n]) == run + DigitRun(buf[q..n])
      decreases n - q
    {
      assert buf[q..n] == [buf[q]] + buf[q + 1..n];
      OneMoreOfRun(run, buf[q], buf[q + 1..n]);
      OneMoreDigit(run, buf[q], v);
      v := Wrap(v * 10 + DigitValue(buf[q]));
      run := run + [buf[q]];
      q := q + 1;
    }
    assert DigitRun(buf[q..n]) == "" && run + "" == run;
  }

  /** The first loop. */
  method SkipToDigitAt(buf: array<char>, ghost n: nat, p: nat) returns (q: nat)
    requires CStringIn(buf, n) && p <= n
    ensures p <= q <= n && buf[q..n] == SkipToDigit(buf[p..n])
  {
    q := p;
    while buf[q] != NUL && !IsDigit(buf[q])
      invariant p <= q <= n
      invariant SkipToDigit(buf[p..n]) == SkipToDigit(buf[q..n])
      decreases n - q
    {
      assert buf[q..n][1..] == buf[q + 1..n];
      q := q + 1;
    }
  }

  /** `parse_next_u64`: it stops at the terminator and never passes it. */
  method ParseNextU64(buf: array<char>, ghost n: nat, p: nat) returns (v: nat, q: nat)
    requires CStringIn(buf, n) && p <= n
    ensures p <= q <= n && v == Number(buf[p..n]) && buf[q..n] == Behind(buf[p..n])
  {
    var start := SkipToDigitAt(buf, n, p);
    v, q := ParseDigits(buf, n, start);
    assert buf[start..n][q - start..] == buf[q..n];
  }

  // ---- Disk statistics ------------------------------------------------------------------

  datatype DiskSample = DiskSample(
    readsCompleted: nat, readBytes: nat, writesCompleted: nat, writeBytes: nat, ioInProgress: nat, ioTimeMs: nat)

  /** What is left after `k` numbers. */
  function Rest(s: string, k: nat): string {
    if k == 0 then s else Behind(Rest(s, k - 1))
  }

  function Nth(s: string, k: nat): nat {
    Number(Rest(s, k))
  }

  /** The disk-stat parse; an unreadable or empty file leaves the sample as it was. */
  method ReadDiskStat(file: Option<string>, was: DiskSample) returns (s: DiskSample)
    ensures file.None? || file.value == "" ==> s == was
    ensures file.Some? && file.value != "" ==>
              var t := FileText(file.value, 256);
              s == DiskSample(Nth(t, 0), Wrap(Nth(t, 2) * 512), Nth(t, 4), Wrap(Nth(t, 6) * 512), Nth(t, 8), Nth(t, 9))
  {
    s := was;
    if file.Some? && file.value != "" {
      var buf, n := ReadFile(file.value, 256);
      ghost var t := FileText(file.value, 256);
      assert buf[0..n] == t;
      var v: nat, p: nat := 0, 0;
      v, p := ParseField(buf, n, t, 0, p);
      s := s.(readsCompleted := v);
      v, p := ParseField(buf, n, t, 1, p);
      v, p := ParseField(buf, n, t, 2, p);
      s := s.(readBytes := Wrap(v * 512));
      v, p := ParseField(buf, n, t, 3, p);
      v, p := ParseField(buf, n, t, 4, p);
      s := s.(writesCompleted := v);
      v, p := ParseField(buf, n, t, 5, p);
      v, p := ParseField(buf, n, t, 6, p);
      s := s.(writeBytes := Wrap(v * 512));
      v, p := ParseField(buf, n, t, 7, p);
      v, p := ParseField(buf, n, t, 8, p);
      s := s.(ioInProgress := v);
      v, p := ParseField(buf, n, t, 9, p);
      s := s.(ioTimeMs := v);
    }
  }

  /** `parse_next_u64(&p)` with `k` numbers of the text already read. */
  method ParseField(buf: array<char>, ghost n: nat, ghost text: string, ghost k: nat, p: nat) returns (v: nat, q: nat)
    requires CStringIn(buf, n) && p <= n && buf[p..n] == Rest(text, k)
    ensures q <= n && v == Nth(text, k) && buf[q..n] == Rest(text, k + 1)
  {
    v, q := ParseNextU64(buf, n, p);
  }

  /** Numbers with text without digits in front of each. */
  function Row(gaps: seq<string>, vs: seq<nat>): string
    requires |gaps| == |vs|
  {
    if vs == [] then "" else gaps[0] + (Digits(vs[0]) + Row(gaps[1..], vs[1..]))
  }

  predicate GapsOk(gaps: seq<string>) {
    forall i :: 0 <= i < |gaps| ==> NoDigits(gaps[i]) && NulFree(gaps[i]) && (i > 0 ==> gaps[i] != "")
  }

  predicate Ends(tail: string) {
    tail == "" || !IsDigit(tail[0])
  }

  lemma Assoc4(a: string, b: string, c: string, d: string)
    ensures a + (b + c) + d == a + (b + (c + d))
  {
  }

  lemma RowEnds(gaps: seq<string>, vs: seq<nat>, tail: string)
    requires |gaps| == |vs| && Ends(tail)
    requires vs != [] ==> gaps[0] != "" && NoDigits(gaps[0])
    ensures Ends(Row(gaps, vs) + tail)
  {
    if vs != [] {
      var x := Digits(vs[0]) + Row(gaps[1..], vs[1..]);
      assert (gaps[0] + x + tail)[0] == gaps[0][0];
    } else {
      assert "" + tail == tail;
    }
  }

  lemma RowStep(gaps: seq<string>, vs: seq<nat>, tail: string)
    requires |gaps| == |vs| > 0 && GapsOk(gaps) && Ends(tail)
    ensures Number(Row(gaps, vs) + tail) == Wrap(vs[0])
    ensures Behind(Row(gaps, vs) + tail) == Row(gaps[1..], vs[1..]) + tail
  {
    var rest := Row(gaps[1..], vs[1..]) + tail;
    Assoc4(gaps[0], Digits(vs[0]), Row(gaps[1..], vs[1..]), tail);
    assert |gaps| > 1 ==> gaps[1] != "" && NoDigits(gaps[1]);
    RowEnds(gaps[1..], vs[1..], tail);
    NextPrinted(gaps[0], vs[0], rest);
  }

  lemma RowFrom(gaps: seq<string>, vs: seq<nat>, tail: string, k: nat)
    requires |gaps| == |vs| && k < |vs| && GapsOk(gaps) && Ends(tail)
    ensures Number(Row(gaps[k..], vs[k..]) + tail) == Wrap(vs[k])
    ensures Behind(Row(gaps[k..], vs[k..]) + tail) == Row(gaps[k + 1..], vs[k + 1..]) + tail
  {
    assert GapsOk(gaps[k..]);
    RowStep(gaps[k..], vs[k..], tail);
    assert gaps[k..][1..] == gaps[k + 1..] && vs[k..][1..] == vs[k + 1..];
  }

  lemma {:induction false} RowRest(gaps: seq<string>, vs: seq<nat>, tail: string, k: nat)
    requires |gaps| == |vs| && k <= |vs| && GapsOk(gaps) && Ends(tail)
    ensures Rest(Row(gaps, vs) + tail, k) == Row(gaps[k..], vs[k..]) + tail
    ensures k < |vs| ==> Nth(Row(gaps, vs) + tail, k) == Wrap(vs[k])
  {
    if k == 0 {
      assert gaps[0..] == gaps && vs[0..] == vs;
    } else {
      RowRest(gaps, vs, tail, k - 1);
      RowFrom(gaps, vs, tail, k - 1);
    }
    if k < |vs| {
      RowFrom(gaps, vs, tail, k);
    }
  }

  lemma {:induction false} DigitsNulFree(s: string)
    requires AllDigits(s)
    ensures NulFree(s)
  {
    forall c | c in s ensures IsDigit(c) {
      var i :| 0 <= i < |s| && s[i] == c;
    }
  }

  lemma {:induction false} RowNulFree(gaps: seq<string>, vs: seq<nat>)
    requires |gaps| == |vs| && GapsOk(gaps)
    ensures NulFree(Row(gaps, vs))
  {
    if vs == [] {
    } else {
      RowNulFree(gaps[1..], vs[1..]);
      DigitsNulFree(Digits(vs[0]));
    }
  }

  /** Text without a NUL that fits the buffer is read whole; what follows it is cut somewhere. */
  lemma FileTextKeeps(x: string, tail: string, capacity: nat) returns (cut: string)
    requires NulFree(x) && |x| < capacity
    ensures FileText(x + tail, capacity) == x + cut && cut <= tail
  {
    var rest := Take(tail, capacity - 1 - |x|);
    assert Take(x + tail, capacity - 1) == x + rest;
    cut := CText(rest);
    UpToAll(rest, {NUL});
    assert rest == cut + rest[|cut|..];
    assert x + rest == (x + cut) + rest[|cut|..];
    UpToStops(x + cut, rest[|cut|..], {NUL});
  }

  /**
   For any ten or more 64-bit values (whatever follows the tenth), separated by text without digits: the
   sample holds fields 1, 3 (times 512), 5, 7 (times 512), 9 and 10.
   */
  lemma DiskFields(gaps: seq<string>, vs: seq<nat>, tail: string)
    requires |gaps| == |vs| == 10 && GapsOk(gaps) && Ends(tail)
    requires forall i :: 0 <= i < 10 ==> vs[i] < U64
    requires |Row(gaps, vs)| <= 255
    ensures var t := FileText(Row(gaps, vs) + tail, 256); forall k :: 0 <= k < 10 ==> Nth(t, k) == vs[k]
  {
    RowNulFree(gaps, vs);
    var cut := FileTextKeeps(Row(gaps, vs), tail, 256);
    assert cut != "" ==> cut[0] == tail[0];
    forall k | 0 <= k < 10 ensures Nth(Row(gaps, vs) + cut, k) == vs[k] {
      RowRest(gaps, vs, cut, k);
    }
  }

  /** Ten values fit the buffer whenever the gaps are at most five characters long. */
  lemma {:induction false} RowFits(gaps: seq<string>, vs: seq<nat>)
    requires |gaps| == |vs| && forall i :: 0 <= i < |vs| ==> vs[i] < U64 && |gaps[i]| <= 5
    ensures |Row(gaps, vs)| <= 25 * |vs|
  {
    if vs == [] {
    } else {
      RowFits(gaps[1..], vs[1..]);
      U64Digits(vs[0]);
    }
  }

  lemma U64Digits(v: nat)
    requires v < U64
    ensures |Digits(v)| <= 20
  {
    Pow10Plus5(0);
    Pow10Plus5(5);
    Pow10Plus5(10);
    Pow10Plus5(15);
    DigitsLength(v, 20);
  }

  // ---- /proc/meminfo ----------------------------------------------------------------------

  datatype Field = MemTotal | MemFree | MemAvailable | Buffers | Cached | SwapTotal | SwapFree

  function Label(f: Field): string {
    match f
    case MemTotal => "MemTotal:"
    case MemFree => "MemFree:"
    case MemAvailable => "MemAvailable:"
    case Buffers => "Buffers:"
    case Cached => "Cached:"
    case SwapTotal => "SwapTotal:"
    case SwapFree => "SwapFree:"
  }

  function NextLine(s: string): (t: string)
    ensures s != "" ==> |t| < |s|
  {
    var head := UpTo(s, {'\n'});
    UpToAll(s, {'\n'});
    if |head| == |s| then "" else s[|head| + 1..]
  }

  /** The number behind the last line that starts with the label; `dfl` when no line does. */
  function LastWith(s: string, tag: string, dfl: nat): nat
    decreases |s|
  {
    if s == "" then dfl
    else LastWith(NextLine(s), tag, if tag <= s then Number(s) else dfl)
  }

  datatype MemSample = MemSample(
    totalBytes: nat, availableBytes: nat, usedBytes: nat, cacheBytes: nat, swapUsedBytes: nat)

  /** The seven counters of the scan. */
  datatype Counts = Counts(
    total: nat, free: nat, avail: nat, buffers: nat, cached: nat, swapTotal: nat, swapFree: nat)

  function Get(v: Counts, f: Field): nat {
    match f
    case MemTotal => v.total
    case MemFree => v.free
    case MemAvailable => v.avail
    case Buffers => v.buffers
    case Cached => v.cached
    case SwapTotal => v.swapTotal
    case SwapFree => v.swapFree
  }

  function With(v: Counts, f: Field, x: nat): (w: Counts)
    ensures forall g: Field :: Get(w, g) == if g == f then x else Get(v, g)
  {
    match f
    case MemTotal => v.(total := x)
    case MemFree => v.(free := x)
    case MemAvailable => v.(avail := x)
    case Buffers => v.(buffers := x)
    case Cached => v.(cached := x)
    case SwapTotal => v.(swapTotal := x)
    case SwapFree => v.(swapFree := x)
  }

  /** A difference or sum of KiB counters in bytes; both operations wrap. */
  function Bytes(kib: int): (b: nat)
    ensures b == Wrap(kib * 1024)
  {
    WrapScale(kib, 1024);
    Wrap(Wrap(kib) * 1024)
  }

  function SampleOf(v: Counts): MemSample {
    MemSample(Bytes(v.total), Bytes(v.avail), Bytes(v.total - v.free - v.buffers - v.cached),
              Bytes(v.buffers + v.cached), Bytes(v.swapTotal - v.swapFree))
  }

  function ValueOf(text: string, f: Field): nat {
    LastWith(text, Label(f), 0)
  }

  /** The counters a scan of the text ends with. */
  ghost predicate Scanned(text: string, v: Counts) {
    forall f: Field :: Get(v, f) == ValueOf(text, f)
  }

  lemma LabelsDiffer(f: Field, g: Field)
    requires Label(f) <= Label(g)
    ensures f == g
  {
    var a, b := Label(f), Label(g);
    assert |a| >= 7 && |b| >= 7;
    assert a[0] == b[0] && a[3] == b[3] && a[4] == b[4];
  }

  /** No line starts with two labels. */
  lemma LabelsExclusive(s: string, f: Field, g: Field)
    requires Label(f) <= s && Label(g) <= s
    ensures f == g
  {
    if |Label(f)| <= |Label(g)| {
      LabelsDiffer(f, g);
    } else {
      LabelsDiffer(g, f);
    }
  }

  lemma NoNulInLabel(f: Field)
    ensures NUL !in Label(f)
  {
  }

  /** Scanning the whole text gives what scanning the rest gives from the counters found so far. */
  ghost predicate Found(text: string, rest: string, v: Counts) {
    forall f: Field :: ValueOf(text, f) == LastWith(rest, Label(f), Get(v, f))
  }

  lemma FoundLine(text: string, rest: string, v: Counts, f: Field)
    requires Found(text, rest, v) && rest != "" && Label(f) <= rest
    ensures Found(text, NextLine(rest), With(v, f, Number(rest)))
  {
    forall g: Field ensures Label(g) <= rest <==> g == f {
      if Label(g) <= rest {
        LabelsExclusive(rest, f, g);
      }
    }
  }

  lemma FoundNone(text: string, rest: string, v: Counts)
    requires Found(text, rest, v) && rest != "" && forall f: Field :: !(Label(f) <= rest)
    ensures Found(text, NextLine(rest), v)
  {
  }

  /** `while (*p && *p != '\n') p++; if (*p) p++;` */
  method SkipLine(buf: array<char>, ghost n: nat, p: nat) returns (q: nat)
    requires CStringIn(buf, n) && p < n
    ensures p < q <= n && buf[q..n] == NextLine(buf[p..n])
  {
    q := p;
    while buf[q] != NUL && buf[q] != '\n'
      invariant p <= q <= n
      invariant forall k :: p <= k < q ==> buf[k] != '\n'
      decreases n - q
    {
      q := q + 1;
    }
    assert buf[p..n] == buf[p..q] + buf[q..n];
    UpToStops(buf[p..q], buf[q..n], {'\n'});
    if buf[q] != NUL {
      q := q + 1;
    }
  }

  /** `strncmp(p, label, n) == 0`. */
  method HasLabel(buf: array<char>, ghost n: nat, p: nat, f: Field) returns (r: bool)
    requires CStringIn(buf, n) && p <= n
    ensures r == (Label(f) <= buf[p..n])
  {
    NoNulInLabel(f);
    r := StartsWith(buf, n, p, Label(f));
  }

  const FIELDS: seq<Field> := [MemTotal, MemFree, MemAvailable, Buffers, Cached, SwapTotal, SwapFree]

  /** The `else if` chain: the first field whose label the line starts with. */
  method LabelAt(buf: array<char>, ghost n: nat, p: nat) returns (f: Option<Field>)
    requires CStringIn(buf, n) && p <= n
    ensures f.Some? ==> Label(f.value) <= buf[p..n]
    ensures f.None? ==> forall g: Field :: !(Label(g) <= buf[p..n])
  {
    ghost var rest := buf[p..n];
    var i := 0;
    while i < |FIELDS|
      invariant 0 <= i <= |FIELDS|
      invariant forall j :: 0 <= j < i ==> !(Label(FIELDS[j]) <= rest)
    {
      var r := HasLabel(buf, n, p, FIELDS[i]);
      if r {
        return Some(FIELDS[i]);
      }
      i := i + 1;
    }
    forall g: Field ensures !(Label(g) <= rest) {
      var j := Rank(g);
      assert FIELDS[j] == g;
    }
    return None;
  }

  ghost function Rank(f: Field): nat {
    match f
    case MemTotal => 0
    case MemFree => 1
    case MemAvailable => 2
    case Buffers => 3
    case Cached => 4
    case SwapTotal => 5
    case SwapFree => 6
  }

  /** The line loop of `read_meminfo`. */
  method ScanMeminfo(buf: array<char>, ghost n: nat) returns (v: Counts)
    requires CStringIn(buf, n)
    ensures Scanned(buf[..n], v)
  {
    ghost var t := buf[..n];
    v := Counts(0, 0, 0, 0, 0, 0, 0);
    var p := 0;
    assert buf[0..n] == t;
    while buf[p] != NUL
      invariant 0 <= p <= n
      invariant Found(t, buf[p..n], v)
      decreases n - p
    {
      ghost var rest := buf[p..n];
      var f := LabelAt(buf, n, p);
      if f.Some? {
        var x, _ := ParseNextU64(buf, n, p);
        FoundLine(t, rest, v, f.value);
        v := With(v, f.value, x);
      } else {
        FoundNone(t, rest, v);
      }
      p := SkipLine(buf, n, p);
    }
  }

  /** `read_meminfo`; an unreadable or empty file leaves the sample as it was. */
  method ReadMeminfo(file: Option<string>, was: MemSample) returns (m: MemSample, ghost v: Counts)
    ensures file.None? || file.value == "" ==> m == was
    ensures file.Some? && file.value != "" ==> Scanned(FileText(file.value, 512), v) && m == SampleOf(v)
  {
    m, v := was, Counts(0, 0, 0, 0, 0, 0, 0);
    if file.Some? && file.value != "" {
      var buf, n := ReadFile(file.value, 512);
      var c := ScanMeminfo(buf, n);
      m := MemSample(Bytes(c.total), Bytes(c.avail), Bytes(c.total - c.free - c.buffers - c.cached),
                     Bytes(c.buffers + c.cached), Bytes(c.swapTotal - c.swapFree));
      v := c;
    }
  }

  /**
   The parts add up to the total modulo 2^64; and when total and cache fit 64 bits, the used bytes are the
   true difference iff the other parts are at most the total.
   */
  lemma MemBalance(v: Counts)
    ensures var m := SampleOf(v); Wrap(m.usedBytes + v.free * 1024 + m.cacheBytes) == m.totalBytes
    ensures var m := SampleOf(v);
            v.total * 1024 < U64 && (v.buffers + v.cached) * 1024 < U64 ==>
              (m.usedBytes + v.free * 1024 + m.cacheBytes == m.totalBytes <==> v.free + v.buffers + v.cached <= v.total)
  {
    var used: int, cache: int := (v.total - v.free - v.buffers - v.cached) * 1024, (v.buffers + v.cached) * 1024;
    WrapIsMod(used);
    WrapIsMod(cache);
    assert used == Wrap(used) + U64 * (used / U64) && cache == Wrap(cache) + U64 * (cache / U64);
    WrapShift(Wrap(used) + v.free * 1024 + Wrap(cache), used / U64 + cache / U64);
  }

  /** Which label feeds which counter. */
  lemma CountsByLabel(text: string, v: Counts)
    requires Scanned(text, v)
    ensures v.total == LastWith(text, "MemTotal:", 0) && v.free == LastWith(text, "MemFree:", 0)
    ensures v.avail == LastWith(text, "MemAvailable:", 0)
    ensures v.buffers == LastWith(text, "Buffers:", 0) && v.cached == LastWith(text, "Cached:", 0)
    ensures v.swapTotal == LastWith(text, "SwapTotal:", 0) && v.swapFree == LastWith(text, "SwapFree:", 0)
  {
    assert Get(v, MemTotal) == ValueOf(text, MemTotal) && Get(v, MemFree) == ValueOf(text, MemFree);
    assert Get(v, MemAvailable) == ValueOf(text, MemAvailable);
    assert Get(v, Buffers) == ValueOf(text, Buffers) && Get(v, Cached) == ValueOf(text, Cached);
    assert Get(v, SwapTotal) == ValueOf(text, SwapTotal) && Get(v, SwapFree) == ValueOf(text, SwapFree);
  }

  /**
   The sample: total, available and cached bytes are 1024 times the counters, the other two 1024 times a
   difference, all modulo 2^64.
   */
  lemma SampleBytes(v: Counts)
    ensures var m := SampleOf(v);
            && m.totalBytes == Wrap(1024 * v.total) && m.availableBytes == Wrap(1024 * v.avail)
            && m.cacheBytes == Wrap(1024 * (v.buffers + v.cached))
            && m.usedBytes == Wrap(1024 * (v.total - v.free - v.buffers - v.cached))
            && m.swapUsedBytes == Wrap(1024 * (v.swapTotal - v.swapFree))
  {
  }

  // ---- What the scan means on well-formed lines ---------------------------------------------

  /** One line of /proc/meminfo: a key, a gap, a number and a unit. */
  datatype MemLine = MemLine(key: string, gap: string, value: nat, unit: string)

  predicate LineOk(l: MemLine) {
    && ':' !in l.key && NoDigits(l.gap)
    && '\n' !in l.key && '\n' !in l.gap && '\n' !in l.unit
    && (l.unit == "" || !IsDigit(l.unit[0]))
  }

  function LineText(l: MemLine): string {
    l.key + ":" + (l.gap + (Digits(l.value) + l.unit))
  }

  function LinesText(ls: seq<MemLine>): string {
    if ls == [] then "" else LineText(ls[0]) + "\n" + LinesText(ls[1..])
  }

  /** The value of the last line with this key. */
  function LastValue(ls: seq<MemLine>, key: string, dfl: nat): nat {
    if ls == [] then dfl else LastValue(ls[1..], key, if ls[0].key == key then ls[0].value else dfl)
  }

  lemma {:induction false} DigitsNoNewline(s: string)
    requires AllDigits(s)
    ensures '\n' !in s
  {
    forall c | c in s ensures IsDigit(c) {
      var i :| 0 <= i < |s| && s[i] == c;
    }
  }

  /** A line starts with `key:` iff its key is that key: "SwapCached:" is never read as "Cached:". */
  lemma LabelMatches(l: MemLine, key: string, rest: string)
    requires ':' !in l.key && ':' !in key
    ensures key + ":" <= LineText(l) + rest <==> l.key == key
  {
    var s := LineText(l) + rest;
    var tag := key + ":";
    assert s[|l.key|] == ':' && tag[|key|] == ':';
    assert s[..|l.key|] == l.key && tag[..|key|] == key;
    if tag <= s {
      assert forall i :: 0 <= i < |key| ==> s[i] == key[i] && key[i] in key;
      assert forall i :: 0 <= i < |l.key| ==> s[i] == l.key[i] && l.key[i] in l.key;
      assert s[|key|] == tag[|key|];
      assert |key| == |l.key|;
    }
    assert l.key == key ==> s[..|key| + 1] == tag;
  }

  lemma LineNumber(l: MemLine, rest: string)
    requires LineOk(l) && NoDigits(l.key)
    ensures Number(LineText(l) + ("\n" + rest)) == Wrap(l.value)
  {
    var s := LineText(l) + ("\n" + rest);
    var gap := l.key + ":" + l.gap;
    var tail := l.unit + ("\n" + rest);
    assert s == gap + (Digits(l.value) + tail);
    assert NoDigits(gap);
    NextPrinted(gap, l.value, tail);
  }

  lemma SkipsLine(l: MemLine, rest: string)
    requires LineOk(l)
    ensures NextLine(LineText(l) + ("\n" + rest)) == rest
  {
    DigitsNoNewline(Digits(l.value));
    UpToStops(LineText(l), "\n" + rest, {'\n'});
    assert (LineText(l) + ("\n" + rest))[|LineText(l)| + 1..] == rest;
  }

  lemma LastWithLine(l: MemLine, rest: string, key: string, dfl: nat)
    requires LineOk(l) && l.value < U64 && ':' !in key && NoDigits(key)
    ensures LastWith(LineText(l) + ("\n" + rest), key + ":", dfl)
            == LastWith(rest, key + ":", if l.key == key then l.value else dfl)
  {
    LabelMatches(l, key, "\n" + rest);
    SkipsLine(l, rest);
    if l.key == key {
      LineNumber(l, rest);
    }
  }

  /** The in-place scan refines "split into lines and take the last line with this key", in any order. */
  lemma {:induction false} ScanIsLastLine(ls: seq<MemLine>, tail: string, key: string, dfl: nat)
    requires forall i :: 0 <= i < |ls| ==> LineOk(ls[i]) && ls[i].value < U64
    requires ':' !in key && NoDigits(key)
    ensures LastWith(LinesText(ls) + tail, key + ":", dfl) == LastWith(tail, key + ":", LastValue(ls, key, dfl))
  {
    if ls == [] {
      assert LinesText(ls) + tail == tail;
    } else {
      var rest := LinesText(ls[1..]) + tail;
      assert LinesText(ls) + tail == LineText(ls[0]) + ("\n" + rest);
      LastWithLine(ls[0], rest, key, dfl);
      ScanIsLastLine(ls[1..], tail, key, if ls[0].key == key then ls[0].value else dfl);
    }
  }

  // ---- The cut at 511 characters ------------------------------------------------------------

  /** How many leading lines fit into `room` characters whole. */
  function Fitting(ls: seq<MemLine>, room: nat): (n: nat)
    ensures n <= |ls|
  {
    if ls == [] || |LineText(ls[0])| + 1 > room then 0
    else 1 + Fitting(ls[1..], room - |LineText(ls[0])| - 1)
  }

  /** What is left in the buffer of the first line that does not fit. */
  function CutLine(ls: seq<MemLine>, room: nat): string {
    if ls == [] then ""
    else if |LineText(ls[0])| + 1 > room then Take(LineText(ls[0]), room)
    else CutLine(ls[1..], room - |LineText(ls[0])| - 1)
  }

  lemma LineNoNewline(l: MemLine)
    requires LineOk(l)
    ensures '\n' !in LineText(l)
  {
    DigitsNoNewline(Digits(l.value));
  }

  lemma TakeBoth(x: string, y: string, room: nat)
    ensures |x| <= room ==> Take(x + y, room) == x + Take(y, room - |x|)
    ensures |x| >= room ==> Take(x + y, room) == Take(x, room)
  {
  }

  lemma CutInFirst(ls: seq<MemLine>, room: nat)
    requires ls != [] && LineOk(ls[0]) && |LineText(ls[0])| + 1 > room
    ensures Take(LinesText(ls), room) == Take(LineText(ls[0]), room) <= LineText(ls[0])
    ensures '\n' !in Take(LineText(ls[0]), room)
  {
    LineNoNewline(ls[0]);
    TakeBoth(LineText(ls[0]), "\n" + LinesText(ls[1..]), room);
    assert LinesText(ls) == LineText(ls[0]) + ("\n" + LinesText(ls[1..]));
  }

  lemma {:induction false} CutText(ls: seq<MemLine>, room: nat)
    requires forall i :: 0 <= i < |ls| ==> LineOk(ls[i])
    ensures Take(LinesText(ls), room) == LinesText(ls[..Fitting(ls, room)]) + CutLine(ls, room)
    ensures '\n' !in CutLine(ls, room)
    ensures Fitting(ls, room) < |ls| ==> CutLine(ls, room) <= LineText(ls[Fitting(ls, room)])
    ensures Fitting(ls, room) == |ls| ==> CutLine(ls, room) == ""
  {
    if ls == [] {
    } else if |LineText(ls[0])| + 1 > room {
      CutInFirst(ls, room);
      assert ls[..0] == [];
    } else {
      var line, rest := LineText(ls[0]) + "\n", LinesText(ls[1..]);
      var n := Fitting(ls[1..], room - |line|);
      CutText(ls[1..], room - |line|);
      TakeBoth(line, rest, room);
      OneLineMore(ls, n);
      Assoc(line, LinesText(ls[1..][..n]), CutLine(ls, room));
    }
  }

  lemma Assoc(x: string, y: string, z: string)
    ensures x + (y + z) == x + y + z
  {
  }

  lemma OneLineMore(ls: seq<MemLine>, n: nat)
    requires n < |ls|
    ensures LinesText(ls[..n + 1]) == LineText(ls[0]) + "\n" + LinesText(ls[1..][..n])
  {
    assert ls[..n + 1][0] == ls[0] && ls[..n + 1][1..] == ls[1..][..n];
  }

  lemma LastLine(cut: string, tag: string, dfl: nat)
    requires '\n' !in cut && tag != ""
    ensures LastWith(cut, tag, dfl) == if tag <= cut then Number(cut) else dfl
  {
    UpToStops(cut, "", {'\n'});
    assert cut + "" == cut;
    if cut != "" {
      assert NextLine(cut) == "";
    }
  }

  /**
   What the scan of the real file ends with, whose text goes on behind the 511 characters the buffer takes:
   the number in the line that was cut when its label is still whole, otherwise the value of the last line
   with the key among those that fit, 0 without one.
   */
  lemma MeminfoFields(ls: seq<MemLine>, v: Counts, f: Field, key: string)
    requires forall i :: 0 <= i < |ls| ==> LineOk(ls[i]) && ls[i].value < U64
    requires NulFree(LinesText(ls))
    requires Label(f) == key + ":" && ':' !in key && NoDigits(key)
    requires Scanned(FileText(LinesText(ls), 512), v)
    ensures var cut := CutLine(ls, 511);
            Get(v, f) == if Label(f) <= cut then Number(cut) else LastValue(ls[..Fitting(ls, 511)], key, 0)
  {
    var text := Take(LinesText(ls), 511);
    var whole, cut := ls[..Fitting(ls, 511)], CutLine(ls, 511);
    UpToStops(text, "", {NUL});
    assert text + "" == text;
    CutText(ls, 511);
    ScanIsLastLine(whole, cut, key, 0);
    LastLine(cut, key + ":", LastValue(whole, key, 0));
  }

  lemma {:induction false} LastValueEarlier(ls: seq<MemLine>, n: nat, key: string, dfl: nat)
    requires n <= |ls| && forall i :: n <= i < |ls| ==> ls[i].key != key
    ensures LastValue(ls, key, dfl) == LastValue(ls[..n], key, dfl)
  {
    if n == 0 {
      NoLineWithKey(ls, key, dfl);
    } else {
      assert ls[..n][0] == ls[0] && ls[..n][1..] == ls[1..][..n - 1];
      LastValueEarlier(ls[1..], n - 1, key, if ls[0].key == key then ls[0].value else dfl);
    }
  }

  lemma {:induction false} NoLineWithKey(ls: seq<MemLine>, key: string, dfl: nat)
    requires forall i :: 0 <= i < |ls| ==> ls[i].key != key
    ensures LastValue(ls, key, dfl) == dfl
  {
    if ls == [] {
    } else {
      NoLineWithKey(ls[1..], key, dfl);
    }
  }

  /** When every line with the key fits, the cut does no harm: the counter is its value in the whole file. */
  lemma FieldsThatFit(ls: seq<MemLine>, v: Counts, f: Field, key: string)
    requires forall i :: 0 <= i < |ls| ==> LineOk(ls[i]) && ls[i].value < U64
    requires NulFree(LinesText(ls))
    requires Label(f) == key + ":" && ':' !in key && NoDigits(key)
    requires Scanned(FileText(LinesText(ls), 512), v)
    requires forall i :: Fitting(ls, 511) <= i < |ls| ==> ls[i].key != key
    ensures Get(v, f) == LastValue(ls, key, 0)
  {
    var n, cut := Fitting(ls, 511), CutLine(ls, 511);
    MeminfoFields(ls, v, f, key);
    CutText(ls, 511);
    LastValueEarlier(ls, n, key, 0);
    if n < |ls| {
      LabelMatches(ls[n], key, "");
      assert LineText(ls[n]) + "" == LineText(ls[n]);
    }
  }

  /** A cut behind the digits does no harm either; one inside them gives the number of the digits left. */
  lemma CutNumber(l: MemLine, cut: string)
    requires LineOk(l) && NoDigits(l.key) && cut <= LineText(l)
    ensures var head := l.key + ":" + l.gap;
            |head| <= |cut| < |head| + |Digits(l.value)| ==>
              Number(cut) == Wrap(NatOf(Digits(l.value)[..|cut| - |head|]))
    ensures |l.key + ":" + l.gap| + |Digits(l.value)| <= |cut| ==> Number(cut) == Wrap(l.value)
  {
    var head, digits := l.key + ":" + l.gap, Digits(l.value);
    assert LineText(l) == head + (digits + l.unit);
    assert NoDigits(head);
    if |head| <= |cut| {
      var k := |cut| - |head|;
      SkipGap(head, cut[|head|..]);
      assert cut == head + cut[|head|..];
      assert cut[|head|..] == (digits + l.unit)[..k];
      if k < |digits| {
        assert cut[|head|..] == digits[..k] + "";
        DigitRunStops(digits[..k], "");
        DigitsStart(digits[..k]);
      } else {
        var rest := l.unit[..k - |digits|];
        assert cut[|head|..] == digits + rest;
        NextPrinted(head, l.value, rest);
      }
    }
  }

  lemma DigitsStart(s: string)
    requires AllDigits(s)
    ensures SkipToDigit(s) == s
  {
  }
}
