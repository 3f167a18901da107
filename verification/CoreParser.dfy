/** The list of isolated cores: the kernel's `a,b-c,...` text read into an array of 64 entries. */
module CoreParser {
  import opened Text
  import opened CNumbers
  import opened CReaders
  import opened Grub

  // ---- One token ------------------------------------------------------------------------

  /** A signed 32-bit cast. */
  function Int32(x: int): i32 {
    var r := x % 0x1_0000_0000;
    if r < 0x8000_0000 then r else r - 0x1_0000_0000
  }

  /** `atoi`: `strtol` cut to an int. */
  function Atoi(s: string): i32 {
    Int32(StrTol(s))
  }

  /** One `%d` of `sscanf`: white space, a sign, at least one digit; the value and the rest. */
  function ScanInt(s: string): Option<(i32, string)> {
    var t := SkipSpace(s);
    var u := if t != "" && (t[0] == '-' || t[0] == '+') then t[1..] else t;
    DigitRunPrefix(u);
    if DigitRun(u) == "" then None else Some((Atoi(s), u[|DigitRun(u)|..]))
  }

  /** `sscanf(tok, "%d-%d", &a, &b) == 2`. */
  function ScanRange(tok: string): Option<(i32, i32)> {
    match ScanInt(tok)
    case None => None
    case Some((a, rest)) =>
      if rest == "" || rest[0] != '-' then None
      else
        match ScanInt(rest[1..])
        case None => None
        case Some((b, _)) => Some((a, b))
  }

  /** `a, a + 1, ..., b`. */
  function UpFrom(a: int, b: int): seq<int>
    decreases b - a
  {
    if a > b then [] else [a] + UpFrom(a + 1, b)
  }

  /** The ids a token stands for. */
  function Ids(tok: string): seq<int> {
    match ScanRange(tok)
    case Some((a, b)) => UpFrom(a, b)
    case None => [Atoi(tok)]
  }

  // ---- The tokens -----------------------------------------------------------------------

  function SkipCommas(s: string): (t: string)
    ensures |t| <= |s| && (t == "" || t[0] != ',')
  {
    if s != "" && s[0] == ',' then SkipCommas(s[1..]) else s
  }

  /** The ids of all tokens; `strtok` knows no empty tokens. */
  function AllIds(s: string): seq<int>
    decreases |s|
  {
    var t := SkipCommas(s);
    if t == "" then []
    else
      var tok := UpTo(t, {','});
      UpToAll(t, {','});
      Ids(tok) + AllIds(t[|tok|..])
  }

  // ---- The loops ------------------------------------------------------------------------

  /** `list` holds `count` entries, and room behind them. */
  ghost predicate Holds(list: array<int>, count: nat, ids: seq<int>)
    reads list
  {
    count <= list.Length && list[..count] == Take(ids, list.Length)
  }

  lemma TakeMore(ids: seq<int>, more: seq<int>, n: nat)
    ensures |ids| >= n ==> Take(ids + more, n) == Take(ids, n)
    ensures |ids| < n && |more| == 1 ==> Take(ids + more, n) == ids + more
  {
    assert |ids| >= n ==> (ids + more)[..n] == ids[..n];
  }

  /** `list[count++] = id` where there is room. */
  method Push(list: array<int>, count: nat, ghost ids: seq<int>, id: int) returns (next: nat)
    requires Holds(list, count, ids) && count < list.Length
    modifies list
    ensures Holds(list, next, ids + [id]) && next == count + 1
  {
    assert |ids| == count;
    list[count] := id;
    next := count + 1;
    assert list[..next] == ids + [id];
  }

  lemma UpFromLast(a: int, i: int)
    requires a <= i
    ensures UpFrom(a, i) == UpFrom(a, i - 1) + [i]
    decreases i - a
  {
    if a < i {
      UpFromLast(a + 1, i);
    }
  }

  lemma UpFromMore(a: int, i: int, b: int)
    requires a <= i <= b + 1
    ensures UpFrom(a, b) == UpFrom(a, i - 1) + UpFrom(i, b)
    decreases i - a
  {
    if a < i {
      UpFromMore(a + 1, i, b);
    }
  }

  /** The inner loop: it stops at `b` or when the list is full. */
  method PushRange(list: array<int>, count: nat, ghost ids: seq<int>, a: int, b: int) returns (next: nat)
    requires Holds(list, count, ids)
    modifies list
    ensures Holds(list, next, ids + UpFrom(a, b))
  {
    next := count;
    var i := a;
    assert ids + [] == ids;
    while i <= b && next < list.Length
      invariant i == a || a <= i <= b + 1
      invariant Holds(list, next, ids + UpFrom(a, i - 1))
      decreases b - i
    {
      UpFromLast(a, i);
      next := Push(list, next, ids + UpFrom(a, i - 1), i);
      assert ids + UpFrom(a, i - 1) + [i] == ids + UpFrom(a, i);
      i := i + 1;
    }
    if i <= b {
      RangeCut(ids, a, i, b, list.Length);
    }
  }

  lemma RangeCut(ids: seq<int>, a: int, i: int, b: int, n: nat)
    requires a <= i <= b && |ids + UpFrom(a, i - 1)| >= n
    ensures Take(ids + UpFrom(a, b), n) == Take(ids + UpFrom(a, i - 1), n)
  {
    UpFromMore(a, i, b);
    var x, y := UpFrom(a, i - 1), UpFrom(i, b);
    Shift(ids, x, y);
    TakeMore(ids + x, y, n);
  }

  method SkipCommasAt(buf: array<char>, ghost n: nat, p: nat) returns (q: nat)
    requires CStringIn(buf, n) && p <= n
    ensures p <= q <= n && buf[q] != ',' && buf[q..n] == SkipCommas(buf[p..n])
  {
    q := p;
    while buf[q] == ','
      invariant p <= q <= n
      invariant SkipCommas(buf[p..n]) == SkipCommas(buf[q..n])
      decreases n - q
    {
      assert buf[q..n][1..] == buf[q + 1..n];
      q := q + 1;
    }
  }

  method TokenEnd(buf: array<char>, ghost n: nat, p: nat) returns (e: nat)
    requires CStringIn(buf, n) && p <= n
    ensures p <= e <= n && UpTo(buf[p..n], {','}) == buf[p..e]
  {
    e := p;
    while buf[e] != NUL && buf[e] != ','
      invariant p <= e <= n
      invariant forall k :: p <= k < e ==> buf[k] != ','
      decreases n - e
    {
      e := e + 1;
    }
    assert buf[p..n] == buf[p..e] + buf[e..n];
    UpToStops(buf[p..e], buf[e..n], {','});
  }

  /** One token: a range, or else what `atoi` makes of it. */
  method PushToken(list: array<int>, count: nat, ghost ids: seq<int>, tok: string) returns (next: nat)
    requires Holds(list, count, ids) && count < list.Length
    modifies list
    ensures Holds(list, next, ids + Ids(tok))
  {
    match ScanRange(tok)
    case Some((a, b)) => next := PushRange(list, count, ids, a, b);
    case None => next := Push(list, count, ids, Atoi(tok));
  }

  /** `strtok`: the token that starts at `p` and the start of the next one. */
  method StrTok(buf: array<char>, ghost n: nat, p: nat) returns (tok: string, next: nat)
    requires CStringIn(buf, n) && p < n && buf[p] != ','
    ensures p < next <= n && buf[next] != ',' && AllIds(buf[p..n]) == Ids(tok) + AllIds(buf[next..n])
  {
    ghost var rest := buf[p..n];
    var e := TokenEnd(buf, n, p);
    tok := buf[p..e];
    assert rest[|tok|..] == buf[e..n];
    NextToken(rest, tok);
    next := SkipCommasAt(buf, n, e);
  }

  lemma Shift(ids: seq<int>, more: seq<int>, rest: seq<int>)
    ensures ids + (more + rest) == ids + more + rest
  {
  }

  /**
   The isolated-core loop of `benchmon_verify`: for every text the list ends up with the first 64 ids of
   its full expansion, in order, and nothing is written behind entry 63.
   */
  method ParseCores(buf: array<char>, ghost n: nat, list: array<int>) returns (count: nat)
    requires CStringIn(buf, n) && list.Length == 64
    modifies list
    ensures count <= 64 && list[..count] == Take(AllIds(buf[..n]), 64)
  {
    ghost var ids, text := [], buf[..n];
    count := 0;
    var p := SkipCommasAt(buf, n, 0);
    assert buf[0..n] == text;
    SkipFirst(text);
    assert ids + AllIds(buf[p..n]) == AllIds(buf[p..n]);
    while buf[p] != NUL && count < 64
      invariant p <= n && buf[p] != ','
      invariant AllIds(text) == ids + AllIds(buf[p..n])
      invariant Holds(list, count, ids)
      decreases n - p
    {
      var tok, next := StrTok(buf, n, p);
      Shift(ids, Ids(tok), AllIds(buf[next..n]));
      count := PushToken(list, count, ids, tok);
      ids := ids + Ids(tok);
      p := next;
    }
    FirstIds(list, count, ids, AllIds(buf[p..n]));
  }

  lemma FirstIds(list: array<int>, count: nat, ids: seq<int>, more: seq<int>)
    requires Holds(list, count, ids) && (count < list.Length ==> more == [])
    ensures list[..count] == Take(ids + more, list.Length)
  {
    TakeMore(ids, more, list.Length);
    assert ids + [] == ids;
  }

  lemma SkipFirst(s: string)
    ensures AllIds(SkipCommas(s)) == AllIds(s)
  {
    SkipTwice(s);
  }

  lemma NextToken(rest: string, tok: string)
    requires rest != "" && rest[0] != ',' && tok == UpTo(rest, {','})
    ensures 0 < |tok| <= |rest| && AllIds(rest) == Ids(tok) + AllIds(SkipCommas(rest[|tok|..]))
  {
    UpToAll(rest, {','});
    SkipTwice(rest[|tok|..]);
  }

  lemma {:induction false} SkipTwice(s: string)
    ensures SkipCommas(SkipCommas(s)) == SkipCommas(s)
  {
    if s == "" || s[0] != ',' {
    } else {
      SkipTwice(s[1..]);
    }
  }

  // ---- What the text means ----------------------------------------------------------------

  datatype Item = One(id: i32) | Span(first: i32, last: i32)

  function ItemText(item: Item): string {
    match item
    case One(id) => Dec(id)
    case Span(first, last) => Dec(first) + ("-" + Dec(last))
  }

  function ItemIds(item: Item): seq<int> {
    match item
    case One(id) => [id]
    case Span(first, last) => UpFrom(first, last)
  }

  function ListText(items: seq<Item>): string {
    if items == [] then ""
    else if |items| == 1 then ItemText(items[0])
    else ListText(items[..|items| - 1]) + ("," + ItemText(items[|items| - 1]))
  }

  function ListIds(items: seq<Item>): seq<int> {
    if items == [] then [] else ListIds(items[..|items| - 1]) + ItemIds(items[|items| - 1])
  }

  lemma AtoiOfDec(v: i32, y: string)
    requires y == "" || !IsDigit(y[0])
    ensures Atoi(Dec(v) + y) == v
  {
    StrTolOfDec(v, y);
    Int32Fits(v);
  }

  lemma Int32Fits(v: i32)
    ensures Int32(v) == v
  {
    if v < 0 {
      assert v as int == -1 * 0x1_0000_0000 + (v + 0x1_0000_0000);
    }
  }

  lemma ScanDec(v: i32, y: string)
    requires y == "" || !IsDigit(y[0])
    ensures ScanInt(Dec(v) + y) == Some((v, y))
  {
    var s := Dec(v) + y;
    ParseDec(v);
    AtoiOfDec(v, y);
    assert s[0] == Dec(v)[0] && NumeralChar(s[0]);
    assert SkipSpace(s) == s;
    var magnitude: nat := if v < 0 then -(v as int) else v;
    var u := Digits(magnitude) + y;
    if v < 0 {
      assert s[1..] == u;
    } else {
      assert IsDigit(s[0]);
    }
    DigitRunStops(Digits(magnitude), y);
    assert u[|Digits(magnitude)|..] == y;
  }

  /** `%d` on every numeral: none without digits, otherwise what `atoi` gives, and it stops behind them. */
  lemma ScanExactly(w: string, sign: string, digits: string, y: string)
    requires Numeral(w, sign, digits, y)
    ensures var s := w + (sign + (digits + y));
            ScanInt(s) == if digits == "" then None else Some((Atoi(s), y))
    ensures var s := w + (sign + (digits + y));
            (StrTol(s) - Atoi(s)) % 0x1_0000_0000 == 0
  {
    NumeralBody(w, sign, digits, y);
    var t := SkipSpace(w + (sign + (digits + y)));
    assert (digits + y)[|digits|..] == y;
    if sign == "" {
      assert t == digits + y;
    } else {
      assert sign[0] == '-' || sign[0] == '+';
    }
  }

  lemma ItemReadBack(item: Item)
    ensures Ids(ItemText(item)) == ItemIds(item)
  {
    match item
    case One(id) =>
      ScanDec(id, "");
      AtoiOfDec(id, "");
      assert Dec(id) + "" == Dec(id);
    case Span(first, last) =>
      var rest := "-" + Dec(last);
      ScanDec(first, rest);
      ScanDec(last, "");
      assert rest[1..] == Dec(last) + "";
  }

  lemma ItemHasNoComma(item: Item)
    ensures ItemText(item) != "" && ',' !in ItemText(item)
  {
    match item
    case One(id) => ParseDec(id);
    case Span(first, last) =>
      ParseDec(first);
      ParseDec(last);
  }

  lemma {:induction false} SkipCommasConcat(x: string, y: string)
    ensures SkipCommas(x + y) == if SkipCommas(x) == "" then SkipCommas(y) else SkipCommas(x) + y
  {
    if x == "" {
      assert x + y == y;
    } else {
      assert (x + y)[1..] == x[1..] + y;
      if x[0] == ',' {
        SkipCommasConcat(x[1..], y);
      }
    }
  }

  lemma AloneToken(tok: string)
    requires tok != "" && ',' !in tok
    ensures AllIds("," + tok) == Ids(tok) && AllIds(tok) == Ids(tok)
  {
    assert ("," + tok)[1..] == tok && tok[0] in tok;
    assert SkipCommas(tok) == tok;
    UpToStops(tok, "", {','});
    assert tok + "" == tok && tok[|tok|..] == "";
    assert Ids(tok) + [] == Ids(tok);
  }

  /** The first token stays the first when text starting with a comma is put behind the list. */
  lemma FirstStays(t: string, y: string) returns (first: string, rest: string)
    requires t != "" && t[0] != ',' && y != "" && y[0] == ','
    ensures |rest| < |t|
    ensures AllIds(t) == Ids(first) + AllIds(rest) && AllIds(t + y) == Ids(first) + AllIds(rest + y)
  {
    first := UpTo(t, {','});
    UpToAll(t, {','});
    rest := t[|first|..];
    NextToken(t, first);
    SkipFirst(rest);
    assert t == first + rest;
    assert t + y == first + (rest + y);
    assert (rest + y)[0] == ',';
    UpToStops(first, rest + y, {','});
    assert (t + y)[|first|..] == rest + y;
    NextToken(t + y, first);
    SkipFirst(rest + y);
  }

  /** One more token at the end of a list adds its ids at the end. */
  lemma {:induction false} AllIdsAppend(x: string, tok: string)
    requires tok != "" && ',' !in tok
    ensures AllIds(x + ("," + tok)) == AllIds(x) + Ids(tok)
    decreases |x|
  {
    var y := "," + tok;
    var t := SkipCommas(x);
    SkipCommasConcat(x, y);
    SkipFirst(x + y);
    SkipFirst(x);
    if t == "" {
      SkipFirst(y);
      AloneToken(tok);
      assert [] + Ids(tok) == Ids(tok);
    } else {
      var first, rest := FirstStays(t, y);
      AllIdsAppend(rest, tok);
      Shift(Ids(first), AllIds(rest), Ids(tok));
    }
  }

  /** For every comma list of single ids and ranges, the expansion is the ids of the items in order. */
  lemma {:induction false} ListReadBack(items: seq<Item>)
    ensures AllIds(ListText(items)) == ListIds(items)
  {
    if items == [] {
    } else {
      var init, last := items[..|items| - 1], items[|items| - 1];
      ItemHasNoComma(last);
      ItemReadBack(last);
      if |items| == 1 {
        AloneToken(ItemText(last));
        assert [] + ItemIds(last) == ItemIds(last);
      } else {
        ListReadBack(init);
        AllIdsAppend(ListText(init), ItemText(last));
      }
    }
  }

  lemma IdReadBack(id: i32)
    ensures Dec(id) != "" && ',' !in Dec(id) && Ids(Dec(id)) == [id]
  {
    ItemHasNoComma(One(id));
    ItemReadBack(One(id));
  }

  /** The list benchmon itself prints for `isolcpus=` reads back as the cores it was printed from. */
  lemma {:induction false} OwnListReadBack(cores: seq<i32>)
    ensures AllIds(JoinCores(cores)) == cores
  {
    if cores == [] {
    } else if |cores| == 1 {
      IdReadBack(cores[0]);
      AloneToken(Dec(cores[0]));
    } else {
      var init, last := cores[..|cores| - 1], cores[|cores| - 1];
      assert cores == init + [last];
      OwnListReadBack(init);
      IdReadBack(last);
      JoinMore(init, last);
      AllIdsAppend(JoinCores(init), Dec(last));
    }
  }
}
