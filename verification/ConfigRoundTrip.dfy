/** Reading a printed configuration back: any order and any subset of the printed lines. */
module ConfigRoundTrip {
  import opened Text
  import opened JsonText
  import opened ConfigStore

  /** The strings can be printed without escaping, and the loss is written without trailing zeros. */
  predicate Printable(c: SetupConfig) {
    && (forall k: Key :: QuoteFree(StrField(c, k)))
    && AllDigits(c.net.netemLossPct.frac)
    && (c.net.netemLossPct.frac != "" ==> c.net.netemLossPct.frac[|c.net.netemLossPct.frac| - 1] != '0')
  }

  // ---- The printed values ------------------------------------------------------

  lemma DecQuoteFree(n: int)
    ensures QuoteFree(Dec(n)) && ']' !in Dec(n) && ',' !in Dec(n)
  {
    ParseDec(n);
    assert forall i :: 0 <= i < |Dec(n)| ==> NumeralChar(Dec(n)[i]);
  }

  lemma {:induction false} JoinSpacedPlain(cores: seq<i32>)
    ensures QuoteFree(JoinSpaced(cores)) && ']' !in JoinSpaced(cores)
  {
    if cores == [] {
    } else if |cores| == 1 {
      DecQuoteFree(cores[0]);
    } else {
      JoinSpacedPlain(cores[..|cores| - 1]);
      DecQuoteFree(cores[|cores| - 1]);
    }
  }

  lemma DigitsPlain(n: nat)
    ensures QuoteFree(Digits(n)) && '.' !in Digits(n)
  {
    assert forall i :: 0 <= i < |Digits(n)| ==> IsDigit(Digits(n)[i]);
  }

  lemma LossPlain(l: Loss)
    requires AllDigits(l.frac)
    ensures QuoteFree(LossText(l))
  {
    DigitsPlain(l.whole);
    assert forall i :: 0 <= i < |l.frac| ==> IsDigit(l.frac[i]);
    assert QuoteFree(l.frac);
  }

  lemma ValueGood(c: SetupConfig, k: Key)
    requires Printable(c)
    ensures GoodValue(ValueText(c, k))
  {
    match KindOf(k)
    case Cores => JoinSpacedPlain(c.cpu.isolatedCores);
    case Int => DecQuoteFree(IntField(c, k));
    case Bool =>
    case Str => assert Quoted(StrField(c, k))[1..|StrField(c, k)| + 1] == StrField(c, k);
    case Float => LossPlain(c.net.netemLossPct);
  }

  lemma {:induction false} EntriesGood(c: SetupConfig, ks: seq<Key>)
    requires Printable(c)
    ensures forall i :: 0 <= i < |EntriesFor(c, ks)| ==> GoodEntry(EntriesFor(c, ks)[i])
  {
    if ks == [] {
    } else {
      EntriesGood(c, ks[1..]);
      NameGood(ks[0]);
      ValueGood(c, ks[0]);
    }
  }

  lemma {:induction false} EntryOf(c: SetupConfig, ks: seq<Key>, k: Key)
    ensures FirstWith(EntriesFor(c, ks), Name(k)) == if k in ks then Some(ValueText(c, k)) else None
  {
    if ks == [] {
    } else {
      EntryOf(c, ks[1..], k);
      if ks[0] != k {
        NameInjective(ks[0], k);
      }
      var es := EntriesFor(c, ks);
      assert es[0] == Entry(Name(ks[0]), ValueText(c, ks[0])) && es[1..] == EntriesFor(c, ks[1..]);
    }
  }

  /** The text behind the needle of a printed key, or none for a key that was left out. */
  lemma BehindKey(c: SetupConfig, ks: seq<Key>, k: Key) returns (tail: string)
    requires Printable(c)
    ensures k !in ks ==> After(Printed(c, ks), Needle(Name(k))) == None
    ensures k in ks ==> After(Printed(c, ks), Needle(Name(k))) == Some(" " + ValueText(c, k) + tail) &&
                        tail != "" && (tail[0] == ',' || tail[0] == '\n')
  {
    EntriesGood(c, ks);
    EntryOf(c, ks, k);
    NameGood(k);
    tail := AfterInObject(EntriesFor(c, ks), "", "}", Name(k));
  }

  // ---- The readers, one kind at a time ------------------------------------------

  lemma TrimOne(v: string, tail: string)
    requires v != "" && !IsWhitespace(v[0])
    ensures TrimStart(" " + v + tail) == v + tail
  {
    var s := " " + v + tail;
    assert s[1..] == v + tail && s[1] == v[0];
  }

  lemma {:induction false} NumberPrefixAt(x: string, tail: string, point: bool)
    requires forall c :: c in x ==> NumeralChar(c) || (point && c == '.')
    requires tail != "" && (tail[0] == ',' || tail[0] == '\n')
    ensures NumberPrefix(x + tail, point) == x
  {
    if x == "" {
      assert x + tail == tail;
    } else {
      assert (x + tail)[0] == x[0] && (x + tail)[1..] == x[1..] + tail;
      assert x[0] in x && forall c :: c in x[1..] ==> c in x;
      NumberPrefixAt(x[1..], tail, point);
    }
  }

  lemma IntRead(c: SetupConfig, ks: seq<Key>, k: Key)
    requires Printable(c) && KindOf(k) == Int
    ensures JsonInt(Printed(c, ks), Name(k)) == if k in ks then Some(IntField(c, k)) else None
  {
    var tail := BehindKey(c, ks, k);
    if k in ks {
      var n := IntField(c, k);
      ParseDec(n);
      assert forall i :: 0 <= i < |Dec(n)| ==> NumeralChar(Dec(n)[i]);
      TrimOne(Dec(n), tail);
      NumberPrefixAt(Dec(n), tail, false);
    }
  }

  lemma BoolRead(c: SetupConfig, ks: seq<Key>, k: Key)
    requires Printable(c) && KindOf(k) == Bool
    ensures JsonBool(Printed(c, ks), Name(k)) == if k in ks then Some(BoolField(c, k)) else None
  {
    var tail := BehindKey(c, ks, k);
    if k in ks {
      TrimOne(ValueText(c, k), tail);
      BoolWord(BoolField(c, k), tail);
    }
  }

  lemma BoolWord(b: bool, tail: string)
    ensures "true" <= (if b then "true" else "false") + tail <==> b
    ensures "false" <= (if b then "true" else "false") + tail <==> !b
  {
    assert ("true" + tail)[0] == 't' && ("false" + tail)[0] == 'f';
  }

  lemma StrRead(c: SetupConfig, ks: seq<Key>, k: Key)
    requires Printable(c) && KindOf(k) == Str
    ensures RustString(Printed(c, ks), Name(k)) == if k in ks then Some(StrField(c, k)) else None
    ensures CString(Printed(c, ks), Name(k)) == if k in ks then Some(StrField(c, k)) else None
  {
    var tail := BehindKey(c, ks, k);
    if k in ks {
      EntriesGood(c, ks);
      EntryOf(c, ks, k);
      NameGood(k);
      StringReadBack(EntriesFor(c, ks), "", "}", Name(k), StrField(c, k));
    }
  }

  lemma TrimNumber(n: i32)
    ensures TrimEnd(TrimStart(" " + Dec(n))) == Dec(n) && TrimEnd(TrimStart(Dec(n))) == Dec(n)
  {
    var s := Dec(n);
    ParseDec(n);
    assert NumeralChar(s[0]) && NumeralChar(s[|s| - 1]);
    TrimOne(s, "");
    assert " " + s + "" == " " + s && s + "" == s;
  }

  lemma {:induction false} ParseCoresConcat(a: seq<string>, b: seq<string>)
    ensures ParseCores(a + b) == ParseCores(a) + ParseCores(b)
  {
    if a == [] {
      assert a + b == b;
    } else {
      assert (a + b)[1..] == a[1..] + b;
      ParseCoresConcat(a[1..], b);
    }
  }

  lemma ParseOneCore(n: i32)
    ensures ParseCores([" " + Dec(n)]) == [n] && ParseCores([Dec(n)]) == [n]
  {
    TrimNumber(n);
    ParseDec(n);
  }

  /** The printed core list, the empty one included, splits and parses back to itself. */
  lemma {:induction false} CoreListRoundTrip(cores: seq<i32>)
    ensures ParseCores(Split(JoinSpaced(cores), ',')) == cores
  {
    if cores == [] {
      SplitNone("", ',');
    } else {
      var init, last := cores[..|cores| - 1], cores[|cores| - 1];
      assert cores == init + [last];
      ParseOneCore(last);
      DecQuoteFree(last);
      if init == [] {
        SplitNone(Dec(last), ',');
      } else {
        CoreListRoundTrip(init);
        assert ", " + Dec(last) == [','] + (" " + Dec(last));
        SplitLast(JoinSpaced(init), " " + Dec(last), ',');
        ParseCoresConcat(Split(JoinSpaced(init), ','), [" " + Dec(last)]);
      }
    }
  }

  lemma BracketedRead(v: string, tail: string)
    requires ']' !in v
    ensures var rest := "[" + v + "]" + tail;
            UpTo(rest, {']'}) == "[" + v && UpTo(rest, {']'}) != rest
  {
    var rest := "[" + v + "]" + tail;
    assert rest == ("[" + v) + ("]" + tail);
    UpToStops("[" + v, "]" + tail, {']'});
  }

  lemma CoresRead(c: SetupConfig, ks: seq<Key>)
    requires Printable(c)
    ensures JsonArray(Printed(c, ks), Name(IsolatedCores)) ==
            if IsolatedCores in ks then Some(JoinSpaced(c.cpu.isolatedCores)) else None
  {
    var tail := BehindKey(c, ks, IsolatedCores);
    if IsolatedCores in ks {
      var v := JoinSpaced(c.cpu.isolatedCores);
      TrimOne("[" + v + "]", tail);
      JoinSpacedPlain(c.cpu.isolatedCores);
      BracketedRead(v, tail);
      assert ("[" + v)[1..] == v;
    }
  }

  lemma UnsignedParse(l: Loss, body: string)
    requires AllDigits(l.frac) && (l.frac != "" ==> l.frac[|l.frac| - 1] != '0')
    requires body == Unsigned(l)
    ensures ParseUnsigned(l.neg, body) == Some(l)
  {
    var d := Digits(l.whole);
    var point := if l.frac == "" then "" else "." + l.frac;
    DigitsPlain(l.whole);
    NatOfDigits(l.whole);
    UpToStops(d, point, {'.'});
    if l.frac != "" {
      assert body[|d| + 1..] == l.frac;
    }
  }

  lemma UnsignedStart(l: Loss)
    ensures Unsigned(l) != "" && IsDigit(Unsigned(l)[0])
  {
    var d := Digits(l.whole);
    assert IsDigit(d[0]);
  }

  lemma LossParse(l: Loss)
    requires AllDigits(l.frac) && (l.frac != "" ==> l.frac[|l.frac| - 1] != '0')
    ensures ParseLoss(LossText(l)) == Some(l)
  {
    var body := Unsigned(l);
    UnsignedStart(l);
    UnsignedParse(l, body);
    assert ("-" + body)[1..] == body;
  }

  lemma FloatBehind(v: string, tail: string)
    requires v != "" && !IsWhitespace(v[0]) && forall c :: c in v ==> NumeralChar(c) || c == '.'
    requires tail != "" && (tail[0] == ',' || tail[0] == '\n')
    ensures NumberPrefix(TrimStart(" " + v + tail), true) == v
  {
    TrimOne(v, tail);
    NumberPrefixAt(v, tail, true);
  }

  lemma FloatAt(json: string, key: string, v: string, tail: string)
    requires After(json, Needle(key)) == Some(" " + v + tail)
    requires v != "" && !IsWhitespace(v[0]) && forall c :: c in v ==> NumeralChar(c) || c == '.'
    requires tail != "" && (tail[0] == ',' || tail[0] == '\n')
    ensures JsonFloat(json, key) == ParseLoss(v)
  {
    FloatBehind(v, tail);
  }

  lemma FloatRead(c: SetupConfig, ks: seq<Key>, k: Key)
    requires Printable(c) && KindOf(k) == Float
    ensures JsonFloat(Printed(c, ks), Name(k)) == if k in ks then Some(c.net.netemLossPct) else None
  {
    var tail := BehindKey(c, ks, k);
    if k in ks {
      var l := c.net.netemLossPct;
      LossChars(l);
      LossParse(l);
      FloatAt(Printed(c, ks), Name(k), LossText(l), tail);
    }
  }

  lemma LossRead(c: SetupConfig, ks: seq<Key>)
    requires Printable(c)
    ensures JsonFloat(Printed(c, ks), Name(NetemLossPct)) ==
            if NetemLossPct in ks then Some(c.net.netemLossPct) else None
  {
    FloatRead(c, ks, NetemLossPct);
  }

  lemma LossChars(l: Loss)
    requires AllDigits(l.frac)
    ensures LossText(l) != "" && !IsWhitespace(LossText(l)[0])
    ensures forall c :: c in LossText(l) ==> NumeralChar(c) || c == '.'
  {
    var d := Digits(l.whole);
    assert forall i :: 0 <= i < |d| ==> IsDigit(d[i]);
    assert forall c :: c in d ==> IsDigit(c);
    assert forall c :: c in l.frac ==> IsDigit(c);
    UnsignedStart(l);
    assert forall c :: c in Unsigned(l) ==> c in d || c == '.' || c in l.frac;
  }

  // ---- The theorems ----------------------------------------------------------------

  // The fields of `c` whose keys are listed, and the defaults for all others.

  function MergeCpu(c: SetupConfig, d: SetupConfig, ks: set<Key>): CpuConfig {
    CpuConfig(
      if IsolatedCores in ks then c.cpu.isolatedCores else d.cpu.isolatedCores,
      PickInt(c, d, ks, HousekeepingCore), PickBool(c, d, ks, DisableSmt), PickBool(c, d, ks, DisableFrequencyBoost),
      PickInt(c, d, ks, MaxCstate), PickBool(c, d, ks, StopIrqbalance), PickBool(c, d, ks, DisableSwap),
      PickBool(c, d, ks, IsolateMultiuser))
  }

  function MergeNet(c: SetupConfig, d: SetupConfig, ks: set<Key>): NetConfig {
    NetConfig(
      PickStr(c, d, ks, NsServer), PickStr(c, d, ks, NsClient), PickStr(c, d, ks, VethServer),
      PickStr(c, d, ks, VethClient), PickStr(c, d, ks, ServerIp), PickStr(c, d, ks, ClientIp),
      PickInt(c, d, ks, NetemDelayMs), PickInt(c, d, ks, NetemJitterMs),
      if NetemLossPct in ks then c.net.netemLossPct else d.net.netemLossPct,
      PickBool(c, d, ks, DisableOffloading))
  }

  function MergeProc(c: SetupConfig, d: SetupConfig, ks: set<Key>): ProcConfig {
    ProcConfig(PickStr(c, d, ks, ServerCores), PickStr(c, d, ks, ClientCores), PickInt(c, d, ks, RtPriority))
  }

  function MergeSys(c: SetupConfig, d: SetupConfig, ks: set<Key>): SysctlConfig {
    SysctlConfig(
      PickBool(c, d, ks, DisableAslr), PickBool(c, d, ks, TuneNetBuffers), PickBool(c, d, ks, DropCaches),
      PickBool(c, d, ks, StopTimesyncd), PickBool(c, d, ks, ApplyNohzFull), PickBool(c, d, ks, ApplyRcuNocbs))
  }

  function Merge(c: SetupConfig, d: SetupConfig, ks: set<Key>): SetupConfig {
    SetupConfig(MergeCpu(c, d, ks), MergeNet(c, d, ks), MergeProc(c, d, ks), MergeSys(c, d, ks))
  }

  function PickInt(c: SetupConfig, d: SetupConfig, ks: set<Key>, k: Key): i32 {
    if k in ks then IntField(c, k) else IntField(d, k)
  }

  function PickBool(c: SetupConfig, d: SetupConfig, ks: set<Key>, k: Key): bool {
    if k in ks then BoolField(c, k) else BoolField(d, k)
  }

  function PickStr(c: SetupConfig, d: SetupConfig, ks: set<Key>, k: Key): string {
    if k in ks then StrField(c, k) else StrField(d, k)
  }

  lemma WrapSmall(v: i32)
    ensures WrapI32(v) == v
  {
  }

  predicate ReadsInts(r: Readers, c: SetupConfig, ks: set<Key>) {
    forall k :: KindOf(k) == Int ==> r.ints(k) == if k in ks then Some(IntField(c, k)) else None
  }

  predicate ReadsBools(r: Readers, c: SetupConfig, ks: set<Key>) {
    forall k :: KindOf(k) == Bool ==> r.bools(k) == if k in ks then Some(BoolField(c, k)) else None
  }

  predicate ReadsStrs(r: Readers, c: SetupConfig, ks: set<Key>) {
    forall k :: KindOf(k) == Str ==> r.strs(k) == if k in ks then Some(StrField(c, k)) else None
  }

  /** What the extractors return on the printed lines of `ks`. */
  predicate Reads(r: Readers, c: SetupConfig, ks: set<Key>) {
    && r.cores == (if IsolatedCores in ks then Some(JoinSpaced(c.cpu.isolatedCores)) else None)
    && ReadsInts(r, c, ks) && ReadsBools(r, c, ks) && ReadsStrs(r, c, ks)
    && r.loss == (if NetemLossPct in ks then Some(c.net.netemLossPct) else None)
  }

  function Listed(ks: seq<Key>): set<Key> {
    set k | k in ks
  }

  lemma PrintedReads(c: SetupConfig, ks: seq<Key>)
    requires Printable(c)
    ensures Reads(ReadersOf(Printed(c, ks)), c, Listed(ks))
  {
    var r := ReadersOf(Printed(c, ks));
    CoresRead(c, ks);
    LossRead(c, ks);
    forall k | KindOf(k) == Int ensures r.ints(k) == if k in ks then Some(IntField(c, k)) else None {
      IntRead(c, ks, k);
    }
    forall k | KindOf(k) == Bool ensures r.bools(k) == if k in ks then Some(BoolField(c, k)) else None {
      BoolRead(c, ks, k);
    }
    forall k | KindOf(k) == Str ensures r.strs(k) == if k in ks then Some(StrField(c, k)) else None {
      StrRead(c, ks, k);
    }
  }

  lemma GetInt(r: Readers, c: SetupConfig, d: SetupConfig, ks: set<Key>, k: Key)
    requires ReadsInts(r, c, ks) && KindOf(k) == Int
    ensures IntOr(r, k, IntField(d, k)) == PickInt(c, d, ks, k)
  {
    WrapSmall(IntField(c, k));
  }

  lemma GetBool(r: Readers, c: SetupConfig, d: SetupConfig, ks: set<Key>, k: Key)
    requires ReadsBools(r, c, ks) && KindOf(k) == Bool
    ensures BoolOr(r, k, BoolField(d, k)) == PickBool(c, d, ks, k)
  {
  }

  lemma GetStr(r: Readers, c: SetupConfig, d: SetupConfig, ks: set<Key>, k: Key)
    requires ReadsStrs(r, c, ks) && KindOf(k) == Str
    ensures StrOr(r, k, StrField(d, k)) == PickStr(c, d, ks, k)
  {
  }

  lemma ReadCpu(r: Readers, c: SetupConfig, d: SetupConfig, ks: set<Key>)
    requires Reads(r, c, ks)
    ensures WithCpu(r, d.cpu) == MergeCpu(c, d, ks)
  {
    CoreListRoundTrip(c.cpu.isolatedCores);
    GetInt(r, c, d, ks, HousekeepingCore);
    GetBool(r, c, d, ks, DisableSmt);
    GetBool(r, c, d, ks, DisableFrequencyBoost);
    GetInt(r, c, d, ks, MaxCstate);
    GetBool(r, c, d, ks, StopIrqbalance);
    GetBool(r, c, d, ks, DisableSwap);
    GetBool(r, c, d, ks, IsolateMultiuser);
  }

  lemma ReadNet(r: Readers, c: SetupConfig, d: SetupConfig, ks: set<Key>)
    requires Reads(r, c, ks)
    ensures WithNet(r, d.net) == MergeNet(c, d, ks)
  {
    GetStr(r, c, d, ks, NsServer);
    GetStr(r, c, d, ks, NsClient);
    GetStr(r, c, d, ks, VethServer);
    GetStr(r, c, d, ks, VethClient);
    GetStr(r, c, d, ks, ServerIp);
    GetStr(r, c, d, ks, ClientIp);
    GetInt(r, c, d, ks, NetemDelayMs);
    GetInt(r, c, d, ks, NetemJitterMs);
    GetBool(r, c, d, ks, DisableOffloading);
  }

  lemma ReadProc(r: Readers, c: SetupConfig, d: SetupConfig, ks: set<Key>)
    requires ReadsInts(r, c, ks) && ReadsStrs(r, c, ks)
    ensures WithProc(r, d.proc) == MergeProc(c, d, ks)
  {
    GetStr(r, c, d, ks, ServerCores);
    GetStr(r, c, d, ks, ClientCores);
    GetInt(r, c, d, ks, RtPriority);
  }

  lemma ReadSys(r: Readers, c: SetupConfig, d: SetupConfig, ks: set<Key>)
    requires ReadsBools(r, c, ks)
    ensures WithSys(r, d.sys) == MergeSys(c, d, ks)
  {
    GetBool(r, c, d, ks, DisableAslr);
    GetBool(r, c, d, ks, TuneNetBuffers);
    GetBool(r, c, d, ks, DropCaches);
    GetBool(r, c, d, ks, StopTimesyncd);
    GetBool(r, c, d, ks, ApplyNohzFull);
    GetBool(r, c, d, ks, ApplyRcuNocbs);
  }

  /**
   Order and completeness do not matter: for any list of keys, in any order and with any left out, the
   printed lines decode to the printed value for each listed key and to the default for each other one.
   */
  lemma AnyLinesDecode(c: SetupConfig, ks: seq<Key>)
    requires Printable(c)
    ensures Decoded(Printed(c, ks)) == Merge(c, DEFAULT, Listed(ks))
  {
    PrintedReads(c, ks);
    ReadersMerge(ReadersOf(Printed(c, ks)), c, DEFAULT, Listed(ks));
  }

  lemma ReadersMerge(r: Readers, c: SetupConfig, d: SetupConfig, ks: set<Key>)
    requires Reads(r, c, ks)
    ensures Merged(r, d) == Merge(c, d, ks)
  {
    ReadCpu(r, c, d, ks);
    ReadNet(r, c, d, ks);
    ReadProc(r, c, d, ks);
    ReadSys(r, c, d, ks);
  }

  lemma AllListed(k: Key)
    ensures k in ALL
  {
    match k
    case IsolatedCores => assert ALL[0] == k;
    case HousekeepingCore => assert ALL[1] == k;
    case DisableSmt => assert ALL[2] == k;
    case DisableFrequencyBoost => assert ALL[3] == k;
    case MaxCstate => assert ALL[4] == k;
    case StopIrqbalance => assert ALL[5] == k;
    case DisableSwap => assert ALL[6] == k;
    case IsolateMultiuser => assert ALL[7] == k;
    case NsServer => assert ALL[8] == k;
    case NsClient => assert ALL[9] == k;
    case VethServer => assert ALL[10] == k;
    case VethClient => assert ALL[11] == k;
    case ServerIp => assert ALL[12] == k;
    case ClientIp => assert ALL[13] == k;
    case NetemDelayMs => assert ALL[14] == k;
    case NetemJitterMs => assert ALL[15] == k;
    case NetemLossPct => assert ALL[16] == k;
    case DisableOffloading => assert ALL[17] == k;
    case ServerCores => assert ALL[18] == k;
    case ClientCores => assert ALL[19] == k;
    case RtPriority => assert ALL[20] == k;
    case DisableAslr => assert ALL[21] == k;
    case TuneNetBuffers => assert ALL[22] == k;
    case DropCaches => assert ALL[23] == k;
    case StopTimesyncd => assert ALL[24] == k;
    case ApplyNohzFull => assert ALL[25] == k;
    case ApplyRcuNocbs => assert ALL[26] == k;
  }

  lemma EveryKeyListed()
    ensures forall k: Key :: k in Listed(ALL)
  {
    forall k: Key ensures k in Listed(ALL) {
      AllListed(k);
    }
  }

  // With every key listed, each group of fields is that of `c`.

  lemma CpuOf(c: SetupConfig)
    ensures CpuConfig(
              c.cpu.isolatedCores, IntField(c, HousekeepingCore), BoolField(c, DisableSmt),
              BoolField(c, DisableFrequencyBoost), IntField(c, MaxCstate), BoolField(c, StopIrqbalance),
              BoolField(c, DisableSwap), BoolField(c, IsolateMultiuser)) == c.cpu
  {
  }

  lemma NetOf(c: SetupConfig)
    ensures NetConfig(
              StrField(c, NsServer), StrField(c, NsClient), StrField(c, VethServer), StrField(c, VethClient),
              StrField(c, ServerIp), StrField(c, ClientIp), IntField(c, NetemDelayMs), IntField(c, NetemJitterMs),
              c.net.netemLossPct, BoolField(c, DisableOffloading)) == c.net
  {
  }

  lemma ProcOf(c: SetupConfig)
    ensures ProcConfig(StrField(c, ServerCores), StrField(c, ClientCores), IntField(c, RtPriority)) == c.proc
  {
  }

  lemma SysOf(c: SetupConfig)
    ensures SysctlConfig(
              BoolField(c, DisableAslr), BoolField(c, TuneNetBuffers), BoolField(c, DropCaches),
              BoolField(c, StopTimesyncd), BoolField(c, ApplyNohzFull), BoolField(c, ApplyRcuNocbs)) == c.sys
  {
  }

  lemma MergeAll(c: SetupConfig, d: SetupConfig, ks: set<Key>)
    requires forall k: Key :: k in ks
    ensures Merge(c, d, ks) == c
  {
    assert MergeCpu(c, d, ks) == c.cpu by { CpuOf(c); }
    assert MergeNet(c, d, ks) == c.net by { NetOf(c); }
    assert MergeProc(c, d, ks) == c.proc by { ProcOf(c); }
    assert MergeSys(c, d, ks) == c.sys by { SysOf(c); }
  }

  /** Round trip: a printable configuration is read back unchanged, even when a value spells a key. */
  lemma ConfigRoundTrip(c: SetupConfig)
    requires Printable(c)
    ensures Decoded(ToJson(c)) == c
  {
    EveryKeyListed();
    AnyLinesDecode(c, ALL);
    MergeAll(c, DEFAULT, Listed(ALL));
  }

  /** On every printed configuration the C and the Rust string readers return the printed string. */
  lemma ReadersAgreeOnConfig(c: SetupConfig, k: Key)
    requires Printable(c) && KindOf(k) == Str
    ensures CString(ToJson(c), Name(k)) == Some(StrField(c, k))
    ensures RustString(ToJson(c), Name(k)) == Some(StrField(c, k))
  {
    AllListed(k);
    StrRead(c, ALL, k);
  }

  // ---- Quotes inside a string -----------------------------------------------------

  predicate LossOk(c: SetupConfig) {
    && AllDigits(c.net.netemLossPct.frac)
    && (c.net.netemLossPct.frac != "" ==> c.net.netemLossPct.frac[|c.net.netemLossPct.frac| - 1] != '0')
  }

  lemma GoodIfQuoteFree(c: SetupConfig, k: Key)
    requires LossOk(c) && QuoteFree(StrField(c, k))
    ensures GoodValue(ValueText(c, k))
  {
    match KindOf(k)
    case Cores => JoinSpacedPlain(c.cpu.isolatedCores);
    case Int => DecQuoteFree(IntField(c, k));
    case Bool =>
    case Str => assert Quoted(StrField(c, k))[1..|StrField(c, k)| + 1] == StrField(c, k);
    case Float => LossPlain(c.net.netemLossPct);
  }

  /** All strings in front of key `i` are quote-free. */
  predicate GoodBefore(c: SetupConfig, ks: seq<Key>, i: nat)
    requires i < |ks|
  {
    forall j :: 0 <= j < i ==> QuoteFree(StrField(c, ks[j]))
  }

  lemma {:induction false} EntryAt(c: SetupConfig, ks: seq<Key>, i: nat)
    requires i < |ks|
    ensures |EntriesFor(c, ks)| == |ks| && EntriesFor(c, ks)[i] == Entry(Name(ks[i]), ValueText(c, ks[i]))
    decreases |ks|
  {
    if |ks| == 1 {
    } else {
      EntryAt(c, ks[1..], if i > 0 then i - 1 else 0);
    }
  }

  /** The search reaches the line of the first key whose string holds a quote. */
  lemma ReachLine(c: SetupConfig, ks: seq<Key>, i: nat) returns (tail: string)
    requires LossOk(c) && i < |ks| && GoodBefore(c, ks, i) && !QuoteFree(StrField(c, ks[i]))
    ensures After(Lines(EntriesFor(c, ks), "") + "}", Needle(Name(ks[i]))) == Some(" " + ValueText(c, ks[i]) + tail)
  {
    var es := EntriesFor(c, ks);
    EntryAt(c, ks, i);
    forall j | 0 <= j < i ensures GoodEntry(es[j]) && es[j].key != es[i].key {
      EntryAt(c, ks, j);
      GoodIfQuoteFree(c, ks[j]);
      NameGood(ks[j]);
      NameInjective(ks[j], ks[i]);
    }
    NameGood(ks[i]);
    tail := ReachEntry(es, i, "", "}");
  }

  /** A string with a quote inside is not read back. */
  lemma QuoteCutsValue(v: string, tail: string)
    requires !QuoteFree(v)
    ensures LeadingString(TrimStart(" " + Quoted(v) + tail)) != Some(v)
  {
    var s := " " + Quoted(v) + tail;
    assert s[1..] == Quoted(v) + tail && s[1] == '"';
    assert TrimStart(s) == s[1..];
    UpToAll(s[1..][1..], {'"'});
  }

  lemma {:induction false} FirstQuote(c: SetupConfig, ks: seq<Key>, k: Key) returns (i: nat)
    requires k in ks && !QuoteFree(StrField(c, k))
    ensures i < |ks| && !QuoteFree(StrField(c, ks[i])) && GoodBefore(c, ks, i)
  {
    if !QuoteFree(StrField(c, ks[0])) {
      i := 0;
    } else {
      assert k in ks[1..];
      i := FirstQuote(c, ks[1..], k);
      i := i + 1;
    }
  }

  lemma DecodedStr(json: string, k: Key)
    requires KindOf(k) == Str
    ensures StrField(Decoded(json), k) == StrOr(ReadersOf(json), k, StrField(DEFAULT, k))
  {
  }

  /** The search for the first string field that holds a quote stops in front of that quote. */
  lemma QuotedFieldLost(c: SetupConfig)
    requires LossOk(c) && exists k :: !QuoteFree(StrField(c, k))
    ensures Decoded(ToJson(c)) != c
  {
    EveryKeyListed();
    var k :| !QuoteFree(StrField(c, k));
    assert k in ALL;
    var i := FirstQuote(c, ALL, k);
    var tail := ReachLine(c, ALL, i);
    SkipBrace(c, ALL[i]);
    QuoteCutsValue(StrField(c, ALL[i]), tail);
    DecodedStr(ToJson(c), ALL[i]);
    NotTheDefault(ALL[i]);
  }

  lemma SkipBrace(c: SetupConfig, k: Key)
    ensures After(ToJson(c), Needle(Name(k))) == After(Lines(EntriesFor(c, ALL), "") + "}", Needle(Name(k)))
  {
    var rest := Lines(EntriesFor(c, ALL), "") + "}";
    assert ToJson(c) == "{\n" + rest;
    SkipQuoteFree("{\n", rest, Name(k));
  }

  /** The default strings hold no quote. */
  lemma NotTheDefault(k: Key)
    ensures QuoteFree(StrField(DEFAULT, k))
  {
  }

  /**
   The exact condition of the round trip: a configuration is read back unchanged if and only if none of
   its strings holds a quote, because the printer does not escape.
   */
  lemma RoundTripExactly(c: SetupConfig)
    requires LossOk(c)
    ensures Decoded(ToJson(c)) == c <==> forall k: Key :: QuoteFree(StrField(c, k))
  {
    if forall k: Key :: QuoteFree(StrField(c, k)) {
      ConfigRoundTrip(c);
    } else {
      QuotedFieldLost(c);
    }
  }
}
