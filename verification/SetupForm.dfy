/** The rows of the setup tab: what a row shows, toggles and takes from the edit buffer. */
module SetupForm {
  import opened Text
  import opened JsonText
  import opened Grub
  import opened ConfigStore
  import opened ConfigRoundTrip

  datatype RowKind = Edit | Toggle | Separator | Action

  const ITEM_COUNT: nat := 29
  const SEPARATOR: nat := 25
  const APPLY: nat := 26
  const TEARDOWN: nat := 27

  /** The kinds of `SETUP_ITEMS`. */
  function KindAt(row: nat): RowKind {
    match row
    case 0 | 1 | 4 | 8 | 9 | 10 | 11 | 12 | 13 | 14 | 16 | 17 | 18 => Edit
    case 25 => Separator
    case 26 | 27 | 28 => Action
    case _ => Toggle
  }

  /** The field a row shows (`get_config_value`). */
  function KeyAt(row: nat): Key
    requires row < SEPARATOR
  {
    match row
    case 0 => IsolatedCores
    case 1 => HousekeepingCore
    case 2 => DisableSmt
    case 3 => DisableFrequencyBoost
    case 4 => MaxCstate
    case 5 => StopIrqbalance
    case 6 => DisableSwap
    case 7 => IsolateMultiuser
    case 8 => NsServer
    case 9 => NsClient
    case 10 => ServerIp
    case 11 => ClientIp
    case 12 => NetemDelayMs
    case 13 => NetemJitterMs
    case 14 => NetemLossPct
    case 15 => DisableOffloading
    case 16 => ServerCores
    case 17 => ClientCores
    case 18 => RtPriority
    case 19 => DisableAslr
    case 20 => TuneNetBuffers
    case 21 => DropCaches
    case 22 => StopTimesyncd
    case 23 => ApplyNohzFull
    case 24 => ApplyRcuNocbs
  }

  /** The text of a row; `lossText` is the loss printed with two decimals. */
  function ShownText(c: SetupConfig, row: nat, lossText: string): string
    requires row < SEPARATOR
  {
    var k := KeyAt(row);
    match KindOf(k)
    case Cores => JoinCores(c.cpu.isolatedCores)
    case Int => Dec(IntField(c, k))
    case Bool => if BoolField(c, k) then "true  [ON]" else "false [OFF]"
    case Str => StrField(c, k)
    case Float => lossText
  }

  /** `toggle_field`. */
  function Toggled(c: SetupConfig, row: nat): SetupConfig {
    match row
    case 2 => c.(cpu := c.cpu.(disableSmt := !c.cpu.disableSmt))
    case 3 => c.(cpu := c.cpu.(disableFrequencyBoost := !c.cpu.disableFrequencyBoost))
    case 5 => c.(cpu := c.cpu.(stopIrqbalance := !c.cpu.stopIrqbalance))
    case 6 => c.(cpu := c.cpu.(disableSwap := !c.cpu.disableSwap))
    case 7 => c.(cpu := c.cpu.(isolateMultiuser := !c.cpu.isolateMultiuser))
    case 15 => c.(net := c.net.(disableOffloading := !c.net.disableOffloading))
    case 19 => c.(sys := c.sys.(disableAslr := !c.sys.disableAslr))
    case 20 => c.(sys := c.sys.(tuneNetBuffers := !c.sys.tuneNetBuffers))
    case 21 => c.(sys := c.sys.(dropCaches := !c.sys.dropCaches))
    case 22 => c.(sys := c.sys.(stopTimesyncd := !c.sys.stopTimesyncd))
    case 23 => c.(sys := c.sys.(applyNohzFull := !c.sys.applyNohzFull))
    case 24 => c.(sys := c.sys.(applyRcuNocbs := !c.sys.applyRcuNocbs))
    case _ => c
  }

  function Trim(s: string): string {
    TrimEnd(TrimStart(s))
  }

  function WithInt(c: SetupConfig, row: nat, v: i32): SetupConfig {
    match row
    case 1 => c.(cpu := c.cpu.(housekeepingCore := v))
    case 4 => c.(cpu := c.cpu.(maxCstate := v))
    case 12 => c.(net := c.net.(netemDelayMs := v))
    case 13 => c.(net := c.net.(netemJitterMs := v))
    case 18 => c.(proc := c.proc.(rtPriority := v))
    case _ => c
  }

  function WithStr(c: SetupConfig, row: nat, v: string): SetupConfig {
    match row
    case 8 => c.(net := c.net.(nsServer := v))
    case 9 => c.(net := c.net.(nsClient := v))
    case 10 => c.(net := c.net.(serverIp := v))
    case 11 => c.(net := c.net.(clientIp := v))
    case 16 => c.(proc := c.proc.(serverCores := v))
    case 17 => c.(proc := c.proc.(clientCores := v))
    case _ => c
  }

  function WithCores(c: SetupConfig, cores: seq<i32>): Option<SetupConfig> {
    if cores != [] then Some(c.(cpu := c.cpu.(isolatedCores := cores))) else None
  }

  /** `commit_edit` on the trimmed buffer: the new configuration, or nothing when the text is refused. */
  function Committed(c: SetupConfig, row: nat, text: string): Option<SetupConfig> {
    match row
    case 0 => WithCores(c, ParseCores(Split(text, ',')))
    case 1 | 4 | 12 | 13 | 18 =>
      (match ParseI32(text) case Some(v) => Some(WithInt(c, row, v)) case None => None)
    case 8 | 9 | 10 | 11 | 16 | 17 => Some(WithStr(c, row, text))
    case 14 =>
      (match ParseLoss(text) case Some(v) => Some(c.(net := c.net.(netemLossPct := v))) case None => None)
    case _ => None
  }

  // ---- Rows and fields match ------------------------------------------------------------

  predicate SameField(c: SetupConfig, d: SetupConfig, k: Key) {
    match KindOf(k)
    case Cores => c.cpu.isolatedCores == d.cpu.isolatedCores
    case Int => IntField(c, k) == IntField(d, k)
    case Bool => BoolField(c, k) == BoolField(d, k)
    case Str => StrField(c, k) == StrField(d, k)
    case Float => c.net.netemLossPct == d.net.netemLossPct
  }

  /** `toggle_field` changes something exactly on the toggle rows, and those are the rows of the flags. */
  lemma TogglesHandled(c: SetupConfig, row: nat)
    requires row < ITEM_COUNT
    ensures KindAt(row) == Toggle <==> Toggled(c, row) != c
    ensures KindAt(row) == Toggle <==> row < SEPARATOR && KindOf(KeyAt(row)) == Bool
  {
  }

  /** `commit_edit` can accept a text exactly on the edit rows. */
  lemma EditsHandled(c: SetupConfig, row: nat)
    requires row < ITEM_COUNT
    ensures KindAt(row) == Edit <==> exists text :: Committed(c, row, text).Some?
  {
    if KindAt(row) == Edit {
      OneIsAccepted(c, row);
    }
  }

  lemma OneIsAccepted(c: SetupConfig, row: nat)
    requires KindAt(row) == Edit
    ensures Committed(c, row, "1").Some?
  {
    assert Digits(1) == "1" == Dec(1);
    ParseDec(1);
    SplitNone("1", ',');
    assert TrimStart("1") == "1" && TrimEnd("1") == "1";
    assert ParseCores(["1"]) == [1];
    UpToStops("1", "", {'.'});
    assert "1" + "" == "1";
    assert ParseUnsigned(false, "1").Some?;
  }

  lemma ToggleKeepsRest(c: SetupConfig, row: nat)
    requires row < SEPARATOR && KindAt(row) == Toggle
    ensures var d := Toggled(c, row);
            d.proc == c.proc && d.cpu.isolatedCores == c.cpu.isolatedCores &&
            d.cpu.housekeepingCore == c.cpu.housekeepingCore && d.cpu.maxCstate == c.cpu.maxCstate &&
            d.net == c.net.(disableOffloading := d.net.disableOffloading)
  {
  }

  lemma ToggleCpu(c: SetupConfig, row: nat, k: Key)
    requires row < 15 && KindAt(row) == Toggle
    ensures BoolField(Toggled(c, row), k) == (BoolField(c, k) != (k == KeyAt(row)))
  {
  }

  lemma ToggleOther(c: SetupConfig, row: nat, k: Key)
    requires 15 <= row < SEPARATOR && KindAt(row) == Toggle
    ensures BoolField(Toggled(c, row), k) == (BoolField(c, k) != (k == KeyAt(row)))
  {
  }

  /** A toggle flips the flag its row shows and leaves every other field alone. */
  lemma ToggleFlipsOwnRow(c: SetupConfig, row: nat, k: Key)
    requires row < SEPARATOR && KindAt(row) == Toggle
    ensures k == KeyAt(row) ==> BoolField(Toggled(c, row), k) == !BoolField(c, k)
    ensures k != KeyAt(row) ==> SameField(c, Toggled(c, row), k)
  {
    if KindOf(k) == Bool {
      if row < 15 {
        ToggleCpu(c, row, k);
      } else {
        ToggleOther(c, row, k);
      }
    } else {
      ToggleKeepsRest(c, row);
      TogglesHandled(c, row);
    }
  }

  lemma CpuIntWritesOwnRow(c: SetupConfig, row: nat, v: i32, k: Key)
    requires (row == 1 || row == 4) && k != KeyAt(row)
    ensures SameField(c, WithInt(c, row, v), k)
  {
  }

  lemma NetIntWritesOwnRow(c: SetupConfig, row: nat, v: i32, k: Key)
    requires (row == 12 || row == 13) && k != KeyAt(row)
    ensures SameField(c, WithInt(c, row, v), k)
  {
  }

  lemma ProcIntWritesOwnRow(c: SetupConfig, v: i32, k: Key)
    requires k != RtPriority
    ensures SameField(c, WithInt(c, 18, v), k)
  {
  }

  lemma NetWritesOwnRow(c: SetupConfig, row: nat, text: string, k: Key)
    requires 8 <= row < 12 && k != KeyAt(row)
    ensures SameField(c, WithStr(c, row, text), k)
  {
  }

  lemma ProcWritesOwnRow(c: SetupConfig, row: nat, text: string, k: Key)
    requires 16 <= row < 18 && k != KeyAt(row)
    ensures SameField(c, WithStr(c, row, text), k)
  {
  }

  lemma CoresWriteOwnRow(c: SetupConfig, cores: seq<i32>, k: Key)
    requires cores != [] && k != IsolatedCores
    ensures SameField(c, WithCores(c, cores).value, k)
  {
  }

  lemma LossWritesOwnRow(c: SetupConfig, v: Loss, k: Key)
    requires k != NetemLossPct
    ensures SameField(c, c.(net := c.net.(netemLossPct := v)), k)
  {
  }

  /** An accepted edit leaves every field but the one its row shows alone. */
  lemma CommitWritesOwnRow(c: SetupConfig, row: nat, text: string, k: Key)
    requires row < SEPARATOR && Committed(c, row, text).Some? && k != KeyAt(row)
    ensures SameField(c, Committed(c, row, text).value, k)
  {
    match row
    case 0 => CoresWriteOwnRow(c, ParseCores(Split(text, ',')), k);
    case 1 | 4 => CpuIntWritesOwnRow(c, row, ParseI32(text).value, k);
    case 12 | 13 => NetIntWritesOwnRow(c, row, ParseI32(text).value, k);
    case 18 => ProcIntWritesOwnRow(c, ParseI32(text).value, k);
    case 8 | 9 | 10 | 11 => NetWritesOwnRow(c, row, text, k);
    case 14 => LossWritesOwnRow(c, ParseLoss(text).value, k);
    case 16 | 17 => ProcWritesOwnRow(c, row, text, k);
    case _ =>
  }

  lemma AnotherCore(text: string, cores: seq<i32>, last: i32)
    requires ParseCores(Split(text, ',')) == cores
    ensures ParseCores(Split(text + ("," + Dec(last)), ',')) == cores + [last]
  {
    OneCore(last);
    SplitLast(text, Dec(last), ',');
    ParseCoresConcat(Split(text, ','), [Dec(last)]);
  }

  lemma OneCore(v: i32)
    ensures ',' !in Dec(v) && ParseCores([Dec(v)]) == [v]
  {
    ParseDec(v);
    DecTrimmed(v);
  }

  lemma {:induction false} ShownCoresParse(cores: seq<i32>)
    requires cores != []
    ensures ParseCores(Split(JoinCores(cores), ',')) == cores
  {
    var init, last := cores[..|cores| - 1], cores[|cores| - 1];
    assert cores == init + [last];
    OneCore(last);
    if init == [] {
      SplitNone(Dec(last), ',');
    } else {
      ShownCoresParse(init);
      JoinMore(init, last);
      AnotherCore(JoinCores(init), init, last);
    }
  }

  lemma DecTrimmed(v: int)
    ensures Trim(Dec(v)) == Dec(v)
  {
    ParseDec(v);
    var s := Dec(v);
    assert NumeralChar(s[0]) && NumeralChar(s[|s| - 1]);
  }

  lemma CoresTrimmed(cores: seq<i32>)
    ensures Trim(JoinCores(cores)) == JoinCores(cores)
  {
    var s := JoinCores(cores);
    CoreEnds(cores);
    if s != "" {
      assert TrimStart(s) == s && TrimEnd(s) == s;
    }
  }

  lemma {:induction false} CoreEnds(cores: seq<i32>)
    ensures var s := JoinCores(cores); s != "" ==> NumeralChar(s[0]) && NumeralChar(s[|s| - 1])
    ensures cores != [] ==> JoinCores(cores) != ""
  {
    if cores == [] {
    } else {
      var last := cores[|cores| - 1];
      ParseDec(last);
      if |cores| > 1 {
        CoreEnds(cores[..|cores| - 1]);
      }
    }
  }

  lemma IntRoundTrip(c: SetupConfig, row: nat)
    requires row < SEPARATOR && KindOf(KeyAt(row)) == Int
    ensures Committed(c, row, Trim(Dec(IntField(c, KeyAt(row))))) == Some(c)
  {
    var v := IntField(c, KeyAt(row));
    DecTrimmed(v);
    ParseDec(v);
    assert ParseI32(Dec(v)) == Some(v);
    assert WithInt(c, row, v) == c;
  }

  lemma StrRoundTrip(c: SetupConfig, row: nat, text: string)
    requires row < SEPARATOR && KindOf(KeyAt(row)) == Str
    ensures Committed(c, row, text) == Some(c) <==> text == StrField(c, KeyAt(row))
  {
  }

  lemma CoresRoundTrip(c: SetupConfig)
    ensures Committed(c, 0, Trim(JoinCores(c.cpu.isolatedCores))) == Some(c) <==> c.cpu.isolatedCores != []
  {
    var cores := c.cpu.isolatedCores;
    CoresTrimmed(cores);
    if cores != [] {
      ShownCoresParse(cores);
    }
  }

  // ---- The loss row -------------------------------------------------------------------

  /** A fraction of at most two digits, filled up with zeros. */
  function Padded(frac: string): string
    requires |frac| <= 2
  {
    if |frac| == 2 then frac else if |frac| == 1 then frac + "0" else "00"
  }

  function Sign(neg: bool): string {
    if neg then "-" else ""
  }

  function TwoDigits(neg: bool, whole: nat, cents: string): string {
    Sign(neg) + (Digits(whole) + ("." + cents))
  }

  /**
   What `{:.2}` may print of a loss: two digits behind the point, those of the loss itself when it has no
   more. How a longer fraction is rounded does not matter here.
   */
  ghost predicate ShownLoss(text: string, l: Loss) {
    exists neg: bool, whole: nat, cents: string ::
      text == TwoDigits(neg, whole, cents) && |cents| == 2 && AllDigits(cents) &&
      (|l.frac| <= 2 ==> neg == l.neg && whole == l.whole && cents == Padded(l.frac))
  }

  lemma BodyParse(neg: bool, whole: nat, cents: string)
    requires |cents| == 2 && AllDigits(cents)
    ensures ParseUnsigned(neg, Digits(whole) + ("." + cents)) == Some(Loss(neg, whole, TrimZeros(cents)))
  {
    var d := Digits(whole);
    var body := d + ("." + cents);
    NatOfDigits(whole);
    DigitsPlain(whole);
    UpToStops(d, "." + cents, {'.'});
    assert body[|d| + 1..] == cents;
  }

  lemma SignedParse(neg: bool, body: string)
    requires body != "" && IsDigit(body[0])
    ensures ParseLoss(Sign(neg) + body) == ParseUnsigned(neg, body)
  {
    assert ("-" + body)[1..] == body;
    assert "" + body == body;
  }

  lemma SignedTrim(neg: bool, body: string)
    requires body != "" && IsDigit(body[0]) && IsDigit(body[|body| - 1])
    ensures Trim(Sign(neg) + body) == Sign(neg) + body
  {
    var s := Sign(neg) + body;
    assert s[|s| - 1] == body[|body| - 1];
    Untrimmed(s);
  }

  lemma BodyEnds(d: string, cents: string)
    requires d != "" && AllDigits(d) && |cents| == 2 && AllDigits(cents)
    ensures var body := d + ("." + cents); IsDigit(body[0]) && IsDigit(body[|body| - 1])
  {
    var body := d + ("." + cents);
    assert body[0] == d[0] && body[|body| - 1] == cents[1];
  }

  lemma TwoDigitsParse(neg: bool, whole: nat, cents: string, s: string)
    requires |cents| == 2 && AllDigits(cents) && s == TwoDigits(neg, whole, cents)
    ensures Trim(s) == s && ParseLoss(s) == Some(Loss(neg, whole, TrimZeros(cents)))
  {
    var body := Digits(whole) + ("." + cents);
    BodyParse(neg, whole, cents);
    BodyEnds(Digits(whole), cents);
    SignedParse(neg, body);
    SignedTrim(neg, body);
  }

  lemma Untrimmed(s: string)
    requires s != "" && !IsWhitespace(s[0]) && !IsWhitespace(s[|s| - 1])
    ensures Trim(s) == s
  {
  }

  lemma PaddedTrims(frac: string)
    requires |frac| <= 2 && AllDigits(frac) && (frac != "" ==> frac[|frac| - 1] != '0')
    ensures TrimZeros(Padded(frac)) == frac && AllDigits(Padded(frac)) && |Padded(frac)| == 2
  {
    if |frac| == 1 {
      assert (frac + "0")[..1] == frac;
    } else if frac == "" {
      assert "00"[..1] == "0" && "0"[..0] == "";
    }
  }

  lemma {:induction false} TrimmedShorter(s: string)
    ensures |TrimZeros(s)| <= |s|
  {
    if s == "" {
    } else if s[|s| - 1] == '0' {
      TrimmedShorter(s[..|s| - 1]);
    }
  }

  lemma SameLoss(l: Loss, neg: bool, whole: nat, cents: string)
    requires AllDigits(l.frac) && (l.frac != "" ==> l.frac[|l.frac| - 1] != '0') && |cents| == 2
    requires |l.frac| <= 2 ==> neg == l.neg && whole == l.whole && cents == Padded(l.frac)
    ensures Loss(neg, whole, TrimZeros(cents)) == l <==> |l.frac| <= 2
  {
    TrimmedShorter(cents);
    if |l.frac| <= 2 {
      PaddedTrims(l.frac);
    }
  }

  lemma LossCommitted(c: SetupConfig, text: string, v: Loss)
    requires ParseLoss(text) == Some(v)
    ensures Committed(c, 14, text) == Some(c) <==> v == c.net.netemLossPct
  {
  }

  lemma ShownLossCommitted(c: SetupConfig, text: string, neg: bool, whole: nat, cents: string)
    requires text == TwoDigits(neg, whole, cents) && |cents| == 2 && AllDigits(cents)
    ensures Committed(c, 14, Trim(text)) == Some(c) <==> Loss(neg, whole, TrimZeros(cents)) == c.net.netemLossPct
  {
    TwoDigitsParse(neg, whole, cents, text);
    LossCommitted(c, Trim(text), Loss(neg, whole, TrimZeros(cents)));
  }

  lemma LossRoundTrip(c: SetupConfig, text: string)
    requires LossOk(c) && ShownLoss(text, c.net.netemLossPct)
    ensures Committed(c, 14, Trim(text)) == Some(c) <==> |c.net.netemLossPct.frac| <= 2
  {
    var l := c.net.netemLossPct;
    var neg: bool, whole: nat, cents: string :|
      text == TwoDigits(neg, whole, cents) && |cents| == 2 && AllDigits(cents) &&
      (|l.frac| <= 2 ==> neg == l.neg && whole == l.whole && cents == Padded(l.frac));
    ShownLossCommitted(c, text, neg, whole, cents);
    SameLoss(l, neg, whole, cents);
  }

  /**
   Opening a row and committing at once changes nothing: always for integers, for cores iff there is at
   least one (the empty list is refused), for strings iff the text has no white space at its ends, for
   the loss iff it has at most two digits behind the point.
   */
  lemma EditRoundTrip(c: SetupConfig, row: nat, lossText: string)
    requires row < SEPARATOR && KindAt(row) == Edit
    requires row == 14 ==> LossOk(c) && ShownLoss(lossText, c.net.netemLossPct)
    ensures Committed(c, row, Trim(ShownText(c, row, lossText))) == Some(c) <==>
            (row == 0 ==> c.cpu.isolatedCores != []) &&
            (KindOf(KeyAt(row)) == Str ==> Trim(ShownText(c, row, lossText)) == ShownText(c, row, lossText)) &&
            (row == 14 ==> |c.net.netemLossPct.frac| <= 2)
  {
    match KindOf(KeyAt(row))
    case Cores => CoresRoundTrip(c);
    case Int => IntRoundTrip(c, row);
    case Str => StrRoundTrip(c, row, Trim(ShownText(c, row, lossText)));
    case Float => LossRoundTrip(c, lossText);
  }

  // ---- What a commit stores ------------------------------------------------------------------

  /** A number that parses is stored, any other text changes nothing. */
  predicate IntStored(text: string, was: SetupConfig, now: SetupConfig, field: i32) {
    match ParseI32(text) case Some(v) => field == v case None => now == was
  }

  /** The ids of the text in order; without any the text is refused. */
  predicate CoresStored(text: string, was: SetupConfig, now: SetupConfig) {
    if ParseCores(Split(text, ',')) == [] then now == was else now.cpu.isolatedCores == ParseCores(Split(text, ','))
  }

  predicate LossStored(text: string, was: SetupConfig, now: SetupConfig) {
    match ParseLoss(text) case Some(v) => now.net.netemLossPct == v case None => now == was
  }

  predicate StringStored(row: nat, text: string, now: SetupConfig) {
    && (row == 8 ==> now.net.nsServer == text)
    && (row == 9 ==> now.net.nsClient == text)
    && (row == 10 ==> now.net.serverIp == text)
    && (row == 11 ==> now.net.clientIp == text)
    && (row == 16 ==> now.proc.serverCores == text)
    && (row == 17 ==> now.proc.clientCores == text)
  }

  /** What a commit of the trimmed text on a row has to leave. */
  predicate Stored(row: nat, text: string, was: SetupConfig, now: SetupConfig) {
    && (row == 0 ==> CoresStored(text, was, now))
    && (row == 1 ==> IntStored(text, was, now, now.cpu.housekeepingCore))
    && (row == 4 ==> IntStored(text, was, now, now.cpu.maxCstate))
    && (row == 12 ==> IntStored(text, was, now, now.net.netemDelayMs))
    && (row == 13 ==> IntStored(text, was, now, now.net.netemJitterMs))
    && (row == 18 ==> IntStored(text, was, now, now.proc.rtPriority))
    && (row == 14 ==> LossStored(text, was, now))
    && StringStored(row, text, now)
    && (row !in {0, 1, 4, 8, 9, 10, 11, 12, 13, 14, 16, 17, 18} ==> now == was)
  }

  lemma CommitStores(c: SetupConfig, row: nat, text: string)
    ensures Stored(row, text, c, match Committed(c, row, text) case Some(d) => d case None => c)
  {
  }

  /** Typing the comma list of any cores commits these cores, in this order. */
  lemma TypedList(c: SetupConfig, cores: seq<i32>, now: SetupConfig)
    requires cores != [] && Stored(0, JoinCores(cores), c, now)
    ensures now.cpu.isolatedCores == cores
  {
    ShownCoresParse(cores);
  }

  /** Typing a number commits this number. */
  lemma TypedNumber(c: SetupConfig, v: i32, row: nat, now: SetupConfig)
    requires Stored(row, Dec(v), c, now)
    ensures row == 1 ==> now.cpu.housekeepingCore == v
    ensures row == 4 ==> now.cpu.maxCstate == v
    ensures row == 12 ==> now.net.netemDelayMs == v
    ensures row == 13 ==> now.net.netemJitterMs == v
    ensures row == 18 ==> now.proc.rtPriority == v
  {
    ParseDec(v);
  }

  /** Each row shows its own field. */
  lemma ShownCpu(c: SetupConfig, loss: string)
    ensures ShownText(c, 0, loss) == JoinCores(c.cpu.isolatedCores)
    ensures ShownText(c, 1, loss) == Dec(c.cpu.housekeepingCore) && ShownText(c, 4, loss) == Dec(c.cpu.maxCstate)
  {
    IntText(c, 1, loss);
    IntText(c, 4, loss);
  }

  lemma ShownNet(c: SetupConfig, loss: string)
    ensures ShownText(c, 12, loss) == Dec(c.net.netemDelayMs) && ShownText(c, 13, loss) == Dec(c.net.netemJitterMs)
    ensures ShownText(c, 14, loss) == loss && ShownText(c, 18, loss) == Dec(c.proc.rtPriority)
  {
    IntText(c, 12, loss);
    IntText(c, 13, loss);
    IntText(c, 18, loss);
  }

  lemma IntText(c: SetupConfig, row: nat, loss: string)
    requires row < SEPARATOR && KindOf(KeyAt(row)) == Int
    ensures ShownText(c, row, loss) == Dec(IntField(c, KeyAt(row)))
  {
  }

  lemma ShownStrings(c: SetupConfig, loss: string)
    ensures ShownText(c, 8, loss) == c.net.nsServer && ShownText(c, 9, loss) == c.net.nsClient
    ensures ShownText(c, 10, loss) == c.net.serverIp && ShownText(c, 11, loss) == c.net.clientIp
    ensures ShownText(c, 16, loss) == c.proc.serverCores && ShownText(c, 17, loss) == c.proc.clientCores
  {
  }

  /** A toggle row shows its flag, and a toggle changes what it shows. */
  lemma ShownFlag(c: SetupConfig, row: nat, loss: string)
    requires row < SEPARATOR && KindAt(row) == Toggle
    ensures ShownText(c, row, loss) == if BoolField(c, KeyAt(row)) then "true  [ON]" else "false [OFF]"
    ensures ShownText(Toggled(c, row), row, loss) != ShownText(c, row, loss)
  {
    ToggleFlipsOwnRow(c, row, KeyAt(row));
    TogglesHandled(c, row);
    assert "true  [ON]"[0] == 't' && "false [OFF]"[0] == 'f';
  }
}
