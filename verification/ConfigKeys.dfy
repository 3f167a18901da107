/** The configuration file by the names written in it: which literal key belongs to which field, both ways. */
module ConfigKeys {
  import opened Text
  import opened JsonText
  import opened ConfigStore
  import opened ConfigRoundTrip
  import opened CReaders

  // ---- Which name belongs to which field -------------------------------------------------

  predicate NumbersAre(read: string -> Option<int>, c: SetupConfig) {
    && read("housekeeping_core") == Some(c.cpu.housekeepingCore)
    && read("max_cstate") == Some(c.cpu.maxCstate)
    && read("netem_delay_ms") == Some(c.net.netemDelayMs)
    && read("netem_jitter_ms") == Some(c.net.netemJitterMs)
    && read("rt_priority") == Some(c.proc.rtPriority)
  }

  predicate MachineFlagsAre(read: string -> Option<bool>, c: SetupConfig) {
    && read("disable_smt") == Some(c.cpu.disableSmt)
    && read("disable_frequency_boost") == Some(c.cpu.disableFrequencyBoost)
    && read("stop_irqbalance") == Some(c.cpu.stopIrqbalance)
    && read("disable_swap") == Some(c.cpu.disableSwap)
    && read("isolate_multiuser") == Some(c.cpu.isolateMultiuser)
    && read("disable_offloading") == Some(c.net.disableOffloading)
  }

  predicate SystemFlagsAre(read: string -> Option<bool>, c: SetupConfig) {
    && read("disable_aslr") == Some(c.sys.disableAslr)
    && read("tune_net_buffers") == Some(c.sys.tuneNetBuffers)
    && read("drop_caches") == Some(c.sys.dropCaches)
    && read("stop_timesyncd") == Some(c.sys.stopTimesyncd)
    && read("apply_nohz_full") == Some(c.sys.applyNohzFull)
    && read("apply_rcu_nocbs") == Some(c.sys.applyRcuNocbs)
  }

  /** The four names the C code asks for. */
  predicate NamesAre(read: string -> Option<string>, c: SetupConfig) {
    && read("ns_server") == Some(c.net.nsServer)
    && read("ns_client") == Some(c.net.nsClient)
    && read("veth_server") == Some(c.net.vethServer)
    && read("veth_client") == Some(c.net.vethClient)
  }

  predicate StringsAre(read: string -> Option<string>, c: SetupConfig) {
    && NamesAre(read, c)
    && read("server_ip") == Some(c.net.serverIp)
    && read("client_ip") == Some(c.net.clientIp)
    && read("server_cores") == Some(c.proc.serverCores)
    && read("client_cores") == Some(c.proc.clientCores)
  }

  lemma NumbersByName(read: string -> Option<int>, c: SetupConfig)
    requires forall k :: KindOf(k) == Int ==> read(Name(k)) == Some(IntField(c, k))
    ensures NumbersAre(read, c)
  {
    assert Name(HousekeepingCore) == "housekeeping_core" && Name(MaxCstate) == "max_cstate";
    assert Name(NetemDelayMs) == "netem_delay_ms" && Name(NetemJitterMs) == "netem_jitter_ms";
    assert Name(RtPriority) == "rt_priority";
  }

  lemma MachineFlagsByName(read: string -> Option<bool>, c: SetupConfig)
    requires forall k :: KindOf(k) == Bool ==> read(Name(k)) == Some(BoolField(c, k))
    ensures MachineFlagsAre(read, c)
  {
    assert Name(DisableSmt) == "disable_smt" && Name(DisableFrequencyBoost) == "disable_frequency_boost";
    assert Name(StopIrqbalance) == "stop_irqbalance" && Name(DisableSwap) == "disable_swap";
    assert Name(IsolateMultiuser) == "isolate_multiuser" && Name(DisableOffloading) == "disable_offloading";
  }

  lemma SystemFlagsByName(read: string -> Option<bool>, c: SetupConfig)
    requires forall k :: KindOf(k) == Bool ==> read(Name(k)) == Some(BoolField(c, k))
    ensures SystemFlagsAre(read, c)
  {
    assert Name(DisableAslr) == "disable_aslr" && Name(TuneNetBuffers) == "tune_net_buffers";
    assert Name(DropCaches) == "drop_caches" && Name(StopTimesyncd) == "stop_timesyncd";
    assert Name(ApplyNohzFull) == "apply_nohz_full" && Name(ApplyRcuNocbs) == "apply_rcu_nocbs";
  }

  lemma StringsByName(read: string -> Option<string>, c: SetupConfig)
    requires forall k :: KindOf(k) == Str ==> read(Name(k)) == Some(StrField(c, k))
    ensures StringsAre(read, c)
  {
    assert Name(NsServer) == "ns_server" && Name(NsClient) == "ns_client";
    assert Name(VethServer) == "veth_server" && Name(VethClient) == "veth_client";
    assert Name(ServerIp) == "server_ip" && Name(ClientIp) == "client_ip";
    assert Name(ServerCores) == "server_cores" && Name(ClientCores) == "client_cores";
  }

  // ---- The printed text -------------------------------------------------------------------

  /** In every printed configuration each number is found under its own name. */
  lemma PrintedNumbers(c: SetupConfig)
    requires Printable(c)
    ensures NumbersAre((key: string) => JsonInt(ToJson(c), key), c)
  {
    forall k | KindOf(k) == Int ensures JsonInt(ToJson(c), Name(k)) == Some(IntField(c, k)) {
      AllListed(k);
      IntRead(c, ALL, k);
    }
    NumbersByName((key: string) => JsonInt(ToJson(c), key), c);
  }

  /** ...each flag... */
  lemma PrintedFlags(c: SetupConfig)
    requires Printable(c)
    ensures MachineFlagsAre((key: string) => JsonBool(ToJson(c), key), c)
    ensures SystemFlagsAre((key: string) => JsonBool(ToJson(c), key), c)
  {
    forall k | KindOf(k) == Bool ensures JsonBool(ToJson(c), Name(k)) == Some(BoolField(c, k)) {
      AllListed(k);
      BoolRead(c, ALL, k);
    }
    MachineFlagsByName((key: string) => JsonBool(ToJson(c), key), c);
    SystemFlagsByName((key: string) => JsonBool(ToJson(c), key), c);
  }

  /** ...and each string. */
  lemma PrintedStrings(c: SetupConfig)
    requires Printable(c)
    ensures StringsAre((key: string) => RustString(ToJson(c), key), c)
  {
    forall k | KindOf(k) == Str ensures RustString(ToJson(c), Name(k)) == Some(StrField(c, k)) {
      ReadersAgreeOnConfig(c, k);
    }
    StringsByName((key: string) => RustString(ToJson(c), key), c);
  }

  lemma PrintedCores(c: SetupConfig)
    requires Printable(c)
    ensures exists list :: JsonArray(ToJson(c), "isolated_cores") == Some(list) &&
                           ParseCores(Split(list, ',')) == c.cpu.isolatedCores
  {
    AllListed(IsolatedCores);
    CoresRead(c, ALL);
    CoreListRoundTrip(c.cpu.isolatedCores);
  }

  lemma PrintedLoss(c: SetupConfig)
    requires Printable(c)
    ensures JsonFloat(ToJson(c), "netem_loss_pct") == Some(c.net.netemLossPct)
  {
    AllListed(NetemLossPct);
    FloatRead(c, ALL, NetemLossPct);
  }

  /** What the C code finds under its four names, through its 4096-byte buffer. */
  lemma CodeFindsNames(c: SetupConfig)
    requires Printable(c) && |ToJson(c)| < 4096 && NulFree(ToJson(c))
    ensures NamesAre((key: string) => CString(FileText(ToJson(c), 4096), key), c)
  {
    forall k | KindOf(k) == Str ensures CString(FileText(ToJson(c), 4096), Name(k)) == Some(StrField(c, k)) {
      CReadersAgree(c, k);
    }
    StringsByName((key: string) => CString(FileText(ToJson(c), 4096), key), c);
  }

  // ---- Any text ----------------------------------------------------------------------

  function Or<T>(read: Option<T>, otherwise: T): T {
    match read case Some(v) => v case None => otherwise
  }

  /** The low 32 bits of a 64-bit number, as a signed one; a missing number is the default. */
  predicate LowBits(read: Option<int>, v: i32, otherwise: i32) {
    match read
    case Some(n) => (n - v) % 0x1_0000_0000 == 0
    case None => v == otherwise
  }

  predicate NumbersFrom(read: string -> Option<int>, c: SetupConfig) {
    && LowBits(read("housekeeping_core"), c.cpu.housekeepingCore, 0)
    && LowBits(read("max_cstate"), c.cpu.maxCstate, 0)
    && LowBits(read("netem_delay_ms"), c.net.netemDelayMs, 25)
    && LowBits(read("netem_jitter_ms"), c.net.netemJitterMs, 5)
    && LowBits(read("rt_priority"), c.proc.rtPriority, 50)
  }

  predicate MachineFlagsFrom(read: string -> Option<bool>, c: SetupConfig) {
    && c.cpu.disableSmt == Or(read("disable_smt"), true)
    && c.cpu.disableFrequencyBoost == Or(read("disable_frequency_boost"), true)
    && c.cpu.stopIrqbalance == Or(read("stop_irqbalance"), true)
    && c.cpu.disableSwap == Or(read("disable_swap"), true)
    && c.cpu.isolateMultiuser == Or(read("isolate_multiuser"), false)
    && c.net.disableOffloading == Or(read("disable_offloading"), true)
  }

  predicate SystemFlagsFrom(read: string -> Option<bool>, c: SetupConfig) {
    && c.sys.disableAslr == Or(read("disable_aslr"), true)
    && c.sys.tuneNetBuffers == Or(read("tune_net_buffers"), true)
    && c.sys.dropCaches == Or(read("drop_caches"), true)
    && c.sys.stopTimesyncd == Or(read("stop_timesyncd"), true)
    && c.sys.applyNohzFull == Or(read("apply_nohz_full"), true)
    && c.sys.applyRcuNocbs == Or(read("apply_rcu_nocbs"), true)
  }

  predicate NamesFrom(read: string -> Option<string>, c: SetupConfig) {
    && c.net.nsServer == Or(read("ns_server"), "ns_server")
    && c.net.nsClient == Or(read("ns_client"), "ns_client")
    && c.net.vethServer == Or(read("veth_server"), "veth-srv")
    && c.net.vethClient == Or(read("veth_client"), "veth-cli")
  }

  predicate ListsFrom(read: string -> Option<string>, c: SetupConfig) {
    && c.net.serverIp == Or(read("server_ip"), "10.0.0.1/24")
    && c.net.clientIp == Or(read("client_ip"), "10.0.0.2/24")
    && c.proc.serverCores == Or(read("server_cores"), "2,4")
    && c.proc.clientCores == Or(read("client_cores"), "3,5")
  }

  lemma WrapIsLow(n: int)
    ensures (n - WrapI32(n)) % 0x1_0000_0000 == 0
  {
    var m := (n + 0x8000_0000) / 0x1_0000_0000;
    assert n - WrapI32(n) == m * 0x1_0000_0000;
  }

  lemma LowOr(read: Option<int>, d: i32)
    ensures LowBits(read, match read case Some(v) => WrapI32(v) case None => d, d)
  {
    if read.Some? {
      WrapIsLow(read.value);
    }
  }

  lemma NumbersMerge(r: Readers, read: string -> Option<int>)
    requires forall k :: KindOf(k) == Int ==> r.ints(k) == read(Name(k))
    ensures NumbersFrom(read, Merged(r, DEFAULT))
  {
    assert Name(HousekeepingCore) == "housekeeping_core" && Name(MaxCstate) == "max_cstate";
    assert Name(NetemDelayMs) == "netem_delay_ms" && Name(NetemJitterMs) == "netem_jitter_ms";
    assert Name(RtPriority) == "rt_priority";
    LowOr(read("housekeeping_core"), 0);
    LowOr(read("max_cstate"), 0);
    LowOr(read("netem_delay_ms"), 25);
    LowOr(read("netem_jitter_ms"), 5);
    LowOr(read("rt_priority"), 50);
  }

  lemma MachineFlagsMerge(r: Readers, read: string -> Option<bool>)
    requires forall k :: KindOf(k) == Bool ==> r.bools(k) == read(Name(k))
    ensures MachineFlagsFrom(read, Merged(r, DEFAULT))
  {
    assert Name(DisableSmt) == "disable_smt" && Name(DisableFrequencyBoost) == "disable_frequency_boost";
    assert Name(StopIrqbalance) == "stop_irqbalance" && Name(DisableSwap) == "disable_swap";
    assert Name(IsolateMultiuser) == "isolate_multiuser" && Name(DisableOffloading) == "disable_offloading";
  }

  lemma SystemFlagsMerge(r: Readers, read: string -> Option<bool>)
    requires forall k :: KindOf(k) == Bool ==> r.bools(k) == read(Name(k))
    ensures SystemFlagsFrom(read, Merged(r, DEFAULT))
  {
    assert Name(DisableAslr) == "disable_aslr" && Name(TuneNetBuffers) == "tune_net_buffers";
    assert Name(DropCaches) == "drop_caches" && Name(StopTimesyncd) == "stop_timesyncd";
    assert Name(ApplyNohzFull) == "apply_nohz_full" && Name(ApplyRcuNocbs) == "apply_rcu_nocbs";
  }

  lemma NamesMerge(r: Readers, read: string -> Option<string>)
    requires forall k :: KindOf(k) == Str ==> r.strs(k) == read(Name(k))
    ensures NamesFrom(read, Merged(r, DEFAULT))
  {
    assert Name(NsServer) == "ns_server" && Name(NsClient) == "ns_client";
    assert Name(VethServer) == "veth_server" && Name(VethClient) == "veth_client";
  }

  lemma ListsMerge(r: Readers, read: string -> Option<string>)
    requires forall k :: KindOf(k) == Str ==> r.strs(k) == read(Name(k))
    ensures ListsFrom(read, Merged(r, DEFAULT))
  {
    assert Name(ServerIp) == "server_ip" && Name(ClientIp) == "client_ip";
    assert Name(ServerCores) == "server_cores" && Name(ClientCores) == "client_cores";
  }

  /**
   From any text each field is read under its own name, numbers by their low 32 bits, and a name that is
   missing, as the two GRUB toggles are in older files, gives the default.
   */
  lemma DecodedByName(json: string)
    ensures var c := Decoded(json);
            && NumbersFrom((key: string) => JsonInt(json, key), c)
            && MachineFlagsFrom((key: string) => JsonBool(json, key), c)
            && SystemFlagsFrom((key: string) => JsonBool(json, key), c)
            && NamesFrom((key: string) => RustString(json, key), c)
            && ListsFrom((key: string) => RustString(json, key), c)
  {
    var r := ReadersOf(json);
    NumbersMerge(r, (key: string) => JsonInt(json, key));
    MachineFlagsMerge(r, (key: string) => JsonBool(json, key));
    SystemFlagsMerge(r, (key: string) => JsonBool(json, key));
    NamesMerge(r, (key: string) => RustString(json, key));
    ListsMerge(r, (key: string) => RustString(json, key));
  }

  lemma RestMerges(r: Readers)
    ensures Merged(r, DEFAULT).net.netemLossPct == Or(r.loss, Loss(false, 0, "1"))
    ensures Merged(r, DEFAULT).cpu.isolatedCores ==
            if r.cores.Some? then ParseCores(Split(r.cores.value, ',')) else [2, 3, 4, 5]
  {
  }

  lemma DecodedCores(json: string)
    ensures var list := JsonArray(json, "isolated_cores");
            Decoded(json).cpu.isolatedCores ==
            if list.Some? then ParseCores(Split(list.value, ',')) else [2, 3, 4, 5]
  {
    RestMerges(ReadersOf(json));
  }

  predicate LossFrom(read: string -> Option<Loss>, c: SetupConfig) {
    c.net.netemLossPct == Or(read("netem_loss_pct"), Loss(false, 0, "1"))
  }

  lemma LossMerge(r: Readers, read: string -> Option<Loss>)
    requires r.loss == read(Name(NetemLossPct))
    ensures LossFrom(read, Merged(r, DEFAULT))
  {
    RestMerges(r);
  }

  lemma DecodedLoss(json: string)
    ensures LossFrom((key: string) => JsonFloat(json, key), Decoded(json))
  {
    LossMerge(ReadersOf(json), (key: string) => JsonFloat(json, key));
  }

  // ---- What the printer writes and the readers accept --------------------------------------

  /** Behind its name each field is printed as JSON writes it. */
  lemma FieldsAsJson(c: SetupConfig, k: Key) returns (text: string, tail: string)
    requires Printable(c)
    ensures After(ToJson(c), Needle(Name(k))) == Some(" " + text + tail)
    ensures tail != "" && (tail[0] == ',' || tail[0] == '\n')
    ensures KindOf(k) == Bool ==> text == if BoolField(c, k) then "true" else "false"
    ensures KindOf(k) == Int ==> text == Dec(IntField(c, k))
    ensures KindOf(k) == Str ==> text == "\"" + StrField(c, k) + "\""
    ensures KindOf(k) == Cores ==> text == "[" + JoinSpaced(c.cpu.isolatedCores) + "]"
  {
    AllListed(k);
    text := ValueText(c, k);
    tail := BehindKey(c, ALL, k);
  }

  predicate Space(w: string) {
    forall c :: c in w ==> IsWhitespace(c)
  }

  lemma {:induction false} TrimSpace(w: string, s: string)
    requires Space(w) && (s == "" || !IsWhitespace(s[0]))
    ensures TrimStart(w + s) == s
  {
    if w == "" {
      assert w + s == s;
    } else {
      assert w[0] in w && forall c :: c in w[1..] ==> c in w;
      assert (w + s)[1..] == w[1..] + s;
      TrimSpace(w[1..], s);
    }
  }

  /** A flag is read in any file, behind any white space and in front of anything, also at the end. */
  lemma FlagForms(json: string, key: string, w: string, b: bool, y: string)
    requires Space(w) && After(json, Needle(key)) == Some(w + ((if b then "true" else "false") + y))
    ensures JsonBool(json, key) == Some(b)
  {
    var v := (if b then "true" else "false") + y;
    assert v[0] == 't' || v[0] == 'f';
    TrimSpace(w, v);
    BoolWord(b, y);
  }

  /** Anything else is no flag. */
  lemma NoFlag(json: string, key: string, w: string, v: string)
    requires Space(w) && After(json, Needle(key)) == Some(w + v) && (v == "" || v[0] !in {'t', 'f'})
    requires v == "" || !IsWhitespace(v[0])
    ensures JsonBool(json, key) == None
  {
    TrimSpace(w, v);
    assert "true"[0] == 't' && "false"[0] == 'f';
  }

  /** A decimal with or without a point, at least one digit in all; the zeros at its end do not count. */
  lemma LossForms(neg: bool, whole: string, frac: string)
    requires AllDigits(whole) && AllDigits(frac)
    ensures ParseLoss((if neg then "-" else "") + (whole + ("." + frac))) ==
            if whole == "" && frac == "" then None else Some(Loss(neg, NatOf(whole), TrimZeros(frac)))
    ensures ParseLoss((if neg then "-" else "") + whole) ==
            if whole == "" then None else Some(Loss(neg, NatOf(whole), ""))
  {
    SignedForm(neg, whole + ("." + frac));
    SignedForm(neg, whole);
    PointForm(neg, whole, frac);
    NoPointForm(neg, whole);
  }

  lemma SignedForm(neg: bool, body: string)
    requires body == "" || body[0] != '-'
    ensures ParseLoss((if neg then "-" else "") + body) == ParseUnsigned(neg, body)
  {
    if neg {
      assert ("-" + body)[1..] == body;
    } else {
      assert "" + body == body;
    }
  }

  lemma PointForm(neg: bool, whole: string, frac: string)
    requires AllDigits(whole) && AllDigits(frac)
    ensures ParseUnsigned(neg, whole + ("." + frac)) ==
            if whole == "" && frac == "" then None else Some(Loss(neg, NatOf(whole), TrimZeros(frac)))
  {
    var body := whole + ("." + frac);
    assert '.' !in whole;
    UpToStops(whole, "." + frac, {'.'});
    assert body[|whole| + 1..] == frac;
  }

  lemma NoPointForm(neg: bool, whole: string)
    requires AllDigits(whole)
    ensures ParseUnsigned(neg, whole) == if whole == "" then None else Some(Loss(neg, NatOf(whole), ""))
  {
    assert '.' !in whole;
    UpToStops(whole, "", {'.'});
    assert whole + "" == whole;
  }
}
