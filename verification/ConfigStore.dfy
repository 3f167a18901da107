/** The configuration codec of the TUI: a hand-written JSON printer and a first-match parser. */
module ConfigStore {
  import opened Text
  import opened JsonText

  /** A finite decimal, standing for the f64 the TUI prints: sign, whole part and fraction digits. */
  datatype Loss = Loss(neg: bool, whole: nat, frac: string)

  // `SetupConfig` of ffi.rs:41-73, its fields in four groups.

  datatype CpuConfig = CpuConfig(
    isolatedCores: seq<i32>,
    housekeepingCore: i32,
    disableSmt: bool,
    disableFrequencyBoost: bool,
    maxCstate: i32,
    stopIrqbalance: bool,
    disableSwap: bool,
    isolateMultiuser: bool)

  datatype NetConfig = NetConfig(
    nsServer: string,
    nsClient: string,
    vethServer: string,
    vethClient: string,
    serverIp: string,
    clientIp: string,
    netemDelayMs: i32,
    netemJitterMs: i32,
    netemLossPct: Loss,
    disableOffloading: bool)

  datatype ProcConfig = ProcConfig(serverCores: string, clientCores: string, rtPriority: i32)

  datatype SysctlConfig = SysctlConfig(
    disableAslr: bool,
    tuneNetBuffers: bool,
    dropCaches: bool,
    stopTimesyncd: bool,
    applyNohzFull: bool,
    applyRcuNocbs: bool)

  datatype SetupConfig = SetupConfig(cpu: CpuConfig, net: NetConfig, proc: ProcConfig, sys: SysctlConfig)

  /** ffi.rs:75-107. */
  const DEFAULT := SetupConfig(
    CpuConfig([2, 3, 4, 5], 0, true, true, 0, true, true, false),
    NetConfig("ns_server", "ns_client", "veth-srv", "veth-cli", "10.0.0.1/24", "10.0.0.2/24",
              25, 5, Loss(false, 0, "1"), true),
    ProcConfig("2,4", "3,5", 50),
    SysctlConfig(true, true, true, true, true, true))

  datatype Kind = Cores | Int | Bool | Str | Float

  datatype Key =
    | IsolatedCores | HousekeepingCore | DisableSmt | DisableFrequencyBoost | MaxCstate
    | StopIrqbalance | DisableSwap | IsolateMultiuser | NsServer | NsClient
    | VethServer | VethClient | ServerIp | ClientIp | NetemDelayMs
    | NetemJitterMs | NetemLossPct | DisableOffloading | ServerCores | ClientCores
    | RtPriority | DisableAslr | TuneNetBuffers | DropCaches | StopTimesyncd
    | ApplyNohzFull | ApplyRcuNocbs

  /** The order in which `to_json` prints the fields. */
  const ALL: seq<Key> := [
    IsolatedCores, HousekeepingCore, DisableSmt, DisableFrequencyBoost, MaxCstate,
    StopIrqbalance, DisableSwap, IsolateMultiuser, NsServer, NsClient,
    VethServer, VethClient, ServerIp, ClientIp, NetemDelayMs,
    NetemJitterMs, NetemLossPct, DisableOffloading, ServerCores, ClientCores,
    RtPriority, DisableAslr, TuneNetBuffers, DropCaches, StopTimesyncd,
    ApplyNohzFull, ApplyRcuNocbs]

  function Name(k: Key): string {
    match k
    case IsolatedCores => "isolated_cores"
    case HousekeepingCore => "housekeeping_core"
    case DisableSmt => "disable_smt"
    case DisableFrequencyBoost => "disable_frequency_boost"
    case MaxCstate => "max_cstate"
    case StopIrqbalance => "stop_irqbalance"
    case DisableSwap => "disable_swap"
    case IsolateMultiuser => "isolate_multiuser"
    case NsServer => "ns_server"
    case NsClient => "ns_client"
    case VethServer => "veth_server"
    case VethClient => "veth_client"
    case ServerIp => "server_ip"
    case ClientIp => "client_ip"
    case NetemDelayMs => "netem_delay_ms"
    case NetemJitterMs => "netem_jitter_ms"
    case NetemLossPct => "netem_loss_pct"
    case DisableOffloading => "disable_offloading"
    case ServerCores => "server_cores"
    case ClientCores => "client_cores"
    case RtPriority => "rt_priority"
    case DisableAslr => "disable_aslr"
    case TuneNetBuffers => "tune_net_buffers"
    case DropCaches => "drop_caches"
    case StopTimesyncd => "stop_timesyncd"
    case ApplyNohzFull => "apply_nohz_full"
    case ApplyRcuNocbs => "apply_rcu_nocbs"
  }

  function KindOf(k: Key): Kind {
    match k
    case IsolatedCores => Cores
    case HousekeepingCore | MaxCstate | NetemDelayMs | NetemJitterMs | RtPriority => Int
    case NsServer | NsClient | VethServer | VethClient | ServerIp | ClientIp | ServerCores | ClientCores => Str
    case NetemLossPct => Float
    case _ => Bool
  }

  function IntField(c: SetupConfig, k: Key): i32 {
    match k
    case HousekeepingCore => c.cpu.housekeepingCore
    case MaxCstate => c.cpu.maxCstate
    case NetemDelayMs => c.net.netemDelayMs
    case NetemJitterMs => c.net.netemJitterMs
    case RtPriority => c.proc.rtPriority
    case _ => 0
  }

  function BoolField(c: SetupConfig, k: Key): bool {
    match k
    case DisableSmt => c.cpu.disableSmt
    case DisableFrequencyBoost => c.cpu.disableFrequencyBoost
    case StopIrqbalance => c.cpu.stopIrqbalance
    case DisableSwap => c.cpu.disableSwap
    case IsolateMultiuser => c.cpu.isolateMultiuser
    case DisableOffloading => c.net.disableOffloading
    case DisableAslr => c.sys.disableAslr
    case TuneNetBuffers => c.sys.tuneNetBuffers
    case DropCaches => c.sys.dropCaches
    case StopTimesyncd => c.sys.stopTimesyncd
    case ApplyNohzFull => c.sys.applyNohzFull
    case ApplyRcuNocbs => c.sys.applyRcuNocbs
    case _ => false
  }

  function StrField(c: SetupConfig, k: Key): string {
    match k
    case NsServer => c.net.nsServer
    case NsClient => c.net.nsClient
    case VethServer => c.net.vethServer
    case VethClient => c.net.vethClient
    case ServerIp => c.net.serverIp
    case ClientIp => c.net.clientIp
    case ServerCores => c.proc.serverCores
    case ClientCores => c.proc.clientCores
    case _ => ""
  }

  // ---- The printer -------------------------------------------------------------

  function JoinSpaced(cores: seq<i32>): string {
    if cores == [] then ""
    else if |cores| == 1 then Dec(cores[0])
    else JoinSpaced(cores[..|cores| - 1]) + (", " + Dec(cores[|cores| - 1]))
  }

  function Unsigned(l: Loss): string {
    Digits(l.whole) + (if l.frac == "" then "" else "." + l.frac)
  }

  /** Rust's `{}` of a finite f64: digits, a point only in front of a fraction, never an exponent. */
  function LossText(l: Loss): string {
    if l.neg then "-" + Unsigned(l) else Unsigned(l)
  }

  function ValueText(c: SetupConfig, k: Key): string {
    match KindOf(k)
    case Cores => "[" + JoinSpaced(c.cpu.isolatedCores) + "]"
    case Int => Dec(IntField(c, k))
    case Bool => if BoolField(c, k) then "true" else "false"
    case Str => Quoted(StrField(c, k))
    case Float => LossText(c.net.netemLossPct)
  }

  function EntriesFor(c: SetupConfig, ks: seq<Key>): seq<Entry> {
    if ks == [] then [] else [Entry(Name(ks[0]), ValueText(c, ks[0]))] + EntriesFor(c, ks[1..])
  }

  /** The field lines of `ks`, in that order, between the braces. */
  function Printed(c: SetupConfig, ks: seq<Key>): string {
    Object(EntriesFor(c, ks), "", "}")
  }

  /** snapshot_store.rs:122-181. */
  function ToJson(c: SetupConfig): string {
    Printed(c, ALL)
  }

  // ---- The extractors ------------------------------------------------------------

  /** snapshot_store.rs:228-235. */
  function JsonArray(json: string, key: string): Option<string> {
    match After(json, Needle(key))
    case None => None
    case Some(tail) =>
      var rest := TrimStart(tail);
      if rest == "" || rest[0] != '[' then None
      else if UpTo(rest, {']'}) == rest then None
      else
        UpToAll(rest, {']'});
        Some(UpTo(rest, {']'})[1..])
  }

  function NumberPrefix(s: string, point: bool): string {
    if s != "" && (NumeralChar(s[0]) || (point && s[0] == '.')) then [s[0]] + NumberPrefix(s[1..], point) else ""
  }

  /** snapshot_store.rs:237-243. */
  function JsonInt(json: string, key: string): Option<int> {
    match After(json, Needle(key))
    case None => None
    case Some(tail) => ParseI64(NumberPrefix(TrimStart(tail), false))
  }

  function TrimZeros(s: string): string {
    if s != "" && s[|s| - 1] == '0' then TrimZeros(s[..|s| - 1]) else s
  }

  function ParseUnsigned(neg: bool, body: string): Option<Loss> {
    var whole := UpTo(body, {'.'});
    UpToAll(body, {'.'});
    var frac := if |whole| < |body| then body[|whole| + 1..] else "";
    if AllDigits(whole) && AllDigits(frac) && (whole != "" || frac != "") then
      Some(Loss(neg, NatOf(whole), TrimZeros(frac)))
    else None
  }

  /** Rust's `str::parse::<f64>` on digits, points and minus signs. */
  function ParseLoss(s: string): Option<Loss> {
    if s != "" && s[0] == '-' then ParseUnsigned(true, s[1..]) else ParseUnsigned(false, s)
  }

  /** snapshot_store.rs:245-252. */
  function JsonFloat(json: string, key: string): Option<Loss> {
    match After(json, Needle(key))
    case None => None
    case Some(tail) => ParseLoss(NumberPrefix(TrimStart(tail), true))
  }

  /** snapshot_store.rs:254-261. */
  function JsonBool(json: string, key: string): Option<bool> {
    match After(json, Needle(key))
    case None => None
    case Some(tail) =>
      var rest := TrimStart(tail);
      if "true" <= rest then Some(true) else if "false" <= rest then Some(false) else None
  }

  /** Rust's `as i32` on an i64. */
  function WrapI32(v: int): i32 {
    (v + 0x8000_0000) % 0x1_0000_0000 - 0x8000_0000
  }

  function TrimEnd(s: string): string {
    if s != "" && IsWhitespace(s[|s| - 1]) then TrimEnd(s[..|s| - 1]) else s
  }

  function ParseCores(parts: seq<string>): seq<i32> {
    if parts == [] then []
    else
      (match ParseI32(TrimEnd(TrimStart(parts[0]))) case Some(v) => [v] case None => []) + ParseCores(parts[1..])
  }

  // ---- The decoder -----------------------------------------------------------------

  /** The extractors on one text, by key. */
  datatype Readers = Readers(
    cores: Option<string>,
    ints: Key -> Option<int>,
    bools: Key -> Option<bool>,
    strs: Key -> Option<string>,
    loss: Option<Loss>)

  function ReadersOf(json: string): Readers {
    Readers(
      JsonArray(json, Name(IsolatedCores)),
      k => JsonInt(json, Name(k)),
      k => JsonBool(json, Name(k)),
      k => RustString(json, Name(k)),
      JsonFloat(json, Name(NetemLossPct)))
  }

  // A missing key, or a value that does not parse, leaves the field as it is.

  function CoresOr(r: Readers, current: seq<i32>): seq<i32> {
    match r.cores case Some(v) => ParseCores(Split(v, ',')) case None => current
  }

  function IntOr(r: Readers, k: Key, current: i32): i32 {
    match r.ints(k) case Some(v) => WrapI32(v) case None => current
  }

  function BoolOr(r: Readers, k: Key, current: bool): bool {
    match r.bools(k) case Some(v) => v case None => current
  }

  function StrOr(r: Readers, k: Key, current: string): string {
    match r.strs(k) case Some(v) => v case None => current
  }

  function LossOr(r: Readers, current: Loss): Loss {
    match r.loss case Some(v) => v case None => current
  }

  function WithCpu(r: Readers, d: CpuConfig): CpuConfig {
    d.(isolatedCores := CoresOr(r, d.isolatedCores),
       housekeepingCore := IntOr(r, HousekeepingCore, d.housekeepingCore),
       disableSmt := BoolOr(r, DisableSmt, d.disableSmt),
       disableFrequencyBoost := BoolOr(r, DisableFrequencyBoost, d.disableFrequencyBoost),
       maxCstate := IntOr(r, MaxCstate, d.maxCstate),
       stopIrqbalance := BoolOr(r, StopIrqbalance, d.stopIrqbalance),
       disableSwap := BoolOr(r, DisableSwap, d.disableSwap),
       isolateMultiuser := BoolOr(r, IsolateMultiuser, d.isolateMultiuser))
  }

  function WithNet(r: Readers, d: NetConfig): NetConfig {
    d.(nsServer := StrOr(r, NsServer, d.nsServer),
       nsClient := StrOr(r, NsClient, d.nsClient),
       vethServer := StrOr(r, VethServer, d.vethServer),
       vethClient := StrOr(r, VethClient, d.vethClient),
       serverIp := StrOr(r, ServerIp, d.serverIp),
       clientIp := StrOr(r, ClientIp, d.clientIp),
       netemDelayMs := IntOr(r, NetemDelayMs, d.netemDelayMs),
       netemJitterMs := IntOr(r, NetemJitterMs, d.netemJitterMs),
       netemLossPct := LossOr(r, d.netemLossPct),
       disableOffloading := BoolOr(r, DisableOffloading, d.disableOffloading))
  }

  function WithProc(r: Readers, d: ProcConfig): ProcConfig {
    d.(serverCores := StrOr(r, ServerCores, d.serverCores),
       clientCores := StrOr(r, ClientCores, d.clientCores),
       rtPriority := IntOr(r, RtPriority, d.rtPriority))
  }

  function WithSys(r: Readers, d: SysctlConfig): SysctlConfig {
    d.(disableAslr := BoolOr(r, DisableAslr, d.disableAslr),
       tuneNetBuffers := BoolOr(r, TuneNetBuffers, d.tuneNetBuffers),
       dropCaches := BoolOr(r, DropCaches, d.dropCaches),
       stopTimesyncd := BoolOr(r, StopTimesyncd, d.stopTimesyncd),
       applyNohzFull := BoolOr(r, ApplyNohzFull, d.applyNohzFull),
       applyRcuNocbs := BoolOr(r, ApplyRcuNocbs, d.applyRcuNocbs))
  }

  /** The configuration a text denotes. */
  function Decoded(json: string): SetupConfig {
    Merged(ReadersOf(json), DEFAULT)
  }

  /** snapshot_store.rs:186-197. */
  method CpuFields(r: Readers, d: CpuConfig) returns (c: CpuConfig)
    ensures c == WithCpu(r, d)
  {
    c := d;
    c := c.(isolatedCores := CoresOr(r, c.isolatedCores));
    c := c.(housekeepingCore := IntOr(r, HousekeepingCore, c.housekeepingCore));
    c := c.(disableSmt := BoolOr(r, DisableSmt, c.disableSmt));
    c := c.(disableFrequencyBoost := BoolOr(r, DisableFrequencyBoost, c.disableFrequencyBoost));
    c := c.(maxCstate := IntOr(r, MaxCstate, c.maxCstate));
    c := c.(stopIrqbalance := BoolOr(r, StopIrqbalance, c.stopIrqbalance));
    c := c.(disableSwap := BoolOr(r, DisableSwap, c.disableSwap));
    c := c.(isolateMultiuser := BoolOr(r, IsolateMultiuser, c.isolateMultiuser));
  }

  /** snapshot_store.rs:198-207. */
  method NetFields(r: Readers, d: NetConfig) returns (c: NetConfig)
    ensures c == WithNet(r, d)
  {
    c := d;
    c := c.(nsServer := StrOr(r, NsServer, c.nsServer));
    c := c.(nsClient := StrOr(r, NsClient, c.nsClient));
    c := c.(vethServer := StrOr(r, VethServer, c.vethServer));
    c := c.(vethClient := StrOr(r, VethClient, c.vethClient));
    c := c.(serverIp := StrOr(r, ServerIp, c.serverIp));
    c := c.(clientIp := StrOr(r, ClientIp, c.clientIp));
    c := c.(netemDelayMs := IntOr(r, NetemDelayMs, c.netemDelayMs));
    c := c.(netemJitterMs := IntOr(r, NetemJitterMs, c.netemJitterMs));
    c := c.(netemLossPct := LossOr(r, c.netemLossPct));
    c := c.(disableOffloading := BoolOr(r, DisableOffloading, c.disableOffloading));
  }

  /** snapshot_store.rs:208-210. */
  method ProcFields(r: Readers, d: ProcConfig) returns (c: ProcConfig)
    ensures c == WithProc(r, d)
  {
    c := d;
    c := c.(serverCores := StrOr(r, ServerCores, c.serverCores));
    c := c.(clientCores := StrOr(r, ClientCores, c.clientCores));
    c := c.(rtPriority := IntOr(r, RtPriority, c.rtPriority));
  }

  /** snapshot_store.rs:211-219. */
  method SysFields(r: Readers, d: SysctlConfig) returns (c: SysctlConfig)
    ensures c == WithSys(r, d)
  {
    c := d;
    c := c.(disableAslr := BoolOr(r, DisableAslr, c.disableAslr));
    c := c.(tuneNetBuffers := BoolOr(r, TuneNetBuffers, c.tuneNetBuffers));
    c := c.(dropCaches := BoolOr(r, DropCaches, c.dropCaches));
    c := c.(stopTimesyncd := BoolOr(r, StopTimesyncd, c.stopTimesyncd));
    c := c.(applyNohzFull := BoolOr(r, ApplyNohzFull, c.applyNohzFull));
    c := c.(applyRcuNocbs := BoolOr(r, ApplyRcuNocbs, c.applyRcuNocbs));
  }

  /** `from_json`: the fields of a default configuration, overwritten one by one. */
  method FromJson(json: string) returns (r: Option<SetupConfig>)
    ensures r == Some(Decoded(json))
  {
    var readers := ReadersOf(json);
    var c := DEFAULT;
    var cpu := CpuFields(readers, c.cpu);
    c := c.(cpu := cpu);
    var net := NetFields(readers, c.net);
    c := c.(net := net);
    var proc := ProcFields(readers, c.proc);
    c := c.(proc := proc);
    var sys := SysFields(readers, c.sys);
    c := c.(sys := sys);
    r := Some(c);
  }

  /** The field of `c` under `k` is what the reader of its kind finds under that very key, or the default. */
  predicate FieldFrom(r: Readers, d: SetupConfig, c: SetupConfig, k: Key) {
    match KindOf(k)
    case Cores => c.cpu.isolatedCores == CoresOr(r, d.cpu.isolatedCores)
    case Int => IntField(c, k) == IntOr(r, k, IntField(d, k))
    case Bool => BoolField(c, k) == BoolOr(r, k, BoolField(d, k))
    case Str => StrField(c, k) == StrOr(r, k, StrField(d, k))
    case Float => c.net.netemLossPct == LossOr(r, d.net.netemLossPct)
  }

  /** No two fields are mixed up: each one of the decoded configuration comes from its own key. */
  lemma FieldsFromKeys(json: string, k: Key)
    ensures FieldFrom(ReadersOf(json), DEFAULT, Decoded(json), k)
  {
    MergedField(ReadersOf(json), DEFAULT, k);
  }

  lemma MergedField(r: Readers, d: SetupConfig, k: Key)
    ensures FieldFrom(r, d, Merged(r, d), k)
  {
    match KindOf(k)
    case Int => IntFromKey(r, d, k);
    case Bool => BoolFromKey(r, d, k);
    case Str => StrFromKey(r, d, k);
    case _ =>
  }

  function Merged(r: Readers, d: SetupConfig): SetupConfig {
    SetupConfig(WithCpu(r, d.cpu), WithNet(r, d.net), WithProc(r, d.proc), WithSys(r, d.sys))
  }

  lemma IntFromKey(r: Readers, d: SetupConfig, k: Key)
    requires KindOf(k) == Int
    ensures IntField(Merged(r, d), k) == IntOr(r, k, IntField(d, k))
  {
  }

  lemma BoolFromKey(r: Readers, d: SetupConfig, k: Key)
    requires KindOf(k) == Bool
    ensures BoolField(Merged(r, d), k) == BoolOr(r, k, BoolField(d, k))
  {
  }

  lemma StrFromKey(r: Readers, d: SetupConfig, k: Key)
    requires KindOf(k) == Str
    ensures StrField(Merged(r, d), k) == StrOr(r, k, StrField(d, k))
  {
  }

  lemma DisableNameGood(k: Key)
    requires k.DisableSmt? || k.DisableFrequencyBoost? || k.DisableSwap? || k.DisableOffloading? || k.DisableAslr?
    ensures GoodKey(Name(k))
  {
    GoodName(Name(k));
  }

  lemma BoolNameGood(k: Key)
    requires KindOf(k) == Bool
    requires !(k.DisableSmt? || k.DisableFrequencyBoost? || k.DisableSwap? || k.DisableOffloading? || k.DisableAslr?)
    ensures GoodKey(Name(k))
  {
    GoodName(Name(k));
  }

  lemma StrNameGood(k: Key)
    requires KindOf(k) == Str
    ensures GoodKey(Name(k))
  {
    GoodName(Name(k));
  }

  lemma NameGood(k: Key)
    ensures GoodKey(Name(k))
  {
    match KindOf(k)
    case Bool =>
      if k.DisableSmt? || k.DisableFrequencyBoost? || k.DisableSwap? || k.DisableOffloading? || k.DisableAslr? {
        DisableNameGood(k);
      } else {
        BoolNameGood(k);
      }
    case Str => StrNameGood(k);
    case _ => GoodName(Name(k));
  }

  lemma NameInjective(k: Key, l: Key)
    requires k != l
    ensures Name(k) != Name(l)
  {
    match KindOf(k)
    case Bool => BoolNameDiffers(k, l);
    case Str => StrNameDiffers(k, l);
    case _ => OtherNameDiffers(k, l);
  }

  lemma BoolNameDiffers(k: Key, l: Key)
    requires KindOf(k) == Bool && k != l
    ensures Name(k) != Name(l)
  {
  }

  lemma StrNameDiffers(k: Key, l: Key)
    requires KindOf(k) == Str && k != l
    ensures Name(k) != Name(l)
  {
  }

  lemma OtherNameDiffers(k: Key, l: Key)
    requires KindOf(k) != Str && KindOf(k) != Bool && k != l
    ensures Name(k) != Name(l)
  {
  }
}
