/** The sysctl baseline: captured once, printed to a file, restored and deleted by the teardown. */
module Sysctl {
  import opened Text
  import opened JsonText
  import opened CNumbers
  import opened CReaders

  /** The kernel values benchmon touches, and whether systemd-timesyncd runs. */
  datatype Live = Live(
    aslr: i64, rmemMax: i64, wmemMax: i64, rmemDefault: i64, wmemDefault: i64, backlog: i64, timesyncd: bool)

  datatype Flags = Flags(disableAslr: bool, tuneNetBuffers: bool, stopTimesyncd: bool)

  datatype State = State(live: Live, file: Option<string>)

  // ---- The file -------------------------------------------------------------------

  datatype Knob = Aslr | RmemMax | WmemMax | RmemDefault | WmemDefault | Backlog | Timesyncd

  function Name(k: Knob): string {
    match k
    case Aslr => "aslr"
    case RmemMax => "rmem_max"
    case WmemMax => "wmem_max"
    case RmemDefault => "rmem_default"
    case WmemDefault => "wmem_default"
    case Backlog => "netdev_max_backlog"
    case Timesyncd => "timesyncd_was_active"
  }

  function BoolText(b: bool): string {
    if b then "true" else "false"
  }

  function Number(v: Live, k: Knob): i64
    requires k != Timesyncd
  {
    match k
    case Aslr => v.aslr
    case RmemMax => v.rmemMax
    case WmemMax => v.wmemMax
    case RmemDefault => v.rmemDefault
    case WmemDefault => v.wmemDefault
    case Backlog => v.backlog
  }

  function EntryFor(v: Live, k: Knob): Entry {
    Entry(Name(k), if k == Timesyncd then BoolText(v.timesyncd) else Dec(Number(v, k)))
  }

  function Entries(v: Live): seq<Entry> {
    [EntryFor(v, Aslr), EntryFor(v, RmemMax), EntryFor(v, WmemMax), EntryFor(v, RmemDefault),
     EntryFor(v, WmemDefault), EntryFor(v, Backlog), EntryFor(v, Timesyncd)]
  }

  /** The text `snprintf` would need. */
  function Printed(v: Live): string {
    Object(Entries(v), "  ", "}\n")
  }

  /** What reaches the file through `char json[512]`. */
  function FileOf(v: Live): string {
    Take(Printed(v), 511)
  }

  // ---- The extractors -------------------------------------------------------------

  function SkipSpaces(s: string): string {
    if s != "" && s[0] == ' ' then SkipSpaces(s[1..]) else s
  }

  /** `EXTRACT_INT(key, dfl)`. */
  function ExtractedInt(text: string, key: string, dfl: i64): i64 {
    match After(text, Needle(key))
    case None => dfl
    case Some(rest) => StrTol(SkipSpaces(rest))
  }

  predicate ExtractedTrue(text: string, key: string) {
    match After(text, Needle(key))
    case None => false
    case Some(rest) => "true" <= SkipSpaces(rest)
  }

  /** What the restore reads out of the file, whatever is in it; a missing key yields its default. */
  function Parsed(text: string): Live {
    Live(ExtractedInt(text, Name(Aslr), 2), ExtractedInt(text, Name(RmemMax), 212992),
         ExtractedInt(text, Name(WmemMax), 212992), ExtractedInt(text, Name(RmemDefault), 212992),
         ExtractedInt(text, Name(WmemDefault), 212992), ExtractedInt(text, Name(Backlog), 1000),
         ExtractedTrue(text, Name(Timesyncd)))
  }

  lemma NameGood(k: Knob)
    ensures GoodKey(Name(k)) && NulFree(Name(k)) && |Name(k)| <= 20
  {
    GoodName(Name(k));
  }

  // ---- The steps ------------------------------------------------------------------

  /** `capture_sysctl_preconfig`: nothing when the file exists; `writable`: the file could be created. */
  function Capture(s: State, writable: bool): State {
    if s.file.Some? || !writable then s else s.(file := Some(FileOf(s.live)))
  }

  function Tuned(v: Live, f: Flags): Live {
    var v := if f.disableAslr then v.(aslr := 0) else v;
    var v := if f.tuneNetBuffers
             then v.(rmemMax := 26214400, wmemMax := 26214400, rmemDefault := 1048576, wmemDefault := 1048576,
                     backlog := 5000)
             else v;
    if f.stopTimesyncd then v.(timesyncd := false) else v
  }

  /** `benchmon_setup`, as far as these values go. */
  function Apply(s: State, f: Flags, writable: bool): State {
    var s := Capture(s, writable);
    s.(live := Tuned(s.live, f))
  }

  /** `restore_sysctl_preconfig`: the daemon is started again if it ran, and never stopped. */
  function Restore(s: State): State {
    match s.file
    case None => s
    case Some(file) =>
      var saved := Parsed(FileText(file, 512));
      State(saved.(timesyncd := saved.timesyncd || s.live.timesyncd), None)
  }

  // ---- The same steps on the host ---------------------------------------------------

  /** The `EXTRACT_INT` macro on the buffer. */
  method ExtractInt(buf: array<char>, ghost n: nat, key: string, dfl: i64) returns (v: i64)
    requires CStringIn(buf, n) && NUL !in key
    ensures v == ExtractedInt(buf[..n], key, dfl)
  {
    var p := StrStr(buf, n, Needle(key));
    if p < 0 {
      return dfl;
    }
    var q := SkipSpacesAt(buf, n, p + |Needle(key)|);
    var m := q;
    while buf[m] != NUL
      invariant q <= m <= n
      decreases n - m
    {
      m := m + 1;
    }
    v := StrTol(buf[q..m]);
  }

  method SkipSpacesAt(buf: array<char>, ghost n: nat, p: nat) returns (q: nat)
    requires CStringIn(buf, n) && p <= n
    ensures p <= q <= n && SkipSpaces(buf[p..n]) == buf[q..n]
  {
    q := p;
    while buf[q] == ' '
      invariant p <= q <= n
      invariant SkipSpaces(buf[p..n]) == SkipSpaces(buf[q..n])
      decreases n - q
    {
      assert buf[q..n][1..] == buf[q + 1..n];
      q := q + 1;
    }
  }

  /** `strstr` for the flag and `strncmp(tp, "true", 4) == 0`. */
  method ExtractFlag(buf: array<char>, ghost n: nat, key: string) returns (v: bool)
    requires CStringIn(buf, n) && NUL !in key
    ensures v == ExtractedTrue(buf[..n], key)
  {
    var p := StrStr(buf, n, Needle(key));
    if p < 0 {
      return false;
    }
    var q := SkipSpacesAt(buf, n, p + |Needle(key)|);
    v := StartsWith(buf, n, q, "true");
  }

  class SysctlHost {
    var live: Live
    var file: Option<string>

    constructor (live: Live, file: Option<string>)
      ensures View() == State(live, file)
    {
      this.live := live;
      this.file := file;
    }

    ghost function View(): State
      reads this
    {
      State(live, file)
    }

    /** A file is written once, and what a restore reads out of it are the live values at that moment. */
    method CapturePreconfig(writable: bool)
      modifies this`file
      ensures View() == Capture(old(View()), writable)
      ensures old(file).None? && writable ==> file.Some? && Parsed(FileText(file.value, 512)) == live
      ensures old(file).Some? || !writable ==> file == old(file)
    {
      if file.Some? {
        return;
      }
      var aslr, rmemMax, wmemMax := live.aslr, live.rmemMax, live.wmemMax;
      var rmemDefault, wmemDefault, backlog := live.rmemDefault, live.wmemDefault, live.backlog;
      var json := FileOf(Live(aslr, rmemMax, wmemMax, rmemDefault, wmemDefault, backlog, live.timesyncd));
      if writable {
        file := Some(json);
        CodecExact(live);
      }
    }

    method RestorePreconfig()
      modifies this
      ensures View() == Restore(old(View()))
    {
      if file.None? {
        return;
      }
      forall k: Knob ensures NulFree(Name(k)) {
        NameGood(k);
      }
      var buf, n := ReadFile(file.value, 512);
      var aslr := ExtractInt(buf, n, Name(Aslr), 2);
      var rmemMax := ExtractInt(buf, n, Name(RmemMax), 212992);
      var wmemMax := ExtractInt(buf, n, Name(WmemMax), 212992);
      var rmemDefault := ExtractInt(buf, n, Name(RmemDefault), 212992);
      var wmemDefault := ExtractInt(buf, n, Name(WmemDefault), 212992);
      var backlog := ExtractInt(buf, n, Name(Backlog), 1000);
      var timesyncdWasActive := ExtractFlag(buf, n, Name(Timesyncd));
      live := live.(aslr := aslr);
      live := live.(rmemMax := rmemMax);
      live := live.(wmemMax := wmemMax);
      live := live.(rmemDefault := rmemDefault);
      live := live.(wmemDefault := wmemDefault);
      live := live.(backlog := backlog);
      if timesyncdWasActive {
        live := live.(timesyncd := true);
      }
      file := None;
    }

    /** Each flag changes its own values and leaves the others. */
    method SetupSysctl(f: Flags)
      modifies this`live
      ensures View() == old(View()).(live := Tuned(old(live), f))
      ensures live.aslr == if f.disableAslr then 0 else old(live.aslr)
      ensures live.rmemMax == if f.tuneNetBuffers then 26214400 else old(live.rmemMax)
      ensures live.wmemMax == if f.tuneNetBuffers then 26214400 else old(live.wmemMax)
      ensures live.rmemDefault == if f.tuneNetBuffers then 1048576 else old(live.rmemDefault)
      ensures live.wmemDefault == if f.tuneNetBuffers then 1048576 else old(live.wmemDefault)
      ensures live.backlog == if f.tuneNetBuffers then 5000 else old(live.backlog)
      ensures live.timesyncd == (old(live.timesyncd) && !f.stopTimesyncd)
    {
      if f.disableAslr {
        live := live.(aslr := 0);
      }
      if f.tuneNetBuffers {
        live := live.(rmemMax := 26214400);
        live := live.(wmemMax := 26214400);
        live := live.(rmemDefault := 1048576);
        live := live.(wmemDefault := 1048576);
        live := live.(backlog := 5000);
      }
      if f.stopTimesyncd {
        live := live.(timesyncd := false);
      }
    }
  }

  // ---- The codec is exact -----------------------------------------------------------

  lemma OneSpace(x: string, y: string)
    requires x != "" && x[0] != ' '
    ensures SkipSpaces(" " + x + y) == x + y
  {
    assert (" " + x + y)[1..] == x + y;
  }

  lemma IntAt(text: string, key: string, v: i64, tail: string, dfl: i64)
    requires After(text, Needle(key)) == Some(" " + Dec(v) + tail) && tail != "" && !IsDigit(tail[0])
    ensures ExtractedInt(text, key, dfl) == v
  {
    ParseDec(v);
    assert NumeralChar(Dec(v)[0]);
    OneSpace(Dec(v), tail);
    StrTolOfDec(v, tail);
  }

  lemma FlagAt(text: string, key: string, v: bool, tail: string)
    requires After(text, Needle(key)) == Some(" " + BoolText(v) + tail)
    ensures ExtractedTrue(text, key) == v
  {
    OneSpace(BoolText(v), tail);
    var rest := BoolText(v) + tail;
    assert rest[0] == BoolText(v)[0];
    assert rest[..|BoolText(v)|] == BoolText(v);
  }

  lemma DecShort(v: int)
    requires -0x8000_0000_0000_0000 <= v < 0x8000_0000_0000_0000
    ensures |Dec(v)| <= 20
  {
    Pow10Plus5(4);
    Pow10Plus5(9);
    Pow10Plus5(14);
    DigitsLength(if v < 0 then -v else v, 19);
  }

  lemma DecGood(v: int)
    ensures GoodValue(Dec(v)) && NulFree(Dec(v))
  {
    ParseDec(v);
  }

  predicate EntryOk(e: Entry) {
    GoodEntry(e) && NulFree(e.key) && NulFree(e.value) && |e.key| + |e.value| <= 40
  }

  lemma EntryGood(v: Live, k: Knob)
    ensures EntryOk(EntryFor(v, k))
  {
    NameGood(k);
    if k != Timesyncd {
      DecGood(Number(v, k));
      DecShort(Number(v, k));
    }
  }

  lemma EntriesGood(v: Live)
    ensures forall i :: 0 <= i < 7 ==> EntryOk(Entries(v)[i])
  {
    EntryGood(v, Aslr);
    EntryGood(v, RmemMax);
    EntryGood(v, WmemMax);
    EntryGood(v, RmemDefault);
    EntryGood(v, WmemDefault);
    EntryGood(v, Backlog);
    EntryGood(v, Timesyncd);
  }

  lemma NameInjective(j: Knob, k: Knob)
    ensures Name(j) == Name(k) ==> j == k
  {
  }

  lemma {:induction false} FirstIsOwn(es: seq<Entry>, i: nat)
    requires i < |es| && forall j :: 0 <= j < i ==> es[j].key != es[i].key
    ensures FirstWith(es, es[i].key) == Some(es[i].value)
  {
    if i == 0 {
    } else {
      assert es[0].key != es[i].key;
      FirstIsOwn(es[1..], i - 1);
    }
  }

  function Index(k: Knob): nat {
    match k
    case Aslr => 0
    case RmemMax => 1
    case WmemMax => 2
    case RmemDefault => 3
    case WmemDefault => 4
    case Backlog => 5
    case Timesyncd => 6
  }

  lemma OwnEntry(v: Live, k: Knob)
    ensures Entries(v)[Index(k)] == EntryFor(v, k)
    ensures forall i :: 0 <= i < Index(k) ==> Entries(v)[i].key != Name(k)
  {
    forall j: Knob ensures Name(j) == Name(k) ==> j == k {
      NameInjective(j, k);
    }
  }

  lemma FirstOfKnob(v: Live, k: Knob)
    ensures FirstWith(Entries(v), Name(k)) == Some(EntryFor(v, k).value)
  {
    OwnEntry(v, k);
    FirstIsOwn(Entries(v), Index(k));
  }

  lemma {:induction false} LinesLength(es: seq<Entry>, indent: string, k: nat)
    requires forall i :: 0 <= i < |es| ==> |es[i].key| + |es[i].value| <= k
    ensures |Lines(es, indent)| <= |es| * (|indent| + k + 6)
  {
    if es == [] {
    } else {
      LinesLength(es[1..], indent, k);
    }
  }

  /** The print always fits `char json[512]`, so nothing is cut. */
  lemma PrintFits(v: Live)
    ensures |Printed(v)| <= 511 && FileOf(v) == Printed(v)
  {
    EntriesGood(v);
    LinesLength(Entries(v), "  ", 40);
  }

  lemma NulFreeConcat(x: string, y: string)
    requires NulFree(x) && NulFree(y)
    ensures NulFree(x + y)
  {
  }

  lemma LineNulFree(e: Entry, indent: string, end: string)
    requires NulFree(e.key) && NulFree(e.value) && NulFree(indent) && NulFree(end)
    ensures NulFree(Line(e, indent, end))
  {
  }

  lemma {:induction false} LinesNulFree(es: seq<Entry>, indent: string)
    requires forall i :: 0 <= i < |es| ==> NulFree(es[i].key) && NulFree(es[i].value)
    requires NulFree(indent)
    ensures NulFree(Lines(es, indent))
  {
    if es == [] {
    } else {
      var end := if |es| == 1 then "\n" else ",\n";
      LineNulFree(es[0], indent, end);
      LinesNulFree(es[1..], indent);
      NulFreeConcat(Line(es[0], indent, end), Lines(es[1..], indent));
    }
  }

  lemma PrintNulFree(v: Live)
    ensures NulFree(Printed(v))
  {
    EntriesGood(v);
    LinesNulFree(Entries(v), "  ");
  }

  lemma IntReadBack(v: Live, k: Knob, dfl: i64)
    requires k != Timesyncd
    ensures ExtractedInt(Printed(v), Name(k), dfl) == Number(v, k)
  {
    EntriesGood(v);
    NameGood(k);
    FirstOfKnob(v, k);
    var tail := AfterInObject(Entries(v), "  ", "}\n", Name(k));
    IntAt(Printed(v), Name(k), Number(v, k), tail, dfl);
  }

  lemma FlagReadBack(v: Live)
    ensures ExtractedTrue(Printed(v), Name(Timesyncd)) == v.timesyncd
  {
    EntriesGood(v);
    NameGood(Timesyncd);
    FirstOfKnob(v, Timesyncd);
    var tail := AfterInObject(Entries(v), "  ", "}\n", Name(Timesyncd));
    FlagAt(Printed(v), Name(Timesyncd), v.timesyncd, tail);
  }

  /** Reading a captured file back gives exactly the captured values, for all 64-bit values. */
  lemma CodecExact(v: Live)
    ensures Parsed(FileText(FileOf(v), 512)) == v
  {
    PrintFits(v);
    PrintNulFree(v);
    WholeFile(Printed(v), 512);
    IntReadBack(v, Aslr, 2);
    IntReadBack(v, RmemMax, 212992);
    IntReadBack(v, WmemMax, 212992);
    IntReadBack(v, RmemDefault, 212992);
    IntReadBack(v, WmemDefault, 212992);
    IntReadBack(v, Backlog, 1000);
    FlagReadBack(v);
  }

  /** The printed object, line by line. */
  lemma CapturedText(v: Live)
    ensures FileOf(v) == Object([
              Entry("aslr", Dec(v.aslr)), Entry("rmem_max", Dec(v.rmemMax)), Entry("wmem_max", Dec(v.wmemMax)),
              Entry("rmem_default", Dec(v.rmemDefault)), Entry("wmem_default", Dec(v.wmemDefault)),
              Entry("netdev_max_backlog", Dec(v.backlog)),
              Entry("timesyncd_was_active", if v.timesyncd then "true" else "false")], "  ", "}\n")
  {
    PrintFits(v);
  }

  /** Which key of the file a value is under. */
  lemma CapturedByName(v: Live, dfl: i64)
    ensures ExtractedInt(FileOf(v), "aslr", dfl) == v.aslr
    ensures ExtractedInt(FileOf(v), "rmem_max", dfl) == v.rmemMax
    ensures ExtractedInt(FileOf(v), "wmem_max", dfl) == v.wmemMax
    ensures ExtractedInt(FileOf(v), "rmem_default", dfl) == v.rmemDefault
    ensures ExtractedInt(FileOf(v), "wmem_default", dfl) == v.wmemDefault
    ensures ExtractedInt(FileOf(v), "netdev_max_backlog", dfl) == v.backlog
    ensures ExtractedTrue(FileOf(v), "timesyncd_was_active") == v.timesyncd
  {
    PrintFits(v);
    IntReadBack(v, Aslr, dfl);
    IntReadBack(v, RmemMax, dfl);
    IntReadBack(v, WmemMax, dfl);
    IntReadBack(v, RmemDefault, dfl);
    IntReadBack(v, WmemDefault, dfl);
    IntReadBack(v, Backlog, dfl);
    FlagReadBack(v);
  }

  /** What a restore writes for a key the file does not have, whatever else is in it. */
  lemma MissingKeys(text: string)
    ensures After(text, Needle("aslr")).None? ==> Parsed(text).aslr == 2
    ensures After(text, Needle("rmem_max")).None? ==> Parsed(text).rmemMax == 212992
    ensures After(text, Needle("wmem_max")).None? ==> Parsed(text).wmemMax == 212992
    ensures After(text, Needle("rmem_default")).None? ==> Parsed(text).rmemDefault == 212992
    ensures After(text, Needle("wmem_default")).None? ==> Parsed(text).wmemDefault == 212992
    ensures After(text, Needle("netdev_max_backlog")).None? ==> Parsed(text).backlog == 1000
    ensures After(text, Needle("timesyncd_was_active")).None? ==> !Parsed(text).timesyncd
  {
  }

  // ---- Whole runs -------------------------------------------------------------------

  datatype Step = Setup(flags: Flags, writable: bool) | Teardown

  function Next(s: State, step: Step): State {
    match step
    case Setup(flags, writable) => Apply(s, flags, writable)
    case Teardown => Restore(s)
  }

  function Run(s: State, steps: seq<Step>): State
    decreases |steps|
  {
    if steps == [] then s else Run(Next(s, steps[0]), steps[1..])
  }

  /** Every capture could create its file. */
  predicate CapturesSucceed(steps: seq<Step>) {
    forall i :: 0 <= i < |steps| && steps[i].Setup? ==> steps[i].writable
  }

  /** No capture file: the live values are the originals. A capture file: it holds the originals. */
  predicate Inv(s: State, original: Live) {
    match s.file
    case None => s.live == original
    case Some(file) => Parsed(FileText(file, 512)) == original && (s.live.timesyncd ==> original.timesyncd)
  }

  lemma StepKeepsInv(s: State, original: Live, step: Step)
    requires Inv(s, original) && (step.Setup? ==> step.writable)
    ensures Inv(Next(s, step), original)
    ensures step == Teardown ==> Next(s, step) == State(original, None)
  {
    if s.file.None? {
      CodecExact(s.live);
    }
  }

  /**
   Over every run of setups (any flags) and teardowns with no other writer: a capture file always holds
   the original values, and after every teardown the live values are the original ones.
   */
  lemma {:induction false} SysctlRestored(s: State, original: Live, steps: seq<Step>)
    requires Inv(s, original) && CapturesSucceed(steps)
    ensures Inv(Run(s, steps), original)
    ensures Run(s, steps + [Teardown]) == State(original, None)
    decreases |steps|
  {
    if steps == [] {
      StepKeepsInv(s, original, Teardown);
      assert Run(Next(s, Teardown), []) == Next(s, Teardown);
      assert (steps + [Teardown])[1..] == [];
    } else {
      StepKeepsInv(s, original, steps[0]);
      assert CapturesSucceed(steps[1..]);
      SysctlRestored(Next(s, steps[0]), original, steps[1..]);
      assert (steps + [Teardown])[1..] == steps[1..] + [Teardown];
    }
  }

  // ---- Captures that fail -----------------------------------------------------------------

  datatype SetupRun = SetupRun(flags: Flags, writable: bool)

  function Steps(runs: seq<SetupRun>): seq<Step> {
    if runs == [] then [] else [Setup(runs[0].flags, runs[0].writable)] + Steps(runs[1..])
  }

  /** The setups in front of the first capture that could write its file. */
  function Uncaptured(runs: seq<SetupRun>): seq<SetupRun> {
    if runs == [] || runs[0].writable then [] else [runs[0]] + Uncaptured(runs[1..])
  }

  /** The values behind a sequence of setups. */
  function TunedBy(v: Live, runs: seq<SetupRun>): Live
    decreases |runs|
  {
    if runs == [] then v else TunedBy(Tuned(v, runs[0].flags), runs[1..])
  }

  function Both(f: Flags, g: Flags): Flags {
    Flags(f.disableAslr || g.disableAslr, f.tuneNetBuffers || g.tuneNetBuffers, f.stopTimesyncd || g.stopTimesyncd)
  }

  /** Setups accumulate: two in a row, in either order, tune what one with the flags of both would. */
  lemma SetupsAccumulate(v: Live, f: Flags, g: Flags)
    ensures Tuned(Tuned(v, f), g) == Tuned(v, Both(f, g)) == Tuned(Tuned(v, g), f)
  {
  }

  /** A setup changes nothing iff every value its flags name is already the tuned one. */
  lemma TunedUnchanged(v: Live, f: Flags)
    ensures Tuned(v, f) == v <==>
            (f.disableAslr ==> v.aslr == 0) &&
            (f.stopTimesyncd ==> !v.timesyncd) &&
            (f.tuneNetBuffers ==> v.rmemMax == v.wmemMax == 26214400 && v.rmemDefault == v.wmemDefault == 1048576 &&
                                  v.backlog == 5000)
  {
  }

  function AllFlags(runs: seq<SetupRun>): Flags {
    if runs == [] then Flags(false, false, false) else Both(runs[0].flags, AllFlags(runs[1..]))
  }

  lemma {:induction false} TunedTogether(v: Live, runs: seq<SetupRun>)
    ensures TunedBy(v, runs) == Tuned(v, AllFlags(runs))
    decreases |runs|
  {
    if runs == [] {
    } else {
      TunedTogether(Tuned(v, runs[0].flags), runs[1..]);
      SetupsAccumulate(v, runs[0].flags, AllFlags(runs[1..]));
    }
  }

  /** A sequence of setups changes nothing iff none of them would, run alone. */
  lemma {:induction false} NoneChanges(v: Live, runs: seq<SetupRun>)
    ensures Tuned(v, AllFlags(runs)) == v <==> forall r :: r in runs ==> Tuned(v, r.flags) == v
  {
    if runs == [] {
    } else {
      NoneChanges(v, runs[1..]);
      TunedUnchanged(v, runs[0].flags);
      TunedUnchanged(v, AllFlags(runs[1..]));
      TunedUnchanged(v, AllFlags(runs));
      assert forall r :: r in runs <==> r == runs[0] || r in runs[1..];
    }
  }

  /** With the file written the restore brings back what was live then. */
  lemma {:induction false} CapturedRun(s: State, saved: Live, runs: seq<SetupRun>)
    requires s.file.Some? && Inv(s, saved)
    ensures Run(s, Steps(runs) + [Teardown]) == State(saved, None)
    decreases |runs|
  {
    if runs == [] {
      StepKeepsInv(s, saved, Teardown);
      assert Steps(runs) + [Teardown] == [Teardown] && [Teardown][1..] == [];
      assert Run(Restore(s), []) == Restore(s);
    } else {
      var step := Setup(runs[0].flags, runs[0].writable);
      assert Next(s, step) == s.(live := Tuned(s.live, runs[0].flags));
      OneStepMore(step, Steps(runs[1..]));
      CapturedRun(Next(s, step), saved, runs[1..]);
    }
  }

  lemma OneStepMore(step: Step, rest: seq<Step>)
    ensures [step] + rest + [Teardown] == [step] + (rest + [Teardown])
    ensures ([step] + (rest + [Teardown]))[1..] == rest + [Teardown]
  {
  }

  /**
   Every run of setups, with any flags and with captures that fail anywhere, and a teardown behind it: the
   live values are the originals as the setups in front of the first successful capture left them.
   */
  lemma {:induction false} FailedCaptures(original: Live, runs: seq<SetupRun>)
    ensures Run(State(original, None), Steps(runs) + [Teardown]) == State(TunedBy(original, Uncaptured(runs)), None)
    decreases |runs|
  {
    var s := State(original, None);
    if runs == [] {
      assert Steps(runs) + [Teardown] == [Teardown] && [Teardown][1..] == [];
      assert Run(Restore(s), []) == Restore(s) == s;
    } else {
      var step := Setup(runs[0].flags, runs[0].writable);
      OneStepMore(step, Steps(runs[1..]));
      if runs[0].writable {
        CodecExact(original);
        CapturedRun(Next(s, step), original, runs[1..]);
      } else {
        FailedCaptures(Tuned(original, runs[0].flags), runs[1..]);
      }
    }
  }

  /**
   The exact condition: such a run ends at the original values if and only if none of the setups in front
   of the first successful capture (all of them when none succeeds) would change a value.
   */
  lemma OriginalsComeBack(original: Live, runs: seq<SetupRun>)
    ensures Run(State(original, None), Steps(runs) + [Teardown]) == State(original, None) <==>
            forall r :: r in Uncaptured(runs) ==> Tuned(original, r.flags) == original
  {
    FailedCaptures(original, runs);
    TunedTogether(original, Uncaptured(runs));
    NoneChanges(original, Uncaptured(runs));
  }
}
