/** A system that meets the hypotheses of the GRUB theorems: they are not empty. */
module GrubWitness {
  import opened Text
  import opened SedScripts
  import opened Grub
  import opened GrubEdits
  import opened GrubBoot
  import opened GrubBaseline
  import opened GrubMachine
  import opened GrubRuns
  import opened GrubRestore
  import opened GrubTheorems
  import opened GrubLimits
  import opened GrubCut
  import opened GrubNames
  import opened GrubReversal
  import opened GrubShown
  import opened GrubRepeat
  import opened GrubTuiTeardown

  /** `GRUB_CMDLINE_LINUX=""`. */
  function EmptyLine(): string {
    ASSIGN + "\"" + "\""
  }

  lemma EmptyChunks(assign: string, q: string)
    requires Chunk(assign) && q == ['"']
    ensures Chunks(assign + q + q) == [assign] + [q] + [q]
  {
    FirstChunk(assign, q);
    SingleChunk(q);
    ChunksConcat(assign + q, q);
  }

  lemma NothingIn(s: string)
    requires forall c :: c in s ==> c == '"' || c == ' '
    ensures Clean(s)
  {
    Keys();
    assert s + "" == s;
    SkipForeign(s, "", NOHZ_KEY);
    SkipForeign(s, "", RCU_KEY);
  }

  lemma NameIsClean()
    ensures Clean(ASSIGN)
  {
    Keys();
    assert ASSIGN[|ASSIGN| - 2] == 'X' && NOHZ_KEY[|NOHZ_KEY| - 2] == 'l' && RCU_KEY[|RCU_KEY| - 2] == 's';
    OnlyKey(ASSIGN, |ASSIGN| - 1, NOHZ_KEY);
    OnlyKey(ASSIGN, |ASSIGN| - 1, RCU_KEY);
  }

  lemma QuotedName(assign: string, q: string)
    requires q == ['"']
    ensures WellQuoted(assign + q + q, assign) && BodyOf(assign + q + q, assign) == ""
  {
    var line := assign + q + q;
    assert line[|assign| + 1..] == q;
    assert BodyOf(line, assign) == "";
    assert line == assign + (q + "") + (q + "");
  }

  lemma NoPattern(c: string)
    requires c != "" && c[0] != ' '
    ensures !(SOFT <= c) && !(NOHZ <= c) && !(RCU <= c)
  {
    assert SOFT[0] == ' ' && NOHZ[0] == ' ' && RCU[0] == ' ';
  }

  lemma PlainLineOk(line: string, a: string, q: string)
    requires Chunks(line) == [a] + [q] + [q] && a != "" && a[0] != ' ' && q != "" && q[0] != ' '
    requires Clean(a) && Clean(q) && WellQuoted(line, ASSIGN) && !(DEFAULT_ASSIGN <= line)
    ensures LineOk(line)
  {
    NoPattern(a);
    NoPattern(q);
    assert forall c :: c in Chunks(line) ==> c == a || c == q;
  }

  lemma Starts(assign: string, q: string)
    requires |q| == 1
    ensures assign <= assign + q + q && (assign + q + q)[|assign| + 1..] == q
  {
  }

  lemma NameFacts(a: string)
    requires a == ASSIGN
    ensures Chunk(a) && Clean(a) && a != "" && a[0] != ' '
  {
    AssignChunk();
    NameIsClean();
  }

  lemma NotTheDefault(line: string, a: string)
    requires a == ASSIGN && a <= line
    ensures !(DEFAULT_ASSIGN <= line)
  {
    NotBoth(line);
  }

  lemma EmptyPieces(line: string, a: string, q: string)
    requires Chunk(a) && q == ['"'] && line == a + q + q
    ensures Chunks(line) == [a] + [q] + [q] && Clean(q) && WellQuoted(line, a) && BodyOf(line, a) == "" && a <= line
  {
    EmptyChunks(a, q);
    NothingIn(q);
    QuotedName(a, q);
    Starts(a, q);
  }

  lemma EmptyValueOk(line: string, a: string, q: string)
    requires a == ASSIGN && q == ['"'] && line == a + q + q
    ensures LineOk(line) && a <= line && BodyOf(line, a) == "" && !(DEFAULT_ASSIGN <= line)
  {
    NameFacts(a);
    EmptyPieces(line, a, q);
    NotTheDefault(line, a);
    PlainLineOk(line, a, q);
  }

  lemma EmptyLineOk()
    ensures LineOk(EmptyLine()) && ASSIGN <= EmptyLine()
    ensures BodyOf(EmptyLine(), ASSIGN) == "" && !(DEFAULT_ASSIGN <= EmptyLine())
  {
    EmptyValueOk(EmptyLine(), ASSIGN, "\"");
  }

  lemma OneLineFile(line: string)
    requires LineOk(line) && ASSIGN <= line
    ensures FileOk([line])
  {
    assert [line][0] == line;
  }

  /** A fresh machine with an empty GRUB_CMDLINE_LINUX. */
  function Machine(): State {
    State(true, [EmptyLine()], "", "  ", "  ", None)
  }

  lemma MachineBoots()
    ensures BootArgs("", [EmptyLine()]) == "  "
  {
    EmptyLineOk();
    assert ValueIn([EmptyLine()], ASSIGN) == "";
    assert [EmptyLine()][1..] == [];
    assert ValueIn([EmptyLine()], DEFAULT_ASSIGN) == "";
    assert "" + (" " + "") + (" " + "") == "  ";
  }

  lemma MachineUntouched()
    ensures Untouched(Machine()) && Original(Machine()) == Baseline("", "")
  {
    EmptyLineOk();
    OneLineFile(EmptyLine());
    MachineBoots();
    NothingIn("  ");
    NothingIn("");
  }

  /** On an untouched system apply, reboot and teardown is a legal run, and there is a baseline to restore. */
  lemma CycleIsLegal(s: State, cfg: GrubConfig)
    requires Untouched(s) && Intact(cfg) && cfg.cores != [] && |s.cmdline| <= 2047
    ensures var steps := [Apply(cfg, true, true), Reboot];
            Legal(s, steps) && Legal(s, steps + [Teardown(true)]) && Run(s, steps).baseline.Some?
  {
    var apply := [Apply(cfg, true, true)];
    var steps := [Apply(cfg, true, true), Reboot];
    var all := steps + [Teardown(true)];
    assert apply[..0] == [] && steps[..1] == apply && all[..2] == steps;
    assert Run(s, []) == s && Legal(s, []);
    assert Run(s, apply) == SetupGrub(s, cfg, true, true) && Legal(s, apply);
    SetupCases(s, cfg, true, true);
    assert Legal(s, steps);
  }

  // ---- The failures on this machine ---------------------------------------------------

  lemma NothingActive(cfg: GrubConfig)
    ensures !AlreadyActive(Seen("  "), cfg)
  {
    SkipForeign("  ", "", "isolcpus=");
    assert "  " + "" == "  ";
  }

  lemma EmptyStripped()
    ensures StripAll("") == ""
  {
  }

  lemma OneDefault(line: string, assign: string, k: int)
    requires !(assign <= line)
    ensures !(0 <= k < |[line]| && assign <= [line][k])
  {
  }

  /** The command line of the machine behind an apply, which is short. */
  lemma MachineBoot(cfg: GrubConfig)
    requires Intact(cfg)
    ensures BootArgs("", ApplyText([EmptyLine()], cfg)) == "" + (" " + ("" + (" " + Params(cfg)))) + (" " + "")
    ensures |BootArgs("", ApplyText([EmptyLine()], cfg))| <= 514
  {
    EmptyLineOk();
    OneLineFile(EmptyLine());
    EmptyStripped();
    var k := AppliedLinux([EmptyLine()], cfg);
    var body := AppliedDefault([EmptyLine()], cfg);
    OneDefault(EmptyLine(), DEFAULT_ASSIGN, 0);
    assert body == "";
  }

  /** Teardown does not give the file back: it is longer by the tokens left behind. */
  lemma MachineNotRestored(cfg: GrubConfig)
    requires Intact(cfg) && cfg.cores != []
    ensures RestoreGrub(AppliedAndBooted(Machine(), cfg, true), true).file != Machine().file
  {
    MachineUntouched();
    NothingActive(cfg);
    CycleRestoresFile(Machine(), cfg);
    KeptIsSafe(Baseline("", ""));
    LeftIsOurs(cfg, Kept(Baseline("", "")));
    EmptyLineOk();
    NotReversible(Machine().file, 0, cfg, Kept(Baseline("", "")));
  }

  lemma NotReversible(file: File, i: nat, cfg: GrubConfig, b: Baseline)
    requires i < |file| && WellQuoted(file[i], ASSIGN) && BodyOf(file[i], ASSIGN) == "" && Left(cfg, b) != ""
    ensures !Reversible(file, cfg, b)
  {
    InsideIsUnique(file[i], "", TailOf(file[i], ASSIGN));
    assert !LineReversible(file[i], cfg, b);
  }

  /** Without the second reboot the original baseline, both values absent, is lost. */
  lemma MachineBaselineLost(a: GrubConfig, b: GrubConfig)
    requires Intact(a) && a.cores != [] && (a.nohz || a.rcu) && b.cores != []
    ensures var t := SetupGrub(RestoreGrub(AppliedAndBooted(Machine(), a, true), true), b, true, true);
            t.baseline.Some? && ReadBaseline(t.baseline.value) == Requested(a) != Original(Machine())
  {
    MachineUntouched();
    NothingActive(a);
    MachineBoot(a);
    RequestedValues(a);
    WithoutRebootBaselineIsLost(Machine(), a, b, true);
  }

  /** With a toggle set the second apply after a reboot changes the file and drops the parameter. */
  lemma MachineReapplied(cfg: GrubConfig)
    requires Intact(cfg) && cfg.cores != []
    ensures var once := AppliedAndBooted(Machine(), cfg, true);
            SetupGrub(once, cfg, true, true).file == once.file <==> !cfg.nohz && !cfg.rcu
  {
    MachineUntouched();
    NothingActive(cfg);
    MachineBoot(cfg);
    RewritingApply(Machine(), cfg, true);
    ReapplyAfterReboot(Machine(), cfg, true, true);
  }

  lemma PartOfList()
    ensures CoreList([12]) == "12" && CoreList([2]) == "2" && Contains("12", "2")
  {
    assert Digits(12) == Digits(1) + [DigitChar(2)];
    assert "2" <= "12"[1..];
  }

  /** Booted with core 12, an apply of core 2 with toggles not beyond finds itself active and only strips. */
  lemma MachineWronglyActive(a: GrubConfig, b: GrubConfig)
    requires a.cores == [12] && b.cores == [2] && (b.nohz ==> a.nohz) && (b.rcu ==> a.rcu) && Intact(a)
    ensures var once := AppliedAndBooted(Machine(), a, true);
            SetupGrub(once, b, true, true).file == OnLines(StripBoot, once.file)
  {
    var once := AppliedAndBooted(Machine(), a, true);
    MachineUntouched();
    NothingActive(a);
    MachineBoot(a);
    PartOfList();
    RewritingApply(Machine(), a, true);
    ActiveForAnother("", Machine().file, a, b);
    ActiveApply(once, b, true);
  }

  /** `GRUB_CMDLINE_LINUX="isolcpus=2"`: the line exists, and the first apply already names isolcpus twice. */
  lemma FirstPositionNamedTwice(cfg: GrubConfig)
    requires Intact(cfg)
    ensures NamedIn(ApplyText([ASSIGN + ("\"" + ("isolcpus=" + "2")) + "\""], cfg), ISOL) == 2
  {
    OnlyTokenDuplicated(ASSIGN + ("\"" + ("isolcpus=" + "2")) + "\"", "2", cfg);
  }

  // ---- An apply that is skipped and takes effect only when it is repeated ----------------

  /** One core, no toggle. */
  function OneCore(core: i32): GrubConfig {
    GrubConfig([core], false, false, 0)
  }

  lemma OneDigit(n: nat)
    requires n < 10
    ensures Dec(n) == [DigitChar(n)] && DigitChar(n) == "0123456789"[n]
  {
  }

  lemma OneCoreParams(core: i32)
    requires 0 <= core < 10
    ensures Params(OneCore(core)) ==
            "isolcpus=" + [DigitChar(core)] + "" + "" + (" processor.max_cstate=" + "0") + " nosoftlockup"
    ensures Intact(OneCore(core)) && CoreList([core]) == [DigitChar(core)]
  {
    OneDigit(core);
    OneDigit(0);
  }

  lemma OtherDigit(other: char, c: char)
    requires c == '2' || c == '3'
    requires other != c && IsDigit(other)
    ensures c !in "" + (" " + ("" + (" " + ("isolcpus=" + [other] + "" + "" + (" processor.max_cstate=" + "0") +
                                            " nosoftlockup")))) + (" " + "")
  {
  }

  lemma CharAbsent(s: string, c: char)
    requires c !in s
    ensures !Contains(s, [c])
  {
    AfterIsFirst(s, [c]);
    forall i | 0 <= i <= |s| ensures !([c] <= s[i..]) {
      assert i < |s| ==> s[i..][0] == s[i] && s[i] in s;
    }
  }

  lemma OtherCoreAbsent(core: i32, other: i32)
    requires (core == 2 && other == 3) || (core == 3 && other == 2)
    ensures !Contains(BootArgs("", ApplyText([EmptyLine()], OneCore(core))), CoreList([other]))
  {
    OneCoreParams(core);
    OneCoreParams(other);
    MachineBoot(OneCore(core));
    OneDigit(core);
    OneDigit(other);
    OtherDigit(DigitChar(core), DigitChar(other));
    CharAbsent(BootArgs("", ApplyText([EmptyLine()], OneCore(core))), DigitChar(other));
  }

  /** Booted with one of the cores 2 and 3, the machine finds this one active and not the other one. */
  lemma OnlyOneCore(core: i32, other: i32)
    requires (core == 2 && other == 3) || (core == 3 && other == 2)
    ensures var boot := BootArgs("", ApplyText([EmptyLine()], OneCore(core)));
            !AlreadyActive(Seen(boot), OneCore(other)) && AlreadyActive(Seen(boot), OneCore(core)) &&
            ISOL + CoreList([core]) in Chunks(boot)
  {
    var boot := BootArgs("", ApplyText([EmptyLine()], OneCore(core)));
    OneCoreParams(core);
    OtherCoreAbsent(core, other);
    MachineBoot(OneCore(core));
    MachineUntouched();
    AppliedBoot("", [EmptyLine()], OneCore(core));
    BootedIsActive(boot, OneCore(core));
  }

  /** One configuration is applied and booted, then another one is applied. */
  function TwoApplies(a: GrubConfig, b: GrubConfig): seq<Step> {
    [Apply(a, true, true), Reboot] + [Apply(b, true, true)]
  }

  /** Core 2 is applied and booted, then core 3 is applied. */
  function SkippedRun(): seq<Step> {
    TwoApplies(OneCore(2), OneCore(3))
  }

  lemma OneStepMore(s: State, init: seq<Step>, step: Step)
    requires Legal(s, init) && LegalStep(Run(s, init), step)
    ensures Legal(s, init + [step]) && Run(s, init + [step]) == Next(Run(s, init), step)
  {
    assert (init + [step])[..|init|] == init;
  }

  lemma CycleState(s: State, cfg: GrubConfig)
    ensures Run(s, [Apply(cfg, true, true), Reboot]) == AppliedAndBooted(s, cfg, true)
  {
    var init := [Apply(cfg, true, true), Reboot];
    assert init[..1] == [Apply(cfg, true, true)] && init[..1][..0] == [];
    assert Run(s, []) == s;
    assert Run(s, init[..1]) == SetupGrub(s, cfg, true, true);
  }

  lemma SecondApplyLegal(s: State, a: GrubConfig, b: GrubConfig)
    requires Untouched(s) && Intact(a) && Intact(b) && a.cores != [] && |s.cmdline| <= 2047
    ensures Legal(s, TwoApplies(a, b))
    ensures Run(s, TwoApplies(a, b)) == SetupGrub(AppliedAndBooted(s, a, true), b, true, true)
  {
    CycleIsLegal(s, a);
    CycleState(s, a);
    OneStepMore(s, [Apply(a, true, true), Reboot], Apply(b, true, true));
  }

  lemma SkippedRunLegal()
    ensures Legal(Machine(), SkippedRun())
    ensures Run(Machine(), SkippedRun()) ==
            SetupGrub(AppliedAndBooted(Machine(), OneCore(2), true), OneCore(3), true, true)
  {
    MachineUntouched();
    OneCoreParams(2);
    OneCoreParams(3);
    SecondApplyLegal(Machine(), OneCore(2), OneCore(3));
  }

  /** Core 2 runs, and file and boot configuration say core 3. */
  lemma SkippedState()
    ensures var t, e := Run(Machine(), SkippedRun()), [EmptyLine()];
            t.present && t.root == "" && t.file == ApplyText(e, OneCore(3)) &&
            t.cmdline == BootArgs("", ApplyText(e, OneCore(2))) && t.boot == BootArgs("", t.file)
  {
    var a, b := OneCore(2), OneCore(3);
    SkippedRunLegal();
    MachineUntouched();
    OneCoreParams(2);
    NothingActive(a);
    RewritingApply(Machine(), a, true);
    OnlyOneCore(2, 3);
    RewritingApply(AppliedAndBooted(Machine(), a, true), b, true);
    OkIsWhole([EmptyLine()]);
    SecondApplyWins([EmptyLine()], a, b);
  }

  lemma SkippedOnce()
    ensures var t := Run(Machine(), SkippedRun());
            var once := AppliedAndBooted(t, OneCore(2), true);
            once.present && once.file == t.file && once.cmdline == t.boot
  {
    var t := Run(Machine(), SkippedRun());
    SkippedState();
    OneCoreParams(3);
    OnlyOneCore(2, 3);
    MachineUntouched();
    OkIsWhole([EmptyLine()]);
    ActiveApply(t, OneCore(2), true);
    WrittenSurvives([EmptyLine()], OneCore(3));
  }

  lemma CoresDiffer()
    ensures ApplyText([EmptyLine()], OneCore(2)) != ApplyText([EmptyLine()], OneCore(3))
  {
    OnlyOneCore(2, 3);
    OnlyOneCore(3, 2);
  }

  lemma RewrittenAtLast(once: State)
    requires once.present && once.file == ApplyText([EmptyLine()], OneCore(3))
    requires !AlreadyActive(Seen(once.cmdline), OneCore(2))
    ensures SetupGrub(once, OneCore(2), true, true).file != once.file
  {
    OneCoreParams(3);
    MachineUntouched();
    OkIsWhole([EmptyLine()]);
    RewritingApply(once, OneCore(2), true);
    SecondApplyWins([EmptyLine()], OneCore(3), OneCore(2));
    CoresDiffer();
  }

  /**
   Without any toggle the same apply changes the file when it is repeated after a reboot: taken for active
   at first, it writes only then. In between the machine boots core 3, not the core 2 that was applied.
   */
  lemma MachineSkips()
    ensures Legal(Machine(), SkippedRun()) && TogglesOff(OneCore(2))
    ensures var t := Run(Machine(), SkippedRun());
            var once := AppliedAndBooted(t, OneCore(2), true);
            SetupGrub(once, OneCore(2), true, true).file != once.file &&
            ISOL + CoreList([3]) in Chunks(once.cmdline) && !ShowsConfig(once.cmdline, OneCore(2))
  {
    SkippedRunLegal();
    SkippedState();
    SkippedOnce();
    OnlyOneCore(3, 2);
    OneCoreParams(3);
    MachineBoot(OneCore(3));
    var t := Run(Machine(), SkippedRun());
    RewrittenAtLast(AppliedAndBooted(t, OneCore(2), true));
    NotShown(t.boot, OneCore(2));
  }

  lemma NotShown(boot: string, cfg: GrubConfig)
    requires |boot| <= 2047 && cfg == OneCore(2) && !AlreadyActive(Seen(boot), cfg)
    ensures !ShowsConfig(boot, cfg)
  {
    OneCoreParams(2);
    if ISOL + CoreList(cfg.cores) in Chunks(boot) {
      ChunkShown(boot, CoreList(cfg.cores));
    }
  }

  lemma ChunkShown(boot: string, cores: string)
    requires ISOL + cores in Chunks(boot) && cores != "" && Plain(cores)
    ensures Contains(boot, "isolcpus=") && Contains(boot, cores)
  {
    var w, c := "isolcpus=", ISOL + cores;
    IsolationPattern();
    ChunksOfText(boot);
    ContainsChunk(Chunks(boot), w);
    ContainsChunk(Chunks(boot), cores);
    assert c == " " + w + cores && c == ISOL + cores + "";
    assert w <= w && cores <= cores;
    ContainsPart(" ", w, cores, w);
    ContainsPart(ISOL, cores, "", cores);
  }

  // ---- A value that is too long for its buffer -------------------------------------------

  /** An untouched machine that shows these values. */
  function MachineWith(b: Baseline): State {
    var file := Restored([EmptyLine()], b);
    State(true, file, "", BootArgs("", file), BootArgs("", file), None)
  }

  lemma MachineWithUntouched(b: Baseline)
    requires SafeBaseline(b)
    ensures Untouched(MachineWith(b)) && Original(MachineWith(b)) == b
  {
    EmptyLineOk();
    OneLineFile(EmptyLine());
    NothingIn("");
    RestoredOk([EmptyLine()], b);
    RestoredBoot("", [EmptyLine()], b);
  }

  lemma EmptyStripBoot()
    ensures StripBoot("") == ""
  {
  }

  lemma OneLineArgs(line: string, body: string, tail: string)
    requires Splits(line, ASSIGN, body, tail)
    ensures BootArgs("", [line]) == "" + (" " + body) + (" " + "")
  {
    SplitIsUnique(line, ASSIGN, body, tail);
    OpenOfSplit(line, body, tail);
    OpenIsAssign();
    PrefixOfPrefix(ASSIGN, OPEN, line);
    NotBoth(line);
    assert [line][0] == line;
    ValueAt([line], ASSIGN, 0);
    ValueNowhere([line], DEFAULT_ASSIGN);
  }

  lemma MachineWithBoot(b: Baseline)
    requires SafeBaseline(b)
    ensures |MachineWith(b).cmdline| <= |b.nohz| + |b.rcu| + 24
  {
    EmptyLineOk();
    EmptyStripBoot();
    var line := RestoreLine(EmptyLine(), b);
    RestoreQuoted(EmptyLine(), "", TailOf(EmptyLine(), ASSIGN), b);
    assert Restored([EmptyLine()], b) == [line];
    OneLineArgs(line, RestoredBody("", b), StripBoot(TailOf(EmptyLine(), ASSIGN)));
  }

  /**
   One value of 256 to 461 characters fits the text of the baseline file and is not restored all the same:
   it was cut on the way there.
   */
  lemma LongValueLost(v: string, cfg: GrubConfig)
    requires SafeValue(v) && 256 <= |v| <= 461 && Intact(cfg) && cfg.cores != []
    ensures var s, steps := MachineWith(Baseline(v, "")), [Apply(cfg, true, true), Reboot];
            Untouched(s) && Legal(s, steps) && FitsBuffer(Original(s)) &&
            !ShowsOnly(Next(Next(Run(s, steps), Teardown(true)), Reboot).cmdline, Original(s))
  {
    var b := Baseline(v, "");
    MachineWithUntouched(b);
    MachineWithBoot(b);
    CycleIsLegal(MachineWith(b), cfg);
    TeardownRestoresOriginal(MachineWith(b), [Apply(cfg, true, true), Reboot]);
  }

  /** Values the untouched machine showed are wiped by the teardown of the terminal UI, when nothing was isolated. */
  lemma UiTeardownLoses(b: Baseline, cfg: GrubConfig, snap: GrubConfig)
    requires SafeBaseline(b) && b != Baseline("", "") && |b.nohz| + |b.rcu| <= 461
    requires Intact(cfg) && cfg.cores != [] && snap.cores == []
    ensures var s, steps := MachineWith(b), [Apply(cfg, true, true), Reboot];
            var u := UiTeardown(Run(s, steps), Some(snap), Outcome(true, true, true, true));
            Untouched(s) && Legal(s, steps) && Run(s, steps).baseline.Some? && Original(s) == b &&
            ShowsOnly(u.boot, Baseline("", "")) && !ShowsOnly(u.boot, Original(s))
  {
    var s, steps := MachineWith(b), [Apply(cfg, true, true), Reboot];
    MachineWithUntouched(b);
    MachineWithBoot(b);
    CycleIsLegal(s, cfg);
    UiTeardownShows(s, steps, Some(snap), Outcome(true, true, true, true));
  }

  // ---- A parameter text that is cut ------------------------------------------------------

  lemma {:induction false} TwoDigitList(cores: seq<i32>)
    requires cores != [] && forall i :: 0 <= i < |cores| ==> 10 <= cores[i] <= 99
    ensures |JoinCores(cores)| == 3 * |cores| - 1
  {
    var init, last := cores[..|cores| - 1], cores[|cores| - 1];
    assert |Digits(last / 10)| == 1 && |Dec(last)| == 2;
    if init == [] {
    } else {
      TwoDigitList(init);
    }
  }

  lemma CutLength(cfg: GrubConfig)
    requires |JoinCores(cfg.cores)| == 215 && cfg.nohz && cfg.rcu && cfg.maxCstate == 0
    ensures |FullParams(cfg)| == 514
  {
    assert |Dec(0)| == 1;
    assert |CstatePart(cfg)| == 23;
    assert |NohzPart(cfg)| == 127 && |RcuPart(cfg)| == 127;
  }

  /** With 72 two-digit cores and both toggles the text is cut inside ` nosoftlockup`, and that piece stays. */
  lemma CutStays(a: GrubConfig, b: GrubConfig)
    requires |a.cores| == 72 && (forall i :: 0 <= i < 72 ==> 10 <= a.cores[i] <= 99)
    requires a.nohz && a.rcu && a.maxCstate == 0
    ensures ApplyText(ApplyText(Machine().file, a), b) != ApplyText(Machine().file, b)
  {
    TwoDigitList(a.cores);
    CutLength(a);
    RemovableByLength(a);
    MachineUntouched();
    OkIsWhole(Machine().file);
    SecondApplyWinsWhenCut(Machine().file, a, b);
  }
}
