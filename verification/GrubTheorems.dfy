/** Safety of the GRUB baseline over whole runs, and what applying twice does. */
module GrubTheorems {
  import opened Text
  import opened SedScripts
  import opened Grub
  import opened GrubEdits
  import opened GrubBoot
  import opened GrubBaseline
  import opened GrubMachine
  import opened GrubRuns
  import opened GrubRestore

  // ---- Runs -------------------------------------------------------------------

  function Original(s: State): Baseline {
    ShownBy(s.cmdline)
  }

  /** A system benchmon has not touched yet, booted from its current GRUB file. */
  predicate Untouched(s: State) {
    && s.present && FileOk(s.file) && Clean(s.root)
    && s.baseline.None? && s.boot == BootArgs(s.root, s.file) && s.cmdline == s.boot
    && SafeBaseline(Original(s))
  }

  /**
   What a caller has to observe: the parameters fit their buffer, a teardown regenerates grub.cfg, and an
   apply that takes a new baseline can create its file and runs on a kernel booted from the current boot
   configuration, which means that a reboot lies between a teardown and the next apply.
   */
  predicate LegalStep(s: State, step: Step) {
    match step
    case Apply(cfg, writable, _) =>
      Intact(cfg) &&
      (s.baseline.None? && cfg.cores != [] ==> writable && s.cmdline == s.boot && |s.cmdline| <= 2047)
    case Teardown(regen) => regen
    case _ => true
  }

  predicate Legal(s: State, steps: seq<Step>)
    decreases |steps|
  {
    steps == [] ||
    (Legal(s, steps[..|steps| - 1]) && LegalStep(Run(s, steps[..|steps| - 1]), steps[|steps| - 1]))
  }

  /** The boot configuration and the file both give the next boot these values. */
  predicate Offers(s: State, b: Baseline) {
    Shows(s.boot, b) && Shows(BootArgs(s.root, s.file), b)
  }

  /**
   A baseline file holds the original values as far as it can. Without one the next boot shows the
   original values, or after a teardown what the file held of them.
   */
  predicate Inv(s: State, original: Baseline) {
    && s.present && FileOk(s.file) && Clean(s.root) && SafeBaseline(original)
    && (s.baseline.Some? ==> ReadBaseline(s.baseline.value) == Kept(original))
    && (s.baseline.None? ==> Offers(s, original) || Offers(s, Kept(original)))
  }

  lemma KeptIsSafe(b: Baseline)
    requires SafeBaseline(b)
    ensures SafeBaseline(Kept(b)) && ReadBaseline(BaselineText(Cut(b))) == Kept(b) == Kept(Kept(b))
    ensures Kept(b) == b <==> FitsFile(b)
  {
    SafeWord(b.nohz);
    SafeWord(b.rcu);
    SafeFront(b.nohz, 255);
    SafeFront(b.rcu, 255);
    KeptIsRead(b);
  }

  lemma SafeFront(v: string, n: nat)
    requires SafeValue(v)
    ensures SafeValue(Take(v, n))
  {
    var t := Take(v, n);
    assert forall i :: 0 <= i < |t| ==> t[i] == v[i] && v[i] in v;
  }

  /** What is saved of a command line that shows these values. */
  lemma SavedIsOriginal(s: State, original: Baseline)
    requires SafeBaseline(original) && Shows(s.cmdline, original) && |s.cmdline| <= 2047
    ensures ReadBaseline(BaselineText(Extracted(s.cmdline))) == Kept(original)
  {
    assert Extracted(s.cmdline) == Cut(original);
    KeptIsSafe(original);
  }

  lemma ApplyKeepsFile(file: File, cfg: GrubConfig)
    requires FileOk(file) && Intact(cfg)
    ensures FileOk(ApplyText(file, cfg)) && FileOk(OnLines(StripBoot, file))
  {
    GrepUnaffected(file);
    var applied, stripped := ApplyText(file, cfg), OnLines(StripBoot, file);
    forall i | 0 <= i < |file| ensures Edited(file[i], applied[i]) && Edited(file[i], stripped[i]) {
      StripBootEdits(file[i]);
      StripFiveEdits(file[i]);
      ParamsOk(cfg);
      InjectEdits(StripFive(file[i]), Params(cfg));
    }
    EditedFile(file, applied);
    EditedFile(file, stripped);
  }

  lemma ApplyKeepsInv(s: State, cfg: GrubConfig, writable: bool, regen: bool, original: Baseline)
    requires Inv(s, original) && LegalStep(s, Apply(cfg, writable, regen))
    ensures Inv(SetupGrub(s, cfg, writable, regen), original)
  {
    SetupCases(s, cfg, writable, regen);
    if cfg.cores != [] {
      if s.baseline.None? {
        KeptIsSafe(original);
        SavedIsOriginal(s, if Offers(s, original) then original else Kept(original));
      }
      ApplyKeepsFile(s.file, cfg);
    }
  }

  lemma TeardownKeepsInv(s: State, original: Baseline)
    requires Inv(s, original)
    ensures Inv(RestoreGrub(s, true), original) && RestoreGrub(s, true).baseline.None?
    ensures s.baseline.Some? ==> ShowsOnly(RestoreGrub(s, true).boot, Kept(original))
  {
    if s.baseline.Some? {
      KeptIsSafe(original);
      RestoredOk(s.file, Kept(original));
      RestoredBoot(s.root, s.file, Kept(original));
    }
  }

  lemma StepKeepsInv(s: State, step: Step, original: Baseline)
    requires Inv(s, original) && LegalStep(s, step)
    ensures Inv(Next(s, step), original)
  {
    match step
    case Apply(cfg, writable, regen) => ApplyKeepsInv(s, cfg, writable, regen, original);
    case Teardown(regen) => TeardownKeepsInv(s, original);
    case Reboot =>
    case Regenerate =>
  }

  /**
   In every legal run of applies, teardowns, reboots and foreign grub.cfg updates: whenever a baseline
   file exists it holds the values of the untouched system as far as it can, and whenever none exists the
   next boot shows them.
   */
  lemma {:induction false} BaselineIsOriginal(s: State, steps: seq<Step>)
    requires Untouched(s) && Legal(s, steps)
    ensures Inv(Run(s, steps), Original(s))
    decreases |steps|
  {
    if steps == [] {
    } else {
      var init, last := steps[..|steps| - 1], steps[|steps| - 1];
      BaselineIsOriginal(s, init);
      StepKeepsInv(Run(s, init), last, Original(s));
    }
  }

  /**
   After every teardown that had a baseline, the next boot shows exactly what the file could hold of the
   original values: absent parameters stay absent, present ones are there once. These are the original
   values if and only if neither has more than 255 characters and the two together at most 461.
   */
  lemma TeardownRestoresOriginal(s: State, steps: seq<Step>)
    requires Untouched(s) && Legal(s, steps) && Run(s, steps).baseline.Some?
    ensures ShowsOnly(Next(Next(Run(s, steps), Teardown(true)), Reboot).cmdline, Kept(Original(s)))
    ensures ShowsOnly(Next(Next(Run(s, steps), Teardown(true)), Reboot).cmdline, Original(s)) <==>
            FitsFile(Original(s))
    ensures Next(Run(s, steps), Teardown(true)).baseline.None?
  {
    BaselineIsOriginal(s, steps);
    TeardownShows(Run(s, steps), Original(s));
    KeptIsSafe(Original(s));
    OneBaselineShown(Next(Next(Run(s, steps), Teardown(true)), Reboot).cmdline, Kept(Original(s)), Original(s));
  }

  lemma OneBaselineShown(cmdline: string, b: Baseline, c: Baseline)
    requires ShowsOnly(cmdline, b)
    ensures ShowsOnly(cmdline, c) <==> b == c
  {
  }

  lemma Rebooted(u: State)
    ensures Next(u, Reboot).cmdline == u.boot
  {
  }

  lemma TeardownShows(t: State, original: Baseline)
    requires Inv(t, original) && t.baseline.Some?
    ensures ShowsOnly(Next(Next(t, Teardown(true)), Reboot).cmdline, Kept(original))
    ensures Next(t, Teardown(true)).baseline.None?
  {
    var u := Next(t, Teardown(true));
    assert u == RestoreGrub(t, true);
    TeardownKeepsInv(t, original);
    Rebooted(u);
  }

  // ---- Runs of applies --------------------------------------------------------

  /** Applies that rewrite the file (the already-active test is false), with reboots and updates in between. */
  predicate Rewriting(s: State, steps: seq<Step>)
    decreases |steps|
  {
    steps == [] ||
    (Rewriting(s, steps[..|steps| - 1]) &&
     RewritingStep(Run(s, steps[..|steps| - 1]).cmdline, steps[|steps| - 1]))
  }

  predicate RewritingStep(cmdline: string, step: Step) {
    match step
    case Apply(cfg, _, _) => Intact(cfg) && cfg.cores != [] && !AlreadyActive(Seen(cmdline), cfg)
    case Teardown(_) => false
    case _ => true
  }

  function AppliedBy(step: Step): seq<GrubConfig> {
    match step case Apply(cfg, _, _) => [cfg] case _ => []
  }

  function Applied(steps: seq<Step>): seq<GrubConfig>
    decreases |steps|
  {
    if steps == [] then [] else Applied(steps[..|steps| - 1]) + AppliedBy(steps[|steps| - 1])
  }

  lemma RewritingNext(t: State, step: Step, file: File, cfgs: seq<GrubConfig>)
    requires t.present && RewritingStep(t.cmdline, step) && t.file == RunApplies(file, cfgs)
    ensures Next(t, step).present && Next(t, step).file == RunApplies(file, cfgs + AppliedBy(step))
  {
    if step.Apply? {
      assert (cfgs + [step.cfg])[..|cfgs|] == cfgs;
    } else {
      assert cfgs + [] == cfgs;
    }
  }

  lemma {:induction false} RewritingText(s: State, steps: seq<Step>)
    requires s.present && Rewriting(s, steps)
    ensures Run(s, steps).present && Run(s, steps).file == RunApplies(s.file, Applied(steps))
    ensures forall i :: 0 <= i < |Applied(steps)| ==> Intact(Applied(steps)[i])
    decreases |steps|
  {
    if steps == [] {
    } else {
      var init, last := steps[..|steps| - 1], steps[|steps| - 1];
      RewritingText(s, init);
      RewritingNext(Run(s, init), last, s.file, Applied(init));
    }
  }

  /**
   Last apply wins in every run: after any number of applies with any core lists and toggles, and reboots
   and grub.cfg updates in between, the GRUB text is the one the last configuration gives to the original
   text, so nothing of the earlier ones remains.
   */
  lemma LastApplyWinsInRuns(s: State, steps: seq<Step>)
    requires s.present && Rewriting(s, steps) && Applied(steps) != [] && WholeFile(s.file) && HasCmdline(s.file)
    ensures Run(s, steps).file == ApplyText(s.file, Applied(steps)[|Applied(steps)| - 1])
    ensures Intact(Applied(steps)[|Applied(steps)| - 1])
  {
    RewritingText(s, steps);
    LastApplyWins(s.file, Applied(steps));
  }

  // ---- The arguments after an apply ----------------------------------------------

  /** The five scripts, when ` nosoftlockup` is a whole token everywhere. */
  function StripAll(s: string): string {
    StripParam(StripParam(StripParam(StripBoot(s), ISOL), CSTATE), SOFT)
  }

  lemma StripAllLine(line: string)
    requires Whole(line, SOFT)
    ensures StripFive(line) == StripAll(line)
  {
    Patterns();
    StripFourWhole(line);
    LiteralIsTokenDeletion(StripParam(StripParam(StripBoot(line), ISOL), CSTATE), SOFT);
  }

  lemma StripAllQuoted(line: string, assign: string, body: string, tail: string)
    requires Assigns(line, assign, body, tail) && Name(assign) && Whole(line, SOFT)
    ensures Assigns(StripFive(line), assign, StripAll(body), StripAll(tail))
    ensures Splits(line, assign, body, tail) ==> Splits(StripFive(line), assign, StripAll(body), StripAll(tail))
  {
    Patterns();
    StripAllLine(line);
    var l2, b2, t2 := StripBoot(line), StripBoot(body), StripBoot(tail);
    var l3, b3, t3 := StripParam(l2, ISOL), StripParam(b2, ISOL), StripParam(t2, ISOL);
    var l4, b4, t4 := StripParam(l3, CSTATE), StripParam(b3, CSTATE), StripParam(t3, CSTATE);
    StripBootQuoted(line, assign, body, tail);
    StripQuoted(l2, assign, b2, t2, ISOL);
    StripQuoted(l3, assign, b3, t3, CSTATE);
    StripQuoted(l4, assign, b4, t4, SOFT);
  }

  /** The tokens of a line, without the quotes around the body: what the kernel splits at spaces. */
  lemma StripFiveClean(line: string)
    requires LineOk(line)
    ensures Clean(StripFive(line))
  {
    KeyFacts();
    Patterns();
    StripAllLine(line);
    CleanByChunks(line);
    var l2 := StripBoot(line);
    var l3 := StripParam(l2, ISOL);
    var l4 := StripParam(l3, CSTATE);
    StripKeepsClean(l2, ISOL);
    StripKeepsClean(l3, CSTATE);
    StripKeepsClean(l4, SOFT);
  }

  lemma StripKeepsClean(s: string, p: string)
    requires Pattern(p) && Clean(s)
    ensures Clean(StripParam(s, p))
  {
    KeyFacts();
    StripIsTokenDeletion(s, p);
    WithoutMember(Chunks(s), p);
    ChunksOfText(s);
    ChunksOfText(StripParam(s, p));
    ContainsChunk(Chunks(s), NOHZ_KEY);
    ContainsChunk(Chunks(s), RCU_KEY);
    ContainsChunk(Chunks(StripParam(s, p)), NOHZ_KEY);
    ContainsChunk(Chunks(StripParam(s, p)), RCU_KEY);
  }

  lemma CleanMiddle(pre: string, x: string, post: string)
    requires Clean(pre + x + post)
    ensures Clean(x)
  {
    if Contains(x, NOHZ_KEY) { ContainsPart(pre, x, post, NOHZ_KEY); }
    if Contains(x, RCU_KEY) { ContainsPart(pre, x, post, RCU_KEY); }
  }

  /** The two variables after an apply: stripped, and the new parameters at the end of the first. */
  lemma AppliedLinux(file: File, cfg: GrubConfig) returns (k: nat)
    requires FileOk(file) && Intact(cfg)
    ensures k < |file| && ASSIGN <= file[k]
    ensures ValueIn(ApplyText(file, cfg), ASSIGN) == StripAll(BodyOf(file[k], ASSIGN)) + (" " + Params(cfg))
    ensures Clean(StripAll(BodyOf(file[k], ASSIGN)))
  {
    Names();
    ApplyKeepsFile(file, cfg);
    GrepUnaffected(file);
    k := LinuxLine(ApplyText(file, cfg));
    var line := file[k];
    StripFiveEdits(line);
    ParamsOk(cfg);
    InjectEdits(StripFive(line), Params(cfg));
    var body, tail := BodyOf(line, ASSIGN), TailOf(line, ASSIGN);
    StripAllQuoted(line, ASSIGN, body, tail);
    InjectQuoted(StripFive(line), StripAll(body), StripAll(tail), Params(cfg));
    SplitIsUnique(ApplyText(file, cfg)[k], ASSIGN, StripAll(body) + (" " + Params(cfg)), StripAll(tail));
    StripFiveClean(line);
    Assoc3(ASSIGN, "\"", StripAll(body));
    CleanMiddle(ASSIGN + "\"", StripAll(body), "\"" + StripAll(tail));
  }

  lemma LineValue(file: File, assign: string, k: nat)
    requires AtMostOne(file, assign) && k < |file| && assign <= file[k]
    ensures ValueIn(file, assign) == BodyOf(file[k], assign)
  {
    ValueAt(file, assign, k);
  }

  lemma NoDefault(file: File, cfg: GrubConfig)
    requires FileOk(file) && Intact(cfg)
    requires forall k :: 0 <= k < |ApplyText(file, cfg)| ==> !(DEFAULT_ASSIGN <= ApplyText(file, cfg)[k])
    ensures ValueIn(file, DEFAULT_ASSIGN) == ""
  {
    GrepUnaffected(file);
    forall i | 0 <= i < |file| ensures !(DEFAULT_ASSIGN <= file[i]) {
      StripFiveEdits(file[i]);
      ParamsOk(cfg);
      InjectEdits(StripFive(file[i]), Params(cfg));
      assert ApplyText(file, cfg)[i] == Inject(StripFive(file[i]), Params(cfg));
    }
    ValueNowhere(file, DEFAULT_ASSIGN);
  }

  lemma AppliedDefault(file: File, cfg: GrubConfig) returns (body: string)
    requires FileOk(file) && Intact(cfg)
    ensures body == "" || (exists k :: 0 <= k < |file| && DEFAULT_ASSIGN <= file[k] &&
                                       body == BodyOf(file[k], DEFAULT_ASSIGN))
    ensures body == ValueIn(file, DEFAULT_ASSIGN)
    ensures ValueIn(ApplyText(file, cfg), DEFAULT_ASSIGN) == StripAll(body) && Clean(StripAll(body))
  {
    Names();
    ApplyKeepsFile(file, cfg);
    GrepUnaffected(file);
    var applied := ApplyText(file, cfg);
    DefaultValue(applied);
    if k :| 0 <= k < |file| && DEFAULT_ASSIGN <= applied[k] &&
            ValueIn(applied, DEFAULT_ASSIGN) == BodyOf(applied[k], DEFAULT_ASSIGN) {
      var line := file[k];
      StripFiveEdits(line);
      ParamsOk(cfg);
      InjectEdits(StripFive(line), Params(cfg));
      NotBoth(line);
      InjectElsewhere(StripFive(line), Params(cfg));
      LineValue(file, DEFAULT_ASSIGN, k);
      body := BodyOf(line, DEFAULT_ASSIGN);
      var tail := TailOf(line, DEFAULT_ASSIGN);
      StripAllQuoted(line, DEFAULT_ASSIGN, body, tail);
      SplitIsUnique(StripFive(line), DEFAULT_ASSIGN, StripAll(body), StripAll(tail));
      StripFiveClean(line);
      Assoc3(DEFAULT_ASSIGN, "\"", StripAll(body));
      CleanMiddle(DEFAULT_ASSIGN + "\"", StripAll(body), "\"" + StripAll(tail));
    } else {
      body := "";
      NoDefault(file, cfg);
    }
  }
}
