/** What an apply gives the next boot, which values the next one saves, and when it is taken for active. */
module GrubLimits {
  import opened Text
  import opened JsonText
  import opened SedScripts
  import opened Grub
  import opened GrubEdits
  import opened GrubBoot
  import opened GrubBaseline
  import opened GrubMachine
  import opened GrubRuns
  import opened GrubRestore
  import opened GrubTheorems

  // ---- What an apply gives the next boot ------------------------------------

  /** The core list as far as `nohz_part[128]` and `rcu_part[128]` hold it. */
  function ShortList(cfg: GrubConfig): string {
    Take(CoreList(cfg.cores), 116)
  }

  /** The values an apply writes: the whole core list iff it has at most 116 characters. */
  function Requested(cfg: GrubConfig): Baseline {
    Baseline(if cfg.nohz then ShortList(cfg) else "", if cfg.rcu then ShortList(cfg) else "")
  }

  predicate ListChar(c: char) {
    IsDigit(c) || c == '-' || c == ','
  }

  lemma {:induction false} ListChars(cores: seq<i32>)
    ensures forall c :: c in JoinCores(cores) ==> ListChar(c)
    ensures cores != [] ==> JoinCores(cores) != ""
  {
    if cores == [] {
    } else if |cores| == 1 {
      DecChars(cores[0]);
    } else {
      ListChars(cores[..|cores| - 1]);
      DecChars(cores[|cores| - 1]);
    }
  }

  lemma DecChars(n: int)
    ensures Dec(n) != "" && forall c :: c in Dec(n) ==> ListChar(c)
  {
    ParseDec(n);
    assert forall i :: 0 <= i < |Dec(n)| ==> NumeralChar(Dec(n)[i]);
  }

  lemma ListCharsSafe(v: string)
    requires forall c :: c in v ==> ListChar(c)
    ensures SafeValue(v)
  {
    assert forall i :: 0 <= i < |v| ==> v[i] in v;
  }

  lemma CoresSafe(cores: seq<i32>)
    ensures SafeValue(JoinCores(cores)) && SafeValue(CoreList(cores))
    ensures cores != [] ==> JoinCores(cores) != "" && CoreList(cores) != ""
  {
    ListChars(cores);
    ListCharsSafe(JoinCores(cores));
    assert forall c :: c in CoreList(cores) ==> c in JoinCores(cores);
    ListCharsSafe(CoreList(cores));
  }

  /** Two parameters, each written once at its place, are both shown. */
  lemma TwoShown(x: string, b: Baseline, rest: string)
    requires Clean(x) && Clean(rest) && (rest == "" || rest[0] == ' ')
    requires SafeValue(b.nohz) && SafeValue(b.rcu)
    ensures ShowsOnly(x + Written(NOHZ, b.nohz) + Written(RCU, b.rcu) + rest, b)
  {
    KeyFacts();
    var n, r := Written(NOHZ, b.nohz), Written(RCU, b.rcu);
    SafeWord(b.nohz);
    SafeWord(b.rcu);
    OtherBoot(b.rcu);
    OtherBoot(b.nohz);
    WrittenClean(x, RCU_KEY, NOHZ_KEY, b.nohz);
    WrittenClean("", NOHZ_KEY, RCU_KEY, b.rcu);
    assert "" + r == r;
    if rest == "" {
      assert r + rest == r;
    } else {
      SkipWord(r, rest, NOHZ_KEY, ' ');
    }
    ShownValue(x, NOHZ_KEY, b.nohz, r + rest);
    ShownValue(x + n, RCU_KEY, b.rcu, rest);
    Assoc3(x + n, r, rest);
  }

  lemma ShortListSafe(cfg: GrubConfig)
    ensures SafeValue(ShortList(cfg)) && (cfg.cores != [] ==> ShortList(cfg) != "")
  {
    CoresSafe(cfg.cores);
    SafeFront(CoreList(cfg.cores), 116);
  }

  lemma TakeBehind(p: string, v: string, n: nat)
    requires |p| <= n
    ensures Take(p + v, n) == p + Take(v, n - |p|)
  {
  }

  lemma WrittenParts(cfg: GrubConfig)
    requires cfg.cores != []
    ensures NohzPart(cfg) == Written(NOHZ, Requested(cfg).nohz)
    ensures RcuPart(cfg) == Written(RCU, Requested(cfg).rcu)
  {
    ShortListSafe(cfg);
    TakeBehind(NOHZ, CoreList(cfg.cores), 127);
    TakeBehind(RCU, CoreList(cfg.cores), 127);
  }

  lemma CleanHead(x: string, cores: string)
    requires Clean(x) && '=' !in cores
    ensures Clean(x + (ISOL + cores))
  {
    KeyFacts();
    OtherIsolation(cores);
    Spelled();
    var w := "isolcpus=" + cores;
    IsolationPattern();
    assert ISOL + cores == " " + w;
    assert " " + w + "" == " " + w;
    CleanMiddle(" ", w, "");
    NoOccurrenceJoin(x, w, NOHZ_KEY, ' ');
    NoOccurrenceJoin(x, w, RCU_KEY, ' ');
    assert x + [' '] + w == x + (" " + w);
  }

  lemma CleanRest(cstate: string, d: string)
    requires Clean(cstate) && Clean(d)
    ensures Clean(cstate + SOFT + (" " + d))
  {
    KeyFacts();
    OtherSoft();
    SkipWord(cstate, SOFT, NOHZ_KEY, ' ');
    SkipWord(cstate, SOFT, RCU_KEY, ' ');
    JoinTail(cstate + SOFT, d, NOHZ_KEY);
    JoinTail(cstate + SOFT, d, RCU_KEY);
  }

  lemma BootText(
    root: string, b: string, params: string, d: string, i: string, n: string, r: string, c: string, e: string)
    requires " " + params == i + n + r + c + e
    ensures root + (" " + (b + (" " + params))) + (" " + d) == root + (" " + b) + i + n + r + (c + e + (" " + d))
  {
    var p := " " + params;
    Assoc3(" ", b, p);
    Assoc3(root, " " + b, p);
    var x := root + (" " + b);
    Assoc3(i + n, r, c + e);
    Assoc3(i + n + r, c, e);
    assert p == i + n + r + (c + e);
    Assoc3(x, i + n + r, c + e);
    Assoc3(x, i + n, r);
    Assoc3(x, i, n);
    Assoc3(x + i + n + r, c + e, " " + d);
  }

  /**
   After an apply that rewrites the file, the next boot shows nohz_full and rcu_nocbs as requested, each
   once or not at all, and isolcpus with the core list.
   */
  lemma AppliedBoot(root: string, file: File, cfg: GrubConfig)
    requires FileOk(file) && Clean(root) && Intact(cfg) && cfg.cores != []
    ensures ShowsOnly(BootArgs(root, ApplyText(file, cfg)), Requested(cfg))
    ensures ISOL + CoreList(cfg.cores) in Chunks(BootArgs(root, ApplyText(file, cfg)))
    ensures Contains(BootArgs(root, ApplyText(file, cfg)), "isolcpus=")
    ensures Contains(BootArgs(root, ApplyText(file, cfg)), CoreList(cfg.cores))
  {
    var k := AppliedLinux(file, cfg);
    var body := AppliedDefault(file, cfg);
    AppliedArgs(root, StripAll(BodyOf(file[k], ASSIGN)), StripAll(body), cfg);
  }

  lemma AppliedShows(x: string, d: string, cfg: GrubConfig)
    requires Clean(x) && Clean(d) && cfg.cores != []
    ensures ShowsOnly(x + (ISOL + CoreList(cfg.cores)) + NohzPart(cfg) + RcuPart(cfg) +
                      (CstatePart(cfg) + SOFT + (" " + d)), Requested(cfg))
  {
    var cores := CoreList(cfg.cores);
    WrittenParts(cfg);
    NoEquals(cfg.cores);
    ShortListSafe(cfg);
    CleanHead(x, cores);
    DecPlain(if cfg.maxCstate >= 0 then cfg.maxCstate else 0);
    OtherCstate(Dec(if cfg.maxCstate >= 0 then cfg.maxCstate else 0));
    CleanRest(CstatePart(cfg), d);
    TwoShown(x + (ISOL + cores), Requested(cfg), CstatePart(cfg) + SOFT + (" " + d));
  }

  lemma AppliedArgs(root: string, b: string, d: string, cfg: GrubConfig)
    requires Clean(root) && Clean(b) && Clean(d) && Intact(cfg) && cfg.cores != []
    ensures var s := root + (" " + (b + (" " + Params(cfg)))) + (" " + d);
            ShowsOnly(s, Requested(cfg)) && ISOL + CoreList(cfg.cores) in Chunks(s) &&
            Contains(s, "isolcpus=") && Contains(s, CoreList(cfg.cores))
  {
    var x, c := root + (" " + b), CstatePart(cfg);
    var cores := CoreList(cfg.cores);
    KeyFacts();
    JoinTail(root, b, NOHZ_KEY);
    JoinTail(root, b, RCU_KEY);
    ParamParts(cfg);
    BootText(root, b, Params(cfg), d, ISOL + cores, NohzPart(cfg), RcuPart(cfg), c, SOFT);
    AppliedShows(x, d, cfg);
    CoresSafe(cfg.cores);
    Mentions(x, cores, NohzPart(cfg), RcuPart(cfg), c + SOFT + (" " + d));
    SpacedParts(cfg);
    TokenAmong(x, ISOL + cores, NohzPart(cfg), RcuPart(cfg), c + SOFT + (" " + d));
  }

  lemma SpacedParts(cfg: GrubConfig)
    ensures Chunk(ISOL + CoreList(cfg.cores)) && (ISOL + CoreList(cfg.cores))[0] == ' '
    ensures NohzPart(cfg) == "" || NohzPart(cfg)[0] == ' '
    ensures RcuPart(cfg) == "" || RcuPart(cfg)[0] == ' '
    ensures CstatePart(cfg) != "" && CstatePart(cfg)[0] == ' '
  {
    PartShapes(cfg);
  }

  lemma TokenAmong(x: string, i: string, n: string, r: string, rest: string)
    requires Chunk(i) && i[0] == ' ' && (n == "" || n[0] == ' ') && (r == "" || r[0] == ' ')
    requires rest == "" || rest[0] == ' '
    ensures i in Chunks(x + i + n + r + rest)
  {
    SingleChunk(i);
    ChunksConcat(x, i);
    ChunksConcat(x + i, n);
    ChunksConcat(x + i + n, r);
    ChunksConcat(x + i + n + r, rest);
  }

  lemma ParamParts(cfg: GrubConfig)
    requires Intact(cfg)
    ensures " " + Params(cfg) == ISOL + CoreList(cfg.cores) + NohzPart(cfg) + RcuPart(cfg) + CstatePart(cfg) + SOFT
  {
    Shift(" ", "isolcpus=", CoreList(cfg.cores), NohzPart(cfg), RcuPart(cfg), CstatePart(cfg), SOFT);
    IsolationPattern();
  }

  lemma Mentions(x: string, cores: string, n: string, r: string, rest: string)
    ensures var s := x + (ISOL + cores) + n + r + rest;
            Contains(s, "isolcpus=") && (cores != "" ==> Contains(s, cores))
  {
    var s := x + (ISOL + cores) + n + r + rest;
    var w := "isolcpus=";
    IsolationPattern();
    assert s == (x + " ") + w + (cores + n + r + rest);
    assert s == (x + ISOL) + cores + (n + r + rest);
    assert w <= w && cores <= cores;
    ContainsPart(x + " ", w, cores + n + r + rest, w);
    if cores != "" {
      ContainsPart(x + ISOL, cores, n + r + rest, cores);
    }
  }

  // ---- Which values an apply saves ----------------------------------------------

  /** The command line fits the buffer of the extractor and its two values can be written as JSON strings. */
  predicate Extractable(cmdline: string) {
    |cmdline| <= 2047 && QuoteFree(ShownBy(cmdline).nohz) && QuoteFree(ShownBy(cmdline).rcu)
  }

  lemma SavedFromCmdline(s: State, original: Baseline, cfg: GrubConfig, regen: bool)
    requires Inv(s, original) && s.baseline.None? && cfg.cores != [] && Extractable(s.cmdline)
    ensures var t := SetupGrub(s, cfg, true, regen);
            t.baseline.Some? && ReadBaseline(t.baseline.value) == Kept(ShownBy(s.cmdline))
    ensures Kept(ShownBy(s.boot)) == Kept(original)
  {
    assert Extracted(s.cmdline) == Cut(ShownBy(s.cmdline));
    KeptIsRead(ShownBy(s.cmdline));
    KeptIsSafe(original);
    FirstBaseline(s, cfg, regen);
  }

  /**
   The baseline is promised never to come from a state benchmon made. In every legal run, an apply that
   takes a baseline takes the original one if and only if the running command line shows the same two
   values as the boot configuration, as far as the file can hold them; so it does after every reboot.
   */
  lemma NextBaselineIsOriginal(s: State, steps: seq<Step>, cfg: GrubConfig, regen: bool)
    requires Untouched(s) && Legal(s, steps) && Run(s, steps).baseline.None?
    requires cfg.cores != [] && Extractable(Run(s, steps).cmdline)
    ensures var t := Run(s, steps);
            var u := SetupGrub(t, cfg, true, regen);
            u.baseline.Some? &&
            (ReadBaseline(u.baseline.value) == Kept(Original(s)) <==>
             Kept(ShownBy(t.cmdline)) == Kept(ShownBy(t.boot))) &&
            (FitsFile(ShownBy(t.cmdline)) && FitsFile(ShownBy(t.boot)) ==>
             (ReadBaseline(u.baseline.value) == Kept(Original(s)) <==> ShownBy(t.cmdline) == ShownBy(t.boot)))
  {
    BaselineIsOriginal(s, steps);
    SavedFromCmdline(Run(s, steps), Original(s), cfg, regen);
  }

  /** The state after an apply that regenerates grub.cfg, and a reboot. */
  function AppliedAndBooted(s: State, cfg: GrubConfig, writable: bool): State {
    var t := SetupGrub(s, cfg, writable, true);
    t.(cmdline := t.boot)
  }

  /**
   Why the reboot is needed: apply, reboot, teardown and apply again without a reboot saves the values of
   the first apply as the new baseline, unless that found itself active and wrote nothing. So this is the
   original baseline if and only if the first apply found itself active or requested the original values.
   */
  lemma WithoutRebootBaselineIsLost(s: State, a: GrubConfig, b: GrubConfig, regen: bool)
    requires Untouched(s) && Intact(a) && a.cores != [] && b.cores != [] && |s.cmdline| <= 2047
    requires |BootArgs(s.root, ApplyText(s.file, a))| <= 2047
    ensures var t := SetupGrub(RestoreGrub(AppliedAndBooted(s, a, true), true), b, true, regen);
            t.baseline.Some? &&
            ReadBaseline(t.baseline.value) ==
              (if AlreadyActive(Seen(s.cmdline), a) then Kept(Original(s)) else Requested(a)) &&
            (ReadBaseline(t.baseline.value) == Kept(Original(s)) <==>
             AlreadyActive(Seen(s.cmdline), a) || Requested(a) == Kept(Original(s)))
  {
    var s2 := AppliedAndBooted(s, a, true);
    var s3 := RestoreGrub(s2, true);
    TeardownFrame(s2);
    FirstBaseline(s3, b, regen);
    RequestedValues(a);
    if AlreadyActive(Seen(s.cmdline), a) {
      ActiveApply(s, a, true);
      SavedIsOriginal(s3, Original(s));
    } else {
      RewritingApply(s, a, true);
      AppliedBoot(s.root, s.file, a);
      SavedIsOriginal(s3, Requested(a));
    }
  }

  lemma RewritingApply(s: State, cfg: GrubConfig, writable: bool)
    requires s.present && cfg.cores != [] && !AlreadyActive(Seen(s.cmdline), cfg)
    ensures SetupGrub(s, cfg, writable, true) ==
            SaveBaseline(s, writable).(
              file := ApplyText(s.file, cfg), boot := BootArgs(s.root, ApplyText(s.file, cfg)))
  {
  }

  lemma ActiveApply(s: State, cfg: GrubConfig, writable: bool)
    requires s.present && cfg.cores != [] && AlreadyActive(Seen(s.cmdline), cfg)
    ensures SetupGrub(s, cfg, writable, true) == SaveBaseline(s, writable).(file := OnLines(StripBoot, s.file))
  {
  }

  lemma TeardownFrame(s: State)
    ensures var t := RestoreGrub(s, true); t.cmdline == s.cmdline && t.baseline.None?
  {
  }

  lemma FirstBaseline(s: State, cfg: GrubConfig, regen: bool)
    requires s.baseline.None? && cfg.cores != []
    ensures SetupGrub(s, cfg, true, regen).baseline == Some(BaselineText(Extracted(s.cmdline)))
  {
  }

  // ---- Applying twice -------------------------------------------------------------

  /** Once the applied parameters have been booted, the same apply finds them active. */
  lemma BootedIsActive(boot: string, cfg: GrubConfig)
    requires ShowsOnly(boot, Requested(cfg)) && cfg.cores != [] && |boot| <= 2047
    requires Contains(boot, "isolcpus=") && Contains(boot, CoreList(cfg.cores))
    ensures AlreadyActive(Seen(boot), cfg)
  {
    CoresSafe(cfg.cores);
  }

  lemma OtherTokens(u: string, v: string)
    ensures !(NOHZ <= ISOL + u) && !(RCU <= ISOL + u) && !(NOHZ <= CSTATE + v) && !(RCU <= CSTATE + v)
    ensures !(NOHZ <= SOFT) && !(RCU <= SOFT)
  {
    assert (ISOL + u)[1] == 'i' && (CSTATE + v)[1] == 'p' && SOFT[3] == 's';
  }

  lemma InjectedToken(line: string, cfg: GrubConfig, c: string)
    requires Injectable(line) && Intact(cfg) && c in ParamTokens(cfg)
    ensures c in Chunks(Inject(line, Params(cfg)))
  {
    var a, q := InjectShape(line, Params(cfg));
    ParamChunks(cfg);
  }

  lemma InjectableSplit(line: string)
    requires WellQuoted(line, ASSIGN)
    ensures Injectable(line)
  {
    var body, tail := BodyOf(line, ASSIGN), TailOf(line, ASSIGN);
    OpenIsAssign();
    Assoc3(ASSIGN, "\"", body);
    Assoc3(OPEN, body, "\"" + tail);
    assert line[|OPEN|..] == body + ("\"" + tail);
    LastQuoteAt(body, tail);
  }

  // ---- The already-active test for another configuration ----------------------------

  lemma KeyShown(boot: string, b: Baseline)
    requires ShowsOnly(boot, b)
    ensures Contains(boot, NOHZ_KEY) ==> b.nohz != ""
    ensures b.nohz != "" ==> Contains(boot, NOHZ_KEY)
    ensures Contains(boot, RCU_KEY) ==> b.rcu != ""
    ensures b.rcu != "" ==> Contains(boot, RCU_KEY)
  {
  }

  lemma RequestedValues(cfg: GrubConfig)
    requires cfg.cores != []
    ensures SafeBaseline(Requested(cfg)) && Kept(Requested(cfg)) == Requested(cfg)
    ensures (Requested(cfg).nohz != "" <==> cfg.nohz) && (Requested(cfg).rcu != "" <==> cfg.rcu)
  {
    ShortListSafe(cfg);
  }

  lemma ActiveByKeys(boot: string, a: GrubConfig, b: GrubConfig)
    requires |boot| <= 2047 && Contains(boot, "isolcpus=")
    requires (Contains(boot, NOHZ_KEY) <==> a.nohz) && (Contains(boot, RCU_KEY) <==> a.rcu)
    ensures AlreadyActive(Seen(boot), b) <==>
            Contains(boot, CoreList(b.cores)) && (b.nohz ==> a.nohz) && (b.rcu ==> a.rcu)
  {
  }

  /**
   The test looks for the core list anywhere in the command line. On a kernel booted with one
   configuration it takes another one for active if and only if the other core list occurs somewhere in
   the command line, if only as a part of a longer list, and its toggles were requested too.
   */
  lemma ActiveForAnother(root: string, file: File, a: GrubConfig, b: GrubConfig)
    requires FileOk(file) && Clean(root) && Intact(a) && a.cores != []
    requires |BootArgs(root, ApplyText(file, a))| <= 2047
    ensures var boot := BootArgs(root, ApplyText(file, a));
            AlreadyActive(Seen(boot), b) <==>
            Contains(boot, CoreList(b.cores)) && (b.nohz ==> a.nohz) && (b.rcu ==> a.rcu)
    ensures Contains(CoreList(a.cores), CoreList(b.cores)) && CoreList(b.cores) != "" ==>
              Contains(BootArgs(root, ApplyText(file, a)), CoreList(b.cores))
  {
    var boot := BootArgs(root, ApplyText(file, a));
    AppliedBoot(root, file, a);
    RequestedValues(a);
    KeyShown(boot, Requested(a));
    ActiveByKeys(boot, a, b);
    if Contains(CoreList(a.cores), CoreList(b.cores)) && CoreList(b.cores) != "" {
      PartOfPart(boot, CoreList(a.cores), CoreList(b.cores));
    }
  }

  /** A part of a part is a part. */
  lemma PartOfPart(s: string, x: string, n: string)
    requires n != "" && Contains(s, x) && Contains(x, n)
    ensures Contains(s, n)
  {
    AfterIsFirst(s, x);
    var i :| 0 <= i <= |s| && x <= s[i..];
    var rest := s[i..][|x|..];
    assert s == s[..i] + x + rest;
    ContainsPart(s[..i], x, rest, n);
  }

  lemma ApplyTextAt(file: File, cfg: GrubConfig)
    requires FileOk(file)
    ensures |ApplyText(file, cfg)| == |file|
    ensures forall i :: 0 <= i < |file| ==> ApplyText(file, cfg)[i] == Inject(StripFive(file[i]), Params(cfg))
  {
    GrepUnaffected(file);
  }

  lemma InjectKeepsChunks(line: string, add: string, c: string)
    requires c in Chunks(line)
    ensures c in Chunks(Inject(line, add))
  {
    if Injectable(line) {
      var a, q := InjectShape(line, add);
    }
  }

  lemma BootStripKeepsOthers(line: string, c: string)
    requires c in Chunks(line) && !(NOHZ <= c) && !(RCU <= c)
    ensures c in Chunks(StripBoot(line))
  {
    CleanByChunks(line);
    WithoutMember(Chunks(line), NOHZ);
    WithoutMember(Without(Chunks(line), NOHZ), RCU);
  }

  /**
   Teardown is documented to restore GRUB to its exact state before benchmon. It restores nohz_full and
   rcu_nocbs only: the isolcpus token of an apply is still in the file afterwards, whatever was saved.
   */
  lemma TeardownKeepsIsolation(file: File, cfg: GrubConfig, b: Baseline) returns (k: nat)
    requires FileOk(file) && Intact(cfg)
    ensures k < |file| && ISOL + CoreList(cfg.cores) in Chunks(Restored(ApplyText(file, cfg), b)[k])
  {
    k :| 0 <= k < |file| && ASSIGN <= file[k];
    var token := ISOL + CoreList(cfg.cores);
    var once := Inject(StripFive(file[k]), Params(cfg));
    ApplyTextAt(file, cfg);
    StripFiveEdits(file[k]);
    InjectableSplit(StripFive(file[k]));
    assert token in ParamTokens(cfg);
    InjectedToken(StripFive(file[k]), cfg, token);
    OtherTokens(CoreList(cfg.cores), "");
    BootStripKeepsOthers(once, token);
    SavedKeepsChunks(StripBoot(once), NOHZ_KEY, b.nohz, token);
    SavedKeepsChunks(InjectSaved(StripBoot(once), NOHZ_KEY, b.nohz), RCU_KEY, b.rcu, token);
  }

  lemma SavedKeepsChunks(line: string, key: string, value: string, c: string)
    requires c in Chunks(line)
    ensures c in Chunks(InjectSaved(line, key, value))
  {
    InjectKeepsChunks(line, key + value, c);
  }

  /** A file stripped of both parameters and not written again boots without them. */
  lemma StrippedBoot(root: string, file: File)
    requires FileOk(file) && Clean(root)
    ensures ShowsOnly(BootArgs(root, OnLines(StripBoot, file)), Baseline("", ""))
  {
    var none := Baseline("", "");
    assert OnLines(StripBoot, file) == Restored(file, none);
    RestoredBoot(root, file, none);
  }
}
