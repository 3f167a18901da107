/** The same apply once more: exactly when the second one changes nothing. */
module GrubRepeat {
  import opened SedScripts
  import opened Grub
  import opened GrubEdits
  import opened GrubBoot
  import opened GrubMachine
  import opened GrubRuns
  import opened GrubTheorems
  import opened GrubLimits
  import opened GrubNames
  import opened GrubReversal
  import opened GrubShown

  // ---- Files an apply leaves as they are ---------------------------------------

  /** The file reads as this apply leaves it. */
  predicate Applied(file: File, cfg: GrubConfig) {
    HasCmdline(file) && forall i :: 0 <= i < |file| ==> LineApplied(file[i], cfg)
  }

  /** No token of the five parameters in reach, but for exactly the injected text at the end of the value. */
  predicate LineApplied(line: string, cfg: GrubConfig) {
    if Injectable(line) then EndsWith(Inside(line), " " + Params(cfg)) && NoneOurs(Behind(line)) else NoneOurs(line)
  }

  lemma ParamsAreOurs(cfg: GrubConfig)
    requires Intact(cfg)
    ensures forall c :: c in Chunks(" " + Params(cfg)) ==> Ours(c)
  {
    ParamChunks(cfg);
    ParamTokenShapes(cfg);
  }

  lemma InjectedLine(line: string, body: string, tail: string, cfg: GrubConfig)
    requires Assigns(line, ASSIGN, body, tail) && Intact(cfg)
    ensures var out := Inject(line, Params(cfg));
            Injectable(out) && Inside(out) == body + (" " + Params(cfg)) && Behind(out) == tail
  {
    ParamsQuoteFree(cfg);
    InjectQuoted(line, body, tail, Params(cfg));
    InsideIsUnique(Inject(line, Params(cfg)), body + (" " + Params(cfg)), tail);
  }

  lemma ValueLine(line: string, cfg: GrubConfig)
    requires Injectable(line) && Whole(line, SOFT) && Intact(cfg)
    ensures Inject(StripFive(line), Params(cfg)) == line <==> LineApplied(line, cfg)
  {
    Names();
    var body, tail := Inside(line), Behind(line);
    QuotedInside(line);
    StripAllQuoted(line, ASSIGN, body, tail);
    InjectedLine(StripFive(line), StripAll(body), StripAll(tail), cfg);
    SameInside(line, Inject(StripFive(line), Params(cfg)));
    StripAllFixed(tail);
    ParamsAreOurs(cfg);
    SameBody(body, " " + Params(cfg));
  }

  lemma PlainLine(line: string, cfg: GrubConfig)
    requires !Injectable(line) && Whole(line, SOFT) && Intact(cfg)
    ensures Inject(StripFive(line), Params(cfg)) == line <==> LineApplied(line, cfg)
  {
    var out := StripFive(line);
    StripAllLine(line);
    StripAllFixed(line);
    if Injectable(out) {
      QuotedInside(out);
      InjectedLine(out, Inside(out), Behind(out), cfg);
    }
  }

  lemma OneLineApplied(line: string, cfg: GrubConfig)
    requires Whole(line, SOFT) && Intact(cfg)
    ensures Inject(StripFive(line), Params(cfg)) == line <==> LineApplied(line, cfg)
  {
    if Injectable(line) {
      ValueLine(line, cfg);
    } else {
      PlainLine(line, cfg);
    }
  }

  /** An apply that rewrites the file leaves it as it is if and only if it already reads so. */
  lemma ApplyFixed(file: File, cfg: GrubConfig)
    requires WholeFile(file) && Intact(cfg)
    ensures ApplyText(file, cfg) == file <==> Applied(file, cfg)
  {
    GrepUnaffected(file);
    if HasCmdline(file) {
      forall i | 0 <= i < |file|
        ensures Inject(StripFive(file[i]), Params(cfg)) == file[i] <==> LineApplied(file[i], cfg)
      {
        OneLineApplied(file[i], cfg);
      }
      LineByLine(file, ApplyText(file, cfg), cfg);
    }
  }

  lemma LineByLine(file: File, out: File, cfg: GrubConfig)
    requires |out| == |file| && forall i :: 0 <= i < |file| ==> (out[i] == file[i] <==> LineApplied(file[i], cfg))
    ensures out == file <==> forall i :: 0 <= i < |file| ==> LineApplied(file[i], cfg)
  {
    if forall i :: 0 <= i < |file| ==> LineApplied(file[i], cfg) {
      assert forall i :: 0 <= i < |file| ==> out[i] == file[i];
    }
    if out == file {
      assert forall i :: 0 <= i < |file| ==> out[i] == file[i];
    }
  }

  // ---- Files the first two scripts leave as they are ------------------------------

  predicate TogglesOff(cfg: GrubConfig) {
    !cfg.nohz && !cfg.rcu
  }

  lemma FiveTokens(a: string, b: seq<string>, c: seq<string>, d: string, e: string)
    requires NoneBoot([a] + [d] + [e])
    requires (forall t :: t in b ==> NOHZ <= t) && (forall t :: t in c ==> RCU <= t)
    ensures NoneBoot([a] + b + c + [d] + [e]) <==> b == [] && c == []
  {
    var ts := [a] + b + c + [d] + [e];
    assert forall t :: t in ts <==> t in [a] + [d] + [e] || t in b || t in c;
    if b != [] { assert b[0] in b && b[0] in ts; }
    if c != [] { assert c[0] in c && c[0] in ts; }
  }

  lemma BootTokens(cfg: GrubConfig)
    ensures NoneBoot(ParamTokens(cfg)) <==> TogglesOff(cfg)
  {
    KeptTokens(cfg);
    FiveTokens(ISOL + CoreList(cfg.cores), Optional(NohzPart(cfg)), Optional(RcuPart(cfg)), CstatePart(cfg), SOFT);
    PartPrefix(NOHZ, CoreList(cfg.cores));
    PartPrefix(RCU, CoreList(cfg.cores));
  }

  /** A written line is stripped by the next apply iff something was injected and a toggle was on. */
  lemma WrittenLine(line: string, cfg: GrubConfig)
    requires Whole(line, SOFT) && Intact(cfg)
    ensures NoneBoot(Chunks(StripFive(line)))
    ensures var once := Inject(StripFive(line), Params(cfg));
            StripBoot(once) == once <==> !Injectable(StripFive(line)) || TogglesOff(cfg)
  {
    var l := StripFive(line);
    FiveAreGone(line);
    StripBootOnly(Inject(l, Params(cfg)));
    if Injectable(l) {
      var a, q := InjectShape(l, Params(cfg));
      ParamChunks(cfg);
      BootTokens(cfg);
      NoneBootJoin(a, q);
      NoneBootJoin(a, ParamTokens(cfg));
      NoneBootJoin(a + ParamTokens(cfg), q);
    }
  }

  lemma FirstToken(cfg: GrubConfig)
    ensures ParamTokens(cfg)[0] == ISOL + CoreList(cfg.cores) && NoneBoot([ParamTokens(cfg)[0]])
  {
    KeptTokens(cfg);
    var t := ISOL + CoreList(cfg.cores);
    assert t in [t] + [CstatePart(cfg)] + [SOFT];
  }

  lemma NoneBootQuoted(assign: string, first: string, rest: seq<string>, q: string, ts: seq<string>)
    requires !Ours(assign) && !Ours(first) && !Ours(q) && ts != [] && NoneBoot([ts[0]]) && rest == ts[1..]
    ensures NoneBoot([assign] + [first] + rest + [q]) <==> NoneBoot(ts)
  {
    NoneBootJoin([assign] + [first], rest);
    NoneBootJoin([assign] + [first] + rest, [q]);
    NoneBootJoin([ts[0]], rest);
    assert ts == [ts[0]] + rest;
  }

  lemma AppendedLine(cfg: GrubConfig)
    requires Intact(cfg)
    ensures StripBoot(OwnLine(cfg)) == OwnLine(cfg) <==> TogglesOff(cfg)
  {
    var first, rest := OwnLineChunks(cfg);
    StripBootOnly(OwnLine(cfg));
    BootTokens(cfg);
    FirstToken(cfg);
    NotOurs(ASSIGN);
    NotOurs(first);
    NotOurs("\"");
    NoneBootQuoted(ASSIGN, first, rest, "\"", ParamTokens(cfg));
  }

  lemma StrippedSame(file: File)
    ensures OnLines(StripBoot, file) == file <==> forall i :: 0 <= i < |file| ==> StripBoot(file[i]) == file[i]
  {
    var out := OnLines(StripBoot, file);
    if out == file {
      assert forall i :: 0 <= i < |file| ==> out[i] == file[i];
    }
  }

  lemma WrittenInto(file: File, cfg: GrubConfig)
    requires WholeFile(file) && Intact(cfg) && HasCmdline(file)
    ensures var once := ApplyText(file, cfg);
            OnLines(StripBoot, once) == once <==> InjectableLines(file) == 0 || TogglesOff(cfg)
  {
    var once := ApplyText(file, cfg);
    GrepUnaffected(file);
    StrippedSame(once);
    NoInjectableLine(file);
    forall i | 0 <= i < |file|
      ensures StripBoot(once[i]) == once[i] <==> !Injectable(StripFive(file[i])) || TogglesOff(cfg)
    {
      WrittenLine(file[i], cfg);
    }
    if i :| 0 <= i < |file| && Injectable(StripFive(file[i])) {
      assert StripBoot(once[i]) == once[i] <==> TogglesOff(cfg);
    }
  }

  lemma WrittenBehind(file: File, cfg: GrubConfig)
    requires WholeFile(file) && Intact(cfg) && !HasCmdline(file)
    ensures var once := ApplyText(file, cfg);
            OnLines(StripBoot, once) == once <==> TogglesOff(cfg)
  {
    var out, own := OnLines(StripFive, file), OwnLine(cfg);
    var once := ApplyText(file, cfg);
    GrepUnaffected(file);
    assert once == out + [own] && once[|file|] == own;
    StrippedSame(once);
    AppendedLine(cfg);
    forall i | 0 <= i < |file| ensures StripBoot(once[i]) == once[i] {
      WrittenLine(file[i], cfg);
      StripBootOnly(StripFive(file[i]));
    }
  }

  /** What an apply wrote survives the two scripts of the next one iff it wrote neither parameter. */
  lemma WrittenSurvives(file: File, cfg: GrubConfig)
    requires WholeFile(file) && Intact(cfg)
    ensures var once := ApplyText(file, cfg);
            OnLines(StripBoot, once) == once <==> Places(file) == 0 || TogglesOff(cfg)
  {
    if HasCmdline(file) {
      WrittenInto(file, cfg);
    } else {
      WrittenBehind(file, cfg);
    }
  }

  lemma StripBootWhole(file: File)
    requires WholeFile(file)
    ensures var out := OnLines(StripBoot, file); WholeFile(out) && OnLines(StripBoot, out) == out
  {
    var out := OnLines(StripBoot, file);
    forall i | 0 <= i < |file| ensures Whole(out[i], SOFT) && StripBoot(out[i]) == out[i] {
      CleanByChunks(file[i]);
      WithoutMember(Chunks(file[i]), NOHZ);
      WithoutMember(Without(Chunks(file[i]), NOHZ), RCU);
      StripBootOnly(file[i]);
    }
    StrippedSame(out);
  }

  // ---- The same apply again ----------------------------------------------------------

  /**
   When the same apply, on a kernel with this command line, leaves the file of the first one alone: what
   counts is whether each of the two finds itself active.
   */
  predicate Repeats(s: State, cfg: GrubConfig, cmdline: string) {
    var first, second := AlreadyActive(Seen(s.cmdline), cfg), AlreadyActive(Seen(cmdline), cfg);
    if cfg.cores == [] || !s.present then true
    else if !first && !second then HasCmdline(s.file)
    else if !first then TogglesOff(cfg) || Places(s.file) == 0
    else second || Applied(OnLines(StripBoot, s.file), cfg)
  }

  lemma RepeatedActive(s: State, cfg: GrubConfig, cmdline: string)
    requires WholeFile(s.file) && Intact(cfg) && AlreadyActive(Seen(s.cmdline), cfg) && s.present && cfg.cores != []
    ensures var stripped := OnLines(StripBoot, s.file);
            var again := if AlreadyActive(Seen(cmdline), cfg) then OnLines(StripBoot, stripped)
                         else ApplyText(stripped, cfg);
            again == stripped <==> Repeats(s, cfg, cmdline)
  {
    StripBootWhole(s.file);
    ApplyFixed(OnLines(StripBoot, s.file), cfg);
  }

  lemma RepeatedRewrite(s: State, cfg: GrubConfig, cmdline: string)
    requires WholeFile(s.file) && Intact(cfg) && !AlreadyActive(Seen(s.cmdline), cfg) && s.present && cfg.cores != []
    ensures var once := ApplyText(s.file, cfg);
            var again := if AlreadyActive(Seen(cmdline), cfg) then OnLines(StripBoot, once) else ApplyText(once, cfg);
            again == once <==> Repeats(s, cfg, cmdline)
  {
    WrittenSurvives(s.file, cfg);
    SecondApplyWinsExactly(s.file, cfg, cfg);
  }

  /**
   setup.c calls each sub-step idempotent. For GRUB, in every state with whole ` nosoftlockup` tokens and
   whatever the kernel shows when the apply is repeated, the file stays as it is exactly in the cases of
   `Repeats`.
   */
  lemma RepeatedApply(
    s: State, cfg: GrubConfig, writable: bool, regen: bool, cmdline: string, again: bool, regenAgain: bool)
    requires WholeFile(s.file) && Intact(cfg)
    ensures var once := SetupGrub(s, cfg, writable, regen).(cmdline := cmdline);
            SetupGrub(once, cfg, again, regenAgain).file == once.file <==> Repeats(s, cfg, cmdline)
  {
    var once := SetupGrub(s, cfg, writable, regen).(cmdline := cmdline);
    FileAfter(s, cfg, writable, regen);
    FileAfter(once, cfg, again, regenAgain);
    if cfg.cores != [] && s.present {
      if AlreadyActive(Seen(s.cmdline), cfg) {
        RepeatedActive(s, cfg, cmdline);
      } else {
        RepeatedRewrite(s, cfg, cmdline);
      }
    }
  }

  /** Repeated at once the apply makes the same choice, so only a file without the line can change. */
  lemma ReapplyAtOnce(
    s: State, cfg: GrubConfig, writable: bool, regen: bool, again: bool, regenAgain: bool)
    requires WholeFile(s.file) && Intact(cfg)
    ensures var once := SetupGrub(s, cfg, writable, regen);
            SetupGrub(once, cfg, again, regenAgain).file == once.file <==>
            cfg.cores == [] || !s.present || AlreadyActive(Seen(s.cmdline), cfg) || HasCmdline(s.file)
  {
    var once := SetupGrub(s, cfg, writable, regen);
    assert once.(cmdline := s.cmdline) == once;
    RepeatedApply(s, cfg, writable, regen, s.cmdline, again, regenAgain);
  }

  lemma OkIsWhole(file: File)
    requires FileOk(file)
    ensures WholeFile(file) && HasCmdline(file) && Places(file) == 1
  {
    var k :| 0 <= k < |file| && ASSIGN <= file[k];
    InjectableSplit(file[k]);
    OnePlace(file, k);
  }

  /** The exact condition after a reboot, read off the two command lines and the file before the apply. */
  predicate RepeatsAfterReboot(s: State, cfg: GrubConfig, booted: string) {
    if !AlreadyActive(Seen(s.cmdline), cfg) then TogglesOff(cfg) || !AlreadyActive(Seen(booted), cfg)
    else AlreadyActive(Seen(booted), cfg) || Applied(OnLines(StripBoot, s.file), cfg)
  }

  /**
   Apply, reboot, apply again: the file stays as it is if and only if one of these holds. The first apply
   rewrote it, and no toggle is on or the second one does not find itself active. Or the first found itself
   active, and so does the second, or the stripped file already reads as this apply leaves it. An apply
   that rewrote the file is found active after the reboot unless the command line is cut at 2047.
   */
  lemma ReapplyAfterReboot(s: State, cfg: GrubConfig, writable: bool, again: bool)
    requires s.present && FileOk(s.file) && Clean(s.root) && Intact(cfg) && cfg.cores != []
    ensures var once := AppliedAndBooted(s, cfg, writable);
            var twice := SetupGrub(once, cfg, again, true);
            (twice.file == once.file <==> RepeatsAfterReboot(s, cfg, once.cmdline)) &&
            ShowsOnly(BootArgs(s.root, twice.file), Shown(cfg, AlreadyActive(Seen(once.cmdline), cfg)))
    ensures var once := AppliedAndBooted(s, cfg, writable);
            !AlreadyActive(Seen(s.cmdline), cfg) && |once.cmdline| <= 2047 ==> AlreadyActive(Seen(once.cmdline), cfg)
  {
    var t := SetupGrub(s, cfg, writable, true);
    var once := AppliedAndBooted(s, cfg, writable);
    OkIsWhole(s.file);
    RepeatedApply(s, cfg, writable, true, t.boot, again, true);
    BootedFrame(s, cfg, writable);
    FileBoots(s, cfg, writable, true);
    FileBoots(once, cfg, again, true);
    if !AlreadyActive(Seen(s.cmdline), cfg) && |once.cmdline| <= 2047 {
      AppliedBoot(s.root, s.file, cfg);
      BootedIsActive(once.cmdline, cfg);
    }
  }

  /** ...and so in every state of every legal run. */
  lemma ReapplyInRuns(s: State, steps: seq<Step>, cfg: GrubConfig, writable: bool, again: bool)
    requires Untouched(s) && Legal(s, steps) && Intact(cfg) && cfg.cores != []
    ensures var t := Run(s, steps);
            var once := AppliedAndBooted(t, cfg, writable);
            SetupGrub(once, cfg, again, true).file == once.file <==> RepeatsAfterReboot(t, cfg, once.cmdline)
  {
    BaselineIsOriginal(s, steps);
    ReapplyAfterReboot(Run(s, steps), cfg, writable, again);
  }
}
