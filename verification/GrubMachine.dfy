/** apply, teardown and reboot as setup.c runs them, on the GRUB file, the boot configuration and the baseline. */
module GrubMachine {
  import opened Text
  import opened JsonText
  import opened SedScripts
  import opened Grub
  import opened GrubBoot
  import opened GrubBaseline
  import opened GrubEdits
  import opened GrubValues

  /**
   `root` is the fixed part of every command line, `boot` the command line grub.cfg gives to the next
   boot, `cmdline` the one of the running kernel and `baseline` the text of grub_preconfig.json.
   */
  datatype State = State(present: bool, file: File, root: string, boot: string, cmdline: string,
                         baseline: Option<string>)

  datatype Step =
    | Apply(cfg: GrubConfig, writable: bool, regen: bool)  // benchmon_setup; see SetupGrub
    | Teardown(regen: bool)                                // benchmon_teardown
    | Reboot
    | Regenerate                                           // update-grub run by somebody else

  // ---- The steps on values -------------------------------------------------

  /** The values a command line shows. */
  function ShownBy(cmdline: string): Baseline {
    Baseline(FullValue(cmdline, NOHZ_KEY), FullValue(cmdline, RCU_KEY))
  }

  function Extracted(cmdline: string): Baseline {
    Cut(ShownBy(Seen(cmdline)))
  }

  /** A command line is seen up to its 2047th character, whole when it has no more. */
  lemma SeenExactly(cmdline: string, more: string)
    ensures |cmdline| <= 2047 ==> Extracted(cmdline) == Cut(ShownBy(cmdline))
    ensures |cmdline| == 2047 ==> Extracted(cmdline + more) == Extracted(cmdline)
    ensures forall cfg :: |cmdline| == 2047 ==> AlreadyActive(Seen(cmdline + more), cfg) == AlreadyActive(cmdline, cfg)
  {
    if |cmdline| == 2047 {
      assert Seen(cmdline + more) == cmdline == Seen(cmdline);
    }
  }

  /** setup.c:79-108; `writable`: the file could be created, a failure goes unnoticed. */
  function SaveBaseline(s: State, writable: bool): State {
    if s.baseline.Some? || !writable then s else s.(baseline := Some(BaselineText(Extracted(s.cmdline))))
  }

  /** setup.c:257-263: the running kernel already shows every requested parameter. */
  predicate AlreadyActive(cmdline: string, cfg: GrubConfig) {
    var cores := CoreList(cfg.cores);
    && (Contains(cmdline, "isolcpus=") && Contains(cmdline, cores))
    && (!cfg.nohz || (Contains(cmdline, NOHZ_KEY) && Contains(cmdline, cores)))
    && (!cfg.rcu || (Contains(cmdline, RCU_KEY) && Contains(cmdline, cores)))
  }

  function Regenerated(s: State, ok: bool): State {
    if ok then s.(boot := BootArgs(s.root, s.file)) else s
  }

  /** setup.c:206-304; `writable`: the baseline file could be created, `regen`: update-grub succeeded. */
  function SetupGrub(s: State, cfg: GrubConfig, writable: bool, regen: bool): State {
    if cfg.cores == [] then s
    else
      var saved := SaveBaseline(s, writable);
      if !s.present then saved
      else if AlreadyActive(Seen(s.cmdline), cfg) then saved.(file := OnLines(StripBoot, s.file))
      else Regenerated(saved.(file := ApplyText(s.file, cfg)), regen)
  }

  /** What an apply can do to each part of the state. */
  lemma SetupCases(s: State, cfg: GrubConfig, writable: bool, regen: bool)
    ensures var t := SetupGrub(s, cfg, writable, regen);
            t.present == s.present && t.root == s.root &&
            (t.file == s.file || t.file == OnLines(StripBoot, s.file) || t.file == ApplyText(s.file, cfg))
    ensures cfg.cores != [] ==> SetupGrub(s, cfg, writable, regen).baseline == SaveBaseline(s, writable).baseline
    ensures cfg.cores == [] ==> SetupGrub(s, cfg, writable, regen) == s
  {
  }

  /** The re-injection of one saved value: nothing when it was absent (setup.c:174-191). */
  function InjectSaved(line: string, key: string, value: string): string {
    if value == "" then line else Inject(line, key + value)
  }

  function RestoreLine(line: string, b: Baseline): string {
    InjectSaved(InjectSaved(StripBoot(line), NOHZ_KEY, b.nohz), RCU_KEY, b.rcu)
  }

  function Restored(file: File, b: Baseline): File {
    OnLines(l => RestoreLine(l, b), file)
  }

  /** setup.c:145-200. */
  function RestoreGrub(s: State, regen: bool): State {
    match s.baseline
    case None => s
    case Some(text) =>
      if !s.present then s.(baseline := None)
      else Regenerated(s.(file := Restored(s.file, ReadBaseline(text)), baseline := None), regen)
  }

  function Next(s: State, step: Step): State {
    match step
    case Apply(cfg, writable, regen) => SetupGrub(s, cfg, writable, regen)
    case Teardown(regen) => RestoreGrub(s, regen)
    case Reboot => s.(cmdline := s.boot)
    case Regenerate => Regenerated(s, s.present)
  }

  function Run(s: State, steps: seq<Step>): State
    decreases |steps|
  {
    if steps == [] then s else Next(Run(s, steps[..|steps| - 1]), steps[|steps| - 1])
  }

  // ---- The same in place ----------------------------------------------------

  class GrubHost {
    const root: string
    var present: bool
    var file: File
    var boot: string
    var cmdline: string
    var baseline: Option<string>

    constructor (s: State)
      ensures View() == s
    {
      root, present, file, boot, cmdline, baseline := s.root, s.present, s.file, s.boot, s.cmdline, s.baseline;
    }

    function View(): State
      reads this
    {
      State(present, file, root, boot, cmdline, baseline)
    }

    /**
     A baseline is written once, and what teardown will read of it is what the command line shows: both
     values iff they fit the file, otherwise the first one alone.
     */
    method SaveGrubPreconfig(writable: bool)
      modifies `baseline
      ensures View() == SaveBaseline(old(View()), writable)
      ensures old(baseline).Some? || !writable ==> baseline == old(baseline)
      ensures var shown := Extracted(cmdline);
              old(baseline).None? && writable && QuoteFree(shown.nohz) && QuoteFree(shown.rcu) ==>
                baseline.Some? && ReadBaseline(baseline.value) == Kept(shown)
    {
      if baseline.Some? {
        return;
      }
      var seen := Seen(cmdline);
      var nohz := ParamValue(seen, NOHZ_KEY);
      var rcu := ParamValue(seen, RCU_KEY);
      if writable {
        baseline := Some(BaselineText(Baseline(nohz, rcu)));
        if QuoteFree(nohz) && QuoteFree(rcu) {
          KeptIsRead(Baseline(nohz, rcu));
        }
      }
    }

    /** The core list, built by `strncat` into a 256-byte buffer. */
    method CoreText(cores: seq<i32>) returns (text: string)
      ensures text == CoreList(cores)
    {
      text := "";
      for i := 0 to |cores|
        invariant text == CoreList(cores[..i])
      {
        var t := (if i > 0 then "," else "") + Dec(cores[i]);
        JoinNext(cores, i);
        TakeTwice(JoinCores(cores[..i]), t, 255);
        text := Take(text + t, 255);
      }
      assert cores[..|cores|] == cores;
    }

    method ParamsText(cfg: GrubConfig, cores: string) returns (params: string)
      requires cores == CoreList(cfg.cores)
      ensures params == Params(cfg)
      ensures Intact(cfg) ==> Chunks(" " + params) == ParamTokens(cfg) && Carries(Chunks(" " + params), cfg)
    {
      var nohzPart, rcuPart := "", "";
      if cfg.nohz {
        nohzPart := Take(NOHZ + cores, 127);
      }
      if cfg.rcu {
        rcuPart := Take(RCU + cores, 127);
      }
      var cstatePart := CSTATE + Dec(if cfg.maxCstate >= 0 then cfg.maxCstate else 0);
      params := Take("isolcpus=" + cores + nohzPart + rcuPart + cstatePart + SOFT, 511);
      if Intact(cfg) {
        ParamChunks(cfg);
        ParamsCarry(cfg);
      }
    }

    method ParamsActive(cfg: GrubConfig, cores: string) returns (active: bool)
      requires cores == CoreList(cfg.cores)
      ensures active == AlreadyActive(Seen(cmdline), cfg)
    {
      var seen := Seen(cmdline);
      var isolcpusOk := Contains(seen, "isolcpus=") && Contains(seen, cores);
      var nohzOk := !cfg.nohz || (Contains(seen, NOHZ_KEY) && Contains(seen, cores));
      var rcuOk := !cfg.rcu || (Contains(seen, RCU_KEY) && Contains(seen, cores));
      active := isolcpusOk && nohzOk && rcuOk;
    }

    /**
     `setup_grub`: 0 when there is nothing to change, -1 without a GRUB file, 1 after a change. Then every
     line written to carries the requested values.
     */
    method SetupGrubFile(cfg: GrubConfig, writable: bool, regen: bool) returns (status: int)
      modifies `baseline, `file, `boot
      ensures View() == SetupGrub(old(View()), cfg, writable, regen)
      ensures status == 1 <==> cfg.cores != [] && present && !AlreadyActive(Seen(cmdline), cfg)
      ensures status == -1 <==> cfg.cores != [] && !present
      ensures status == 0 || status == 1 || status == -1
      ensures status == 1 && Intact(cfg) && WholeFile(old(file)) && HasCmdline(old(file)) ==>
                LinesCarry(old(file), file, cfg)
    {
      if cfg.cores == [] {
        return 0;
      }
      var cores := CoreText(cfg.cores);
      SaveGrubPreconfig(writable);
      if !present {
        return -1;
      }
      ghost var original := file;
      file := OnLines(StripBoot, file);
      var params := ParamsText(cfg, cores);
      var active := ParamsActive(cfg, cores);
      if active {
        return 0;
      }
      file := OnLines(StripIsolation, file);
      assert file == OnLines(StripFive, original);
      file := InjectOrAppend(file, params);
      MayCarry(original, cfg);
      if regen {
        boot := BootArgs(root, file);
      }
      return 1;
    }

    /** The baseline goes in every case, also when there is no GRUB file and when update-grub fails. */
    method RestoreGrubCmdline(regen: bool)
      modifies `baseline, `file, `boot
      ensures View() == RestoreGrub(old(View()), regen)
      ensures baseline == None
      ensures old(baseline).None? || !present ==> file == old(file)
      ensures old(baseline).None? || !present || !regen ==> boot == old(boot)
    {
      if baseline.None? {
        return;
      }
      var saved := ReadBaseline(baseline.value);
      if !present {
        baseline := None;
        return;
      }
      ghost var original := file;
      file := OnLines(StripBoot, file);
      if saved.nohz != "" {
        file := OnLines(l => Inject(l, NOHZ_KEY + saved.nohz), file);
      }
      if saved.rcu != "" {
        file := OnLines(l => Inject(l, RCU_KEY + saved.rcu), file);
      }
      assert file == Restored(original, saved);
      if regen {
        boot := BootArgs(root, file);
      }
      baseline := None;
    }
  }

  lemma JoinNext(cores: seq<i32>, i: nat)
    requires i < |cores|
    ensures JoinCores(cores[..i + 1]) == JoinCores(cores[..i]) + ((if i > 0 then "," else "") + Dec(cores[i]))
  {
    assert cores[..i + 1][..i] == cores[..i];
    if i == 0 {
      assert JoinCores(cores[..0]) == "";
    } else {
      assert JoinCores(cores[..i]) + "," + Dec(cores[i]) == JoinCores(cores[..i]) + ("," + Dec(cores[i]));
    }
  }

  lemma TakeTwice(a: string, t: string, n: nat)
    ensures Take(Take(a, n) + t, n) == Take(a + t, n)
  {
    if |a| > n {
      assert a[..n] + t == a[..n] + t;
      assert (a[..n] + t)[..n] == a[..n] == (a + t)[..n];
      assert t == "" ==> a[..n] + t == a[..n];
    }
  }
}
