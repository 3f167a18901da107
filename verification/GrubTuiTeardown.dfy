/** The teardown of the terminal UI: the one of setup.c, then the chosen snapshot applied once more. */
module GrubTuiTeardown {
  import opened Text
  import opened SedScripts
  import opened Grub
  import opened GrubBoot
  import opened GrubBaseline
  import opened GrubMachine
  import opened GrubRuns
  import opened GrubTheorems
  import opened GrubLimits
  import opened GrubReversal
  import opened GrubShown
  import opened Capture

  /** The five scripts in the order of app.rs. */
  function StripForUi(line: string): string {
    StripLiteral(StripParam(StripParam(StripParam(StripParam(line, ISOL), NOHZ), RCU), CSTATE), SOFT)
  }

  /** `sed -i ... && update-grub`. */
  function Wiped(s: State, regen: bool): State {
    if s.present then Regenerated(s.(file := OnLines(StripForUi, s.file)), regen) else s
  }

  /** What can go wrong on the way: the three runs of update-grub, and the new baseline file. */
  datatype Outcome = Outcome(restored: bool, wiped: bool, writable: bool, applied: bool)

  /** The snapshot applied behind the teardown; without isolated cores a setup does nothing to GRUB. */
  function SnapApplied(t: State, snap: Option<GrubConfig>, o: Outcome): State {
    match snap
    case None => t
    case Some(cfg) => SetupGrub(if cfg.cores == [] then Wiped(t, o.wiped) else t, cfg, o.writable, o.applied)
  }

  /** `run_teardown_inner` (app.rs:419-491) with the configuration of the chosen snapshot, if it has one. */
  function UiTeardown(s: State, snap: Option<GrubConfig>, o: Outcome): State {
    SnapApplied(RestoreGrub(s, o.restored), snap, o)
  }

  const NOTHING := Baseline("", "")

  /** The order of the scripts makes no difference. */
  lemma UiStripsFive(line: string)
    ensures StripForUi(line) == StripFive(line)
  {
    Patterns();
    StripIdempotentAndCommutes(line, NOHZ, ISOL);
    StripIdempotentAndCommutes(StripParam(line, NOHZ), RCU, ISOL);
  }

  lemma WipedFile(root: string, file: File)
    requires FileOk(file) && Clean(root)
    ensures var out := OnLines(StripForUi, file);
            FileOk(out) && ShowsOnly(BootArgs(root, out), NOTHING) &&
            forall i :: 0 <= i < |out| ==> NoneOurs(out[i])
  {
    var out := OnLines(StripForUi, file);
    forall i | 0 <= i < |file|
      ensures out[i] == StripFive(file[i]) && Edited(file[i], out[i]) && NoneOurs(out[i]) && StripBoot(out[i]) == out[i]
    {
      UiStripsFive(file[i]);
      StripFiveEdits(file[i]);
      FiveAreGone(file[i]);
    }
    EditedFile(file, out);
    assert OnLines(StripBoot, out) == out;
    StrippedBoot(root, out);
  }

  /** What grub.cfg shows behind the whole flow... */
  function InBoot(kept: Baseline, snap: Option<GrubConfig>, active: bool, o: Outcome): Baseline {
    match snap
    case None => kept
    case Some(cfg) =>
      if cfg.cores == [] then (if o.wiped then NOTHING else kept)
      else if active || !o.applied then kept
      else Requested(cfg)
  }

  /** ...and what the file gives the next one. */
  function InFile(kept: Baseline, snap: Option<GrubConfig>, active: bool): Baseline {
    match snap
    case None => kept
    case Some(cfg) => if cfg.cores == [] || active then NOTHING else Requested(cfg)
  }

  predicate SnapIntact(snap: Option<GrubConfig>) {
    snap.Some? && snap.value.cores != [] ==> Intact(snap.value)
  }

  predicate Active(s: State, snap: Option<GrubConfig>) {
    snap.Some? && AlreadyActive(Seen(s.cmdline), snap.value)
  }

  lemma WithoutCores(t: State, cfg: GrubConfig, o: Outcome)
    requires t.present && FileOk(t.file) && Clean(t.root) && cfg.cores == []
    ensures var u := SnapApplied(t, Some(cfg), o);
            u.file == OnLines(StripForUi, t.file) && ShowsOnly(BootArgs(t.root, u.file), NOTHING) &&
            u.boot == if o.wiped then BootArgs(t.root, u.file) else t.boot
  {
    WipedFile(t.root, t.file);
  }

  lemma WithCores(t: State, cfg: GrubConfig, o: Outcome)
    requires t.present && FileOk(t.file) && Clean(t.root) && cfg.cores != [] && Intact(cfg)
    ensures var u := SnapApplied(t, Some(cfg), o);
            ShowsOnly(BootArgs(t.root, u.file), Shown(cfg, AlreadyActive(Seen(t.cmdline), cfg))) &&
            u.boot == if TakesEffect(t, cfg, o.applied) then BootArgs(t.root, u.file) else t.boot
  {
    FileBoots(t, cfg, o.writable, o.applied);
    FileAfter(t, cfg, o.writable, o.applied);
    BootAfter(t, cfg, o.writable, o.applied);
  }

  lemma SnapShows(t: State, kept: Baseline, snap: Option<GrubConfig>, o: Outcome)
    requires t.present && FileOk(t.file) && Clean(t.root) && SnapIntact(snap)
    requires t.boot == BootArgs(t.root, t.file) && ShowsOnly(t.boot, kept)
    ensures var u := SnapApplied(t, snap, o);
            ShowsOnly(u.boot, InBoot(kept, snap, Active(t, snap), o)) &&
            ShowsOnly(BootArgs(t.root, u.file), InFile(kept, snap, Active(t, snap)))
  {
    match snap
    case None =>
    case Some(cfg) =>
      if cfg.cores == [] {
        WithoutCores(t, cfg, o);
      } else {
        WithCores(t, cfg, o);
      }
  }

  lemma RestoredState(t: State, original: Baseline)
    requires Inv(t, original) && t.baseline.Some?
    ensures var r := RestoreGrub(t, true);
            r.present && FileOk(r.file) && Clean(r.root) && r.root == t.root && r.cmdline == t.cmdline &&
            r.boot == BootArgs(r.root, r.file) && ShowsOnly(r.boot, Kept(original)) && r.baseline.None?
  {
    TeardownKeepsInv(t, original);
  }

  /**
   Behind every legal run that had a baseline, the next boot and the file show what the flow makes of the
   originals: a snapshot without isolated cores wipes the saved values again, one with cores applies its
   own, or strips the file when it is taken for active.
   */
  lemma UiTeardownShows(s: State, steps: seq<Step>, snap: Option<GrubConfig>, o: Outcome)
    requires Untouched(s) && Legal(s, steps) && Run(s, steps).baseline.Some? && SnapIntact(snap) && o.restored
    ensures var t := Run(s, steps);
            var u := UiTeardown(t, snap, o);
            ShowsOnly(u.boot, InBoot(Kept(Original(s)), snap, Active(t, snap), o)) &&
            ShowsOnly(BootArgs(t.root, u.file), InFile(Kept(Original(s)), snap, Active(t, snap)))
  {
    var t := Run(s, steps);
    BaselineIsOriginal(s, steps);
    RestoredState(t, Original(s));
    SnapShows(RestoreGrub(t, true), Kept(Original(s)), snap, o);
  }

  /**
   The whole flow ends at the originals, in grub.cfg and in the file, if and only if: without a
   configuration they fit the baseline file; with one that has no isolated cores or is taken for active
   there were none; with any other they are what it requests.
   */
  lemma UiTeardownRestores(s: State, steps: seq<Step>, snap: Option<GrubConfig>, o: Outcome)
    requires Untouched(s) && Legal(s, steps) && Run(s, steps).baseline.Some? && SnapIntact(snap)
    requires o.restored && o.wiped && o.applied
    ensures var t := Run(s, steps);
            var u := UiTeardown(t, snap, o);
            ShowsOnly(u.boot, Original(s)) && ShowsOnly(BootArgs(t.root, u.file), Original(s)) <==>
            match snap
            case None => FitsFile(Original(s))
            case Some(cfg) =>
              Original(s) == if cfg.cores == [] || Active(t, snap) then NOTHING else Requested(cfg)
  {
    var t := Run(s, steps);
    var u := UiTeardown(t, snap, o);
    var kept := Kept(Original(s));
    UiTeardownShows(s, steps, snap, o);
    KeptIsSafe(Original(s));
    OneBaselineShown(u.boot, InBoot(kept, snap, Active(t, snap), o), Original(s));
    OneBaselineShown(BootArgs(t.root, u.file), InFile(kept, snap, Active(t, snap)), Original(s));
  }

  /** A snapshot without isolated cores leaves no token of the five parameters the scripts can reach. */
  lemma UiTeardownWipes(s: State, steps: seq<Step>, cfg: GrubConfig, o: Outcome)
    requires Untouched(s) && Legal(s, steps) && Run(s, steps).baseline.Some? && cfg.cores == [] && o.restored
    ensures var u := UiTeardown(Run(s, steps), Some(cfg), o);
            forall i :: 0 <= i < |u.file| ==> NoneOurs(u.file[i])
  {
    var t := Run(s, steps);
    BaselineIsOriginal(s, steps);
    RestoredState(t, Original(s));
    WipedFile(t.root, RestoreGrub(t, true).file);
  }

  /**
   A snapshot with isolated cores is applied without a reboot behind the teardown, so the new baseline is
   what the tuned kernel shows, not the original one.
   */
  lemma UiTeardownSaves(s: State, steps: seq<Step>, cfg: GrubConfig, o: Outcome)
    requires Untouched(s) && Legal(s, steps) && Run(s, steps).baseline.Some? && cfg.cores != []
    requires o.restored && o.writable && Extractable(Run(s, steps).cmdline)
    ensures var t := Run(s, steps);
            var u := UiTeardown(t, Some(cfg), o);
            u.baseline.Some? && ReadBaseline(u.baseline.value) == Kept(ShownBy(t.cmdline))
  {
    var t := Run(s, steps);
    BaselineIsOriginal(s, steps);
    RestoredState(t, Original(s));
    FirstBaseline(RestoreGrub(t, true), cfg, o.applied);
    KeptIsRead(ShownBy(t.cmdline));
  }

  /**
   The snapshot taken in front of the first apply, on a system that isolates nothing, has no cores: the
   teardown with it wipes the five parameters, and the next boot shows neither of the two.
   */
  lemma UnisolatedIsWiped(s: State, steps: seq<Step>, cfg: GrubConfig, o: Outcome)
    requires Untouched(s) && Legal(s, steps) && Run(s, steps).baseline.Some? && !Contains(s.cmdline, "isolcpus=")
    requires cfg.cores == CaptureCmdline(s.cmdline + "\n").cores && o.restored && o.wiped
    ensures cfg.cores == []
    ensures var u := UiTeardown(Run(s, steps), Some(cfg), o);
            (forall i :: 0 <= i < |u.file| ==> NoneOurs(u.file[i])) && ShowsOnly(u.boot, NOTHING)
  {
    NothingCaptured(s.cmdline);
    UiTeardownWipes(s, steps, cfg, o);
    WipedShowsNothing(s, steps, cfg, o);
  }

  lemma NothingCaptured(cmdline: string)
    requires !Contains(cmdline, "isolcpus=")
    ensures CaptureCmdline(cmdline + "\n").cores == []
  {
    assert cmdline + "\n" == cmdline + ['\n'] + "";
    NoOccurrenceJoin(cmdline, "", "isolcpus=", '\n');
    CaptureWithout(cmdline + "\n");
  }

  lemma WipedShowsNothing(s: State, steps: seq<Step>, cfg: GrubConfig, o: Outcome)
    requires Untouched(s) && Legal(s, steps) && Run(s, steps).baseline.Some? && cfg.cores == []
    requires o.restored && o.wiped
    ensures ShowsOnly(UiTeardown(Run(s, steps), Some(cfg), o).boot, NOTHING)
  {
    UiTeardownShows(s, steps, Some(cfg), o);
  }
}
