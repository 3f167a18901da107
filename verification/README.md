# benchmon, modelled and verified in Dafny

benchmon prepares a Linux machine for low-latency benchmarks: it rewrites the kernel parameters in
`/etc/default/grub`, tunes sysctls, remembers what was there before, samples counters, and shows all of it
in a terminal UI. Most of this is text: edited in place by `sed`, saved as hand-printed JSON, and read back
by other hand-written parsers. This project models those texts character by character and proves what
survives over whole runs of apply, teardown and reboot.

## The modules

| module | models |
|---|---|
| Text, JsonText, CNumbers | substring search, bounded copies, decimal text, the flat JSON texts and their readers, C number scanning |
| SedScripts | the `sed` deletion scripts as scanners over a line, and token deletion, which they are proved to be |
| Grub, GrubValues, GrubEdits, GrubNames, GrubCut | the parameter text with its buffer sizes, the value each parameter gets, the injection, what several applies leave, how often each parameter is named, and texts that do not fit their buffer |
| GrubBoot, GrubBaseline, GrubMachine | the command line grub.cfg gives, the saved baseline file, the state machine and the class that performs its steps |
| GrubRuns, GrubRestore, GrubTheorems | the files the scripts can handle, what every run keeps, what teardown restores |
| GrubLimits, GrubReversal, GrubShown, GrubRepeat, GrubTuiTeardown | exactly when each documented promise holds: what is saved, what comes back, what the next boot shows, what a repeated apply changes, and what the teardown of the terminal UI leaves |
| GrubWitness | machines on which the hypotheses are met and the promises fail |
| Capture | the TUI's reading of the command line |
| ConfigStore, ConfigRoundTrip, CReaders, ConfigKeys | the configuration codec, the C readers of the same file on NUL-terminated buffers, and which literal key belongs to which field |
| Sysctl | the sysctl baseline |
| SnapshotIpc | the snapshot file between daemon and readers, system call by system call |
| HotParsers, CoreParser, ResultLog | the in-place parsers of the sampling path, the isolated-core list, the 512-byte result message |
| Charts, SetupForm, App, AppSessions, AppModals, Tui | the chart histories, the rows of the setup tab, the application as a machine over key events, what whole key sequences do in it and in its modals, and the class that performs it |

A line is a `string`, a file a sequence of lines or a string, a C buffer an `array<char>` that holds a
terminator. Fixed buffers cut where the code cuts them: 511 of `params[512]`, 127 of `nohz_part[128]`, 255 of
`cores[256]`, 2047 of `cmdline[2048]`, 4095 of `buf[4096]`. Reading and writing of files, shell commands and
the clock appear as parameters of the steps (whether `update-grub` succeeded, whether a file could be created,
whether a daemon runs).

## Where the code and its documentation differ

Each point gives the exact condition, for all inputs; the lemmas of GrubWitness show the failures on concrete machines.

* `src/setup.c:4` calls every sub-step idempotent. For GRUB it depends on whether each of two equal applies finds
  itself active in the running kernel (`GrubRepeat.RepeatedApply`). Repeated at once the second one changes the file if
  and only if the first rewrote a file without a `GRUB_CMDLINE_LINUX` line (`GrubRepeat.ReapplyAtOnce`). Repeated after
  a reboot, in every legal run (`GrubRepeat.ReapplyAfterReboot`, `ReapplyInRuns`): when the first one rewrote the file,
  it stays as it is if and only if neither `nohz_full` nor `rcu_nocbs` is requested or the second does not find itself
  active; the strip at line 234 runs before the early return at line 263, which does not put the parameters back
  (`GrubWitness.MachineReapplied`). When the first one found itself active, it stays if and only if the second does so
  too or the stripped file already reads as the apply leaves it; so an apply can change the file only when it is
  repeated, without any toggle (`GrubWitness.MachineSkips`).
* The already-active test at `src/setup.c:253-263` looks for the core list anywhere in the command line. On a kernel
  booted with one configuration it takes another one for active if and only if the other core list occurs somewhere
  there and the other toggles are among the first ones (`GrubLimits.ActiveForAnother`): with core 12 booted, an apply
  of core 2 strips and writes nothing (`GrubWitness.MachineWronglyActive`). The test reads the running kernel and not
  the file, so the next boot shows an applied configuration if and only if the apply got past it and update-grub
  succeeded, or grub.cfg showed that configuration before (`GrubShown.BootAfterApply`).
* `src/setup.c:75-78` promises that the baseline is never taken from a state benchmon made. In every legal run an
  apply takes the original baseline if and only if the running command line shows the same two values as the boot
  configuration (`GrubLimits.NextBaselineIsOriginal`). An apply after a teardown without a reboot in between takes the
  values of the apply before, unless that found itself active (`GrubLimits.WithoutRebootBaselineIsLost`,
  `GrubWitness.MachineBaselineLost`); with the reboot the promise holds in every run
  (`GrubTheorems.BaselineIsOriginal`).
* The comment at `src/setup.c:776-782` promises that teardown restores GRUB to its exact state before benchmon. Behind
  an apply that rewrote the file, it comes back if and only if it already read as an apply and a teardown leave it
  (`GrubReversal.TeardownRestoresFile`), which an empty value does not (`GrubWitness.MachineNotRestored`); behind one
  that found itself active, if and only if it read as a teardown alone leaves it (`GrubReversal.CycleRestoresFile`).
  What the next boot shows of `nohz_full` and `rcu_nocbs` is restored in every legal run; the `isolcpus` token of a
  rewriting apply stays behind the teardown of setup.c (`GrubLimits.TeardownKeepsIsolation`).
* The teardown of the terminal UI (`tui/src/app.rs:419-491`) applies the chosen snapshot behind that of setup.c, and
  without a reboot. A snapshot without isolated cores first wipes all five parameters, the restored ones included
  (`GrubTuiTeardown.UiTeardownWipes`, `GrubWitness.UiTeardownLoses`). grub.cfg and file end at the original values if
  and only if they fit the baseline file and the snapshot has no configuration, or there were none and it has no cores
  or is taken for active, or they are what it requests (`GrubTuiTeardown.UiTeardownRestores`). The new baseline is what
  the tuned kernel shows (`GrubTuiTeardown.UiTeardownSaves`).
* The saved baseline survives its buffers if and only if neither value has more than 255 characters and the two
  together at most 461 (`GrubBaseline.KeptIsRead`, in every legal run `GrubTheorems.TeardownRestoresOriginal`). A longer
  value comes back cut, perhaps inside a number (`GrubWitness.LongValueLost`); beyond 461 `rcu_nocbs` is read back as
  absent.
* The comment at `src/setup.c:276` promises that nothing is duplicated. After an apply to a file with one quoted
  `GRUB_CMDLINE_LINUX` line, or with none, each parameter is named once when it is requested and never otherwise, if
  and only if every token that names it followed a space before (`GrubNames.NamedOnceExactly`); the count for every
  file is in `GrubNames.NamedAfterApply`, the one for the next boot in `GrubShown.BootNames`.
  `GRUB_CMDLINE_LINUX="isolcpus=2"` is a file where it fails at the first apply
  (`GrubWitness.FirstPositionNamedTwice`). A file without the line fails at the second apply
  (`GrubNames.NoLineDuplicates`): the `echo` at line 289 writes `isolcpus` behind the quote, where ` isolcpus=` never
  matches.
* That two applies leave what the second alone leaves is another matter. It holds if and only if the file has the line
  and, when anything was written, the parameter text of the first was not cut inside ` nosoftlockup` or inside the name
  of the C-state parameter (`GrubCut.SecondApplyWinsWhenCut`, `GrubCut.RemovableByLength`): with 72 two-digit cores and
  both toggles it is, and the piece stays for good (`GrubWitness.CutStays`).
* A capture of the sysctls that cannot create its file is not noticed, and a later one saves tuned values. After any
  run of setups and a teardown the original values are back if and only if none of the setups in front of the first
  successful capture changes one (`Sysctl.OriginalsComeBack`).
* /proc/meminfo is longer than the 511 characters `read_meminfo` takes. A counter whose line was cut inside its
  digits gets the number of the digits left (`HotParsers.MeminfoFields`, `HotParsers.CutNumber`).
* `to_json` does not escape, so a configuration is read back unchanged if and only if no string holds a quote
  (`ConfigRoundTrip.RoundTripExactly`).

## Model

| member | source | states |
|---|---|---|
| Text.AfterIsFirst | src/setup.c:119-121 | the search finds the first occurrence, and fails only when there is none |
| Text.ParseDec | tui/src/snapshot_store.rs:237-243 | printing and parsing an integer are inverses |
| SedScripts.StripIsTokenDeletion | src/setup.c:234-237 | on every text the script `s/ key=[^ "]*//g` is token deletion: cut the line in front of spaces and quotes, drop each piece that starts with the pattern, join |
| SedScripts.StripIdempotentAndCommutes | src/setup.c:278-282 | the deletion scripts are idempotent and commute pairwise |
| SedScripts.StripMissesFirstTokens | src/setup.c:167-171 | no token of the parameter survives iff every one of them follows a space; tokens behind a quote or at the line start are missed |
| SedScripts.LiteralIsTokenDeletion | src/setup.c:281 | `s/ nosoftlockup//g` deletes whole tokens iff every match is a whole token |
| Grub.StripFiveIsTokenDeletion | src/setup.c:234-282 | the five scripts of an apply together delete exactly the tokens of the five parameters |
| Grub.ParamChunks | src/setup.c:239-251 | the injected text splits into isolcpus, the requested nohz_full and rcu_nocbs, max_cstate and nosoftlockup and nothing else, when no buffer cuts it; the values are in GrubValues.ParamsCarry |
| Grub.IntactExactly | src/setup.c:245-251 | the text is not cut iff it has at most 511 characters |
| GrubValues.ParamsCarry | src/setup.c:211-251 | each of the five parameters is in the text exactly once, or not at all when it was not requested, with its value: a list whose items parse to the cores in order, its first 116 characters for the two optional ones, a number that parses to max_cstate, 0 when that is negative |
| GrubValues.LineCarries | src/setup.c:274-288 | so does a GRUB_CMDLINE_LINUX line after a rewrite, when every token of the five follows a space in it |
| GrubValues.FileCarries | src/setup.c:274-288 | so does every such line of a file after a rewrite |
| GrubEdits.InjectShape | src/setup.c:286-288 | the injection adds its tokens in front of the last quote of the line and nothing else |
| GrubEdits.StripUndoesInject | src/setup.c:168-190 | stripping a parameter that was just injected gives what stripping the line before gives |
| GrubEdits.NextApplyRemovesThisOne | src/setup.c:228-291 | the scripts of the next apply remove all this apply injects, whatever the core lists and toggles of either |
| GrubEdits.GrepUnaffected | src/setup.c:286 | the strip scripts neither make nor destroy the line the grep looks for |
| GrubEdits.SecondApplyWins | src/setup.c:228-291 | for every file with a GRUB_CMDLINE_LINUX line two applies leave the text the second one alone leaves |
| GrubEdits.LastApplyWins | src/setup.c:228-291 | any non-empty sequence of rewrites leaves the text of the last configuration applied to the original text |
| GrubEdits.SecondApplyWinsExactly | src/setup.c:284-291 | last apply wins, for every file and a first parameter text that is not cut: two applies leave what the second alone leaves iff the file has a GRUB_CMDLINE_LINUX line |
| GrubCut.SecondApplyWinsWhenCut | src/setup.c:239-291 | the same for all configurations, cut or not: iff the file has the line and every token the first one wrote, if it wrote any, is one a script deletes |
| GrubCut.RemovableByLength | src/setup.c:239-251 | which parameter texts these are, by their length: all but those cut at 511 inside nosoftlockup or inside the name of the C-state parameter |
| GrubTheorems.LastApplyWinsInRuns | src/setup.c:206-304 | over every run of rewriting applies, reboots and grub.cfg updates the file is that of the last configuration alone |
| GrubNames.NamedAfterApply | src/setup.c:228-291 | for every file whose nosoftlockup tokens are whole: after a rewrite a parameter is named once per line written to when requested, and once more for every token no script reaches |
| GrubNames.NamedOnceExactly | src/setup.c:274-291 | with one place to write to: each parameter is named once when requested and never otherwise, iff every token that named it before follows a space |
| GrubNames.OnePlace | src/setup.c:284-291 | a file whose only GRUB_CMDLINE_LINUX line is quoted has one place to write to |
| GrubNames.NamedOnceInRuns | src/setup.c:206-304 | the same after every run of rewriting applies, reboots and updates, for the last configuration |
| GrubNames.FirstPositionDuplicated | src/setup.c:274-291 | a quoted value that starts with a parameter: every apply that requests it names it at least twice, whatever else the file holds |
| GrubNames.NoLineDuplicates | src/setup.c:288-290 | without the line the file names isolcpus two times more than it had tokens out of reach, after the second apply |
| GrubBoot.InjectQuoted | src/setup.c:285-290 | on a quoted assignment the injection appends one space and the text to the value and changes nothing behind it |
| GrubBoot.CleanByChunks | src/setup.c:167-171 | a stripped line mentions nohz_full= or rcu_nocbs= nowhere iff no token outside the scripts' reach does |
| GrubBoot.BootArgsByName | src/setup.c:284-296 | which variable is which: for the two assignments in either order, the command line is the fixed part, the value of GRUB_CMDLINE_LINUX and that of GRUB_CMDLINE_LINUX_DEFAULT |
| GrubBaseline.BaselineRoundTrip | src/setup.c:98-158 | the printed baseline is read back unchanged iff it fits its buffers (461 characters of values); beyond that nohz_full survives and rcu_nocbs reads as absent |
| GrubBaseline.KeptIsRead | src/setup.c:59-158 | what teardown reads of any two values: each cut to 255 characters, and the second one absent when the two do not fit even so; nothing is lost iff both have at most 255 and together at most 461; saving again loses nothing more |
| GrubBaseline.BaselineByName | src/setup.c:98-105 | the file is the object with the two literal names and quoted values, cut to 511 characters |
| GrubBaseline.ReadLimits | src/setup.c:114-158 | of any file the reader takes the first 511 characters, and of a value the first 255 |
| GrubMachine.GrubHost.SaveGrubPreconfig | src/setup.c:79-132 | an existing baseline is never overwritten, a file that cannot be created changes nothing, and otherwise what teardown will read are the extracted values: both iff they fit, else the first alone |
| GrubMachine.SeenExactly | src/setup.c:79-90 | saving and the already-active test see a command line up to its 2047th character |
| GrubMachine.GrubHost.CoreText | src/setup.c:211-216 | the strncat loop builds the comma list of the cores, cut to 255 characters |
| GrubMachine.GrubHost.ParamsText | src/setup.c:239-251 | when no buffer cuts it, the text built by the snprintf sequence splits into exactly the requested parameters with the requested values: the cores in order, the number max_cstate (0 when negative), the flag |
| GrubMachine.GrubHost.SetupGrubFile | src/setup.c:206-304 | the in-place apply reaches the specified state; the three return codes hold exactly in their cases; after a rewrite every GRUB_CMDLINE_LINUX line carries the requested values |
| GrubMachine.GrubHost.RestoreGrubCmdline | src/setup.c:145-200 | the in-place teardown reaches the specified state; the baseline is gone in every case, also without a GRUB file and when update-grub fails |
| GrubRestore.RestoredOk | src/setup.c:167-191 | teardown keeps a file the scripts can handle such a file |
| GrubRestore.RestoredBoot | src/setup.c:145-200 | after teardown the next boot shows exactly the saved values: present ones once, absent ones not at all, whatever was written before |
| GrubTheorems.SavedIsOriginal | src/setup.c:59-108 | what is saved from a command line that shows two values reads back as these values, as far as the file can hold them |
| GrubTheorems.StepKeepsInv | src/setup.c:145-304 | every legal apply, teardown, reboot or foreign update keeps the baseline invariant |
| GrubTheorems.BaselineIsOriginal | src/setup.c:74-108 | in every legal run a baseline file holds the original values as far as it can, and without one the next boot shows them |
| GrubTheorems.TeardownRestoresOriginal | src/setup.c:134-200 | in every legal run, after a teardown that had a baseline and a reboot the kernel shows exactly what the file could hold of the original values; these are the originals iff neither has more than 255 characters and the two together at most 461 |
| GrubTheorems.AppliedLinux | src/setup.c:274-291 | after a rewrite the value of GRUB_CMDLINE_LINUX is its stripped value and the new parameters |
| GrubLimits.AppliedBoot | src/setup.c:239-296 | after a rewrite the next boot shows nohz_full and rcu_nocbs as requested, each once or not at all, with the core list cut to 116 characters, and an isolcpus token with the core list |
| GrubShown.BootNames | src/setup.c:228-296 | how often the next boot after a rewrite names each of the five parameters: once when requested, as often as the fixed arguments do, and once for each variable whose value starts with it |
| GrubShown.BootNamesOnce | src/setup.c:274-296 | so exactly as often as requested iff the fixed arguments do not name it and neither value starts with it |
| GrubShown.BootCarries | src/setup.c:239-296 | so does the command line of the next boot, when neither the fixed arguments nor the two variables name a parameter themselves |
| GrubShown.BootAfterApply | src/setup.c:253-296 | in every legal run the next boot after an apply shows its configuration iff the apply got past the already-active test and update-grub succeeded, or grub.cfg showed it before |
| GrubLimits.NextBaselineIsOriginal | src/setup.c:74-108 | in every legal run an apply that takes a baseline takes the original one iff the running command line shows the same two values as the boot configuration |
| GrubLimits.WithoutRebootBaselineIsLost | src/setup.c:74-108 | apply, reboot, teardown, apply without a reboot: the new baseline is the first apply's parameters, the original values when that found itself active; so the original one iff it did or the two are equal |
| GrubLimits.BootedIsActive | src/setup.c:253-263 | a kernel booted with the applied parameters passes the already-active test of the same configuration |
| GrubLimits.ActiveForAnother | src/setup.c:253-263 | a kernel booted with one configuration passes the test of another iff the other core list occurs anywhere in the command line, be it inside a longer number, and the other toggles were requested too |
| GrubRepeat.ApplyFixed | src/setup.c:274-291 | an apply that rewrites the file leaves it as it is iff it has the line and already reads so: no token of the five parameters but, at the end of the value, exactly the injected text |
| GrubRepeat.RepeatedApply | src/setup.c:206-304 | the same apply again, whatever the kernel shows by then: when the file stays as it is, for each of the four outcomes of the two already-active tests |
| GrubRepeat.ReapplyAtOnce | src/setup.c:206-304 | repeated at once an apply changes nothing iff there are no cores or no file, it is taken for active, or the file has the line |
| GrubRepeat.ReapplyAfterReboot | src/setup.c:228-269 | repeated after a reboot: iff the first rewrote the file and no toggle is on or the second is not taken for active, or the first was taken for active and so is the second or the stripped file already reads so; what the file then boots with |
| GrubRepeat.ReapplyInRuns | src/setup.c:228-269 | the same condition in every state of every legal run, a first apply that is taken for active included |
| GrubLimits.TeardownKeepsIsolation | src/setup.c:145-200 | after a rewriting apply and a teardown of setup.c the isolcpus token of the apply is still in the file |
| GrubReversal.TeardownRestoresFile | src/setup.c:145-200 | for every file whose nosoftlockup tokens are whole: teardown after a rewriting apply gives the very file back iff the file has the line and held no token of the five parameters but, at the end of that line's value, exactly those an apply and a teardown leave |
| GrubReversal.RestoredFixed | src/setup.c:167-191 | a teardown leaves a file as it is iff it has no nohz_full or rcu_nocbs token in reach but the saved ones at the end of the value |
| GrubReversal.CycleRestoresFile | src/setup.c:145-304 | on the machine, for apply, reboot and teardown of an untouched system: the file comes back iff it read as apply and teardown leave it, or as a teardown alone does when the apply found itself active |
| GrubTuiTeardown.UiTeardownShows | tui/src/app.rs:419-491 | behind every legal run with a baseline, what grub.cfg and the file show after the teardown of the terminal UI, for every snapshot and every failure on the way |
| GrubTuiTeardown.UiTeardownRestores | tui/src/app.rs:419-491 | both end at the original values iff: without a snapshot configuration they fit the baseline file; with one that has no cores or is taken for active there were none; otherwise they are what it requests |
| GrubTuiTeardown.UiTeardownWipes | tui/src/app.rs:441-458 | a snapshot without isolated cores leaves no token of the five parameters in reach, whatever was restored just before |
| GrubTuiTeardown.UnisolatedIsWiped | tui/src/tabs/setup.rs:536 | a snapshot captured on a kernel without isolcpus has no cores, so this is the case whenever the preconfig was taken there |
| GrubTuiTeardown.UiTeardownSaves | tui/src/app.rs:458 | a snapshot with cores is applied without a reboot, and the new baseline is what the tuned kernel shows |
| GrubWitness.MachineUntouched | src/setup.c:79-108 | a machine with an empty GRUB_CMDLINE_LINUX meets the hypotheses of the run theorems |
| GrubWitness.MachineWithUntouched | src/setup.c:79-108 | for any two safe values there is an untouched machine that shows them |
| GrubWitness.CycleIsLegal | src/setup.c:145-304 | on every untouched system apply, reboot, teardown is a legal run with a baseline to restore |
| GrubWitness.MachineNotRestored | src/setup.c:145-200 | on that machine teardown does not give the file back, for any configuration |
| GrubWitness.MachineBaselineLost | src/setup.c:74-108 | on that machine the flow without the second reboot loses the original baseline |
| GrubWitness.MachineReapplied | src/setup.c:228-269 | on that machine a repeated apply after a reboot changes the file iff a toggle is set |
| GrubWitness.MachineSkips | src/setup.c:228-269 | core 2 applied and booted, core 3 applied: an apply of core 2 is skipped, the machine boots core 3, and the same apply then changes the file, without any toggle |
| GrubWitness.LongValueLost | src/setup.c:59-90 | one value of 256 to 461 characters fits the baseline text and is not restored all the same |
| GrubWitness.UiTeardownLoses | tui/src/app.rs:441-458 | on a machine that showed values but isolated nothing, the teardown of the terminal UI loses them |
| GrubWitness.CutStays | src/setup.c:245-251 | with 72 two-digit cores and both toggles two applies do not leave what the second alone leaves |
| GrubWitness.MachineWronglyActive | src/setup.c:253-263 | on that machine, booted with core 12, an apply of core 2 only strips |
| GrubWitness.FirstPositionNamedTwice | src/setup.c:274-291 | the file `GRUB_CMDLINE_LINUX="isolcpus=2"` names isolcpus twice after every apply |
| Capture.ListRoundTrip | tui/src/snapshot_store.rs:323-325 | the C list printer and the Rust list splitter are inverses on every non-empty list of 32-bit ids |
| Capture.CaptureAgrees | tui/src/snapshot_store.rs:316-336 | after a rewriting apply and a boot the TUI captures exactly the applied core list and toggles; other command lines are in CaptureWithout |
| Capture.CaptureWithout | tui/src/snapshot_store.rs:316-336 | on every command line: without isolcpus= no cores are captured, without nohz_full= or rcu_nocbs= the flag is off |
| Capture.CaptureItems | tui/src/snapshot_store.rs:317-329 | the captured cores come from the first isolcpus word, whatever follows it: each item of its list adds its number, one that is no 32-bit number (a range) adds nothing, and a repeated name is dropped |
| Capture.CaptureMore | tui/src/snapshot_store.rs:331-336 | word by word: a word sets the flags it starts with and leaves the others |
| JsonText.ObjectRows | src/setup.c:441-454 | a printed object is a brace, one row `"key": value` per entry with a comma behind all but the last, and the closing text |
| JsonText.AfterInObject | tui/src/snapshot_store.rs:228-271 | in a printed object the first occurrence of `"key":` is the line of that key, even when a value spells a key; none when no line has it |
| JsonText.ReadersAgree | src/monitor.c:213-226 | on every text what a C reader finds the Rust reader finds too, and they differ exactly on other white space behind the colon |
| JsonText.StringReadBack | tui/src/snapshot_store.rs:263-271 | on a printed object both string readers return the printed string |
| ConfigStore.FieldsFromKeys | tui/src/snapshot_store.rs:183-222 | on every string each decoded field is what the reader of its kind finds under the field's own key, the default when that is missing or cannot be parsed |
| ConfigStore.FromJson | tui/src/snapshot_store.rs:183-222 | on every string the parser returns a configuration, namely the decoded one |
| ConfigStore.NameInjective | tui/src/snapshot_store.rs:122-181 | no two fields share a key |
| ConfigRoundTrip.CoreListRoundTrip | tui/src/snapshot_store.rs:186-190 | the printed core list, the empty one included, splits and parses back to itself |
| ConfigRoundTrip.AnyLinesDecode | tui/src/snapshot_store.rs:183-222 | for any list of keys in any order the printed lines decode to the printed value for each listed key and the default for each other |
| ConfigRoundTrip.ConfigRoundTrip | tui/src/snapshot_store.rs:122-222 | every printable configuration is read back unchanged |
| ConfigRoundTrip.RoundTripExactly | tui/src/snapshot_store.rs:122-271 | a configuration is read back unchanged iff none of its strings holds a quote |
| ConfigRoundTrip.ReadersAgreeOnConfig | src/verify.c:33-66 | for every string field of a printed configuration the C and the Rust reader return the string printed under its key; which key that is, is in ConfigKeys |
| CReaders.StartsWith | src/monitor.c:71-77 | the comparison with a constant decides the prefix and never looks past the terminator |
| CReaders.StrStr | src/monitor.c:213-215 | the search returns the first occurrence, or -1 when there is none, within the string |
| CReaders.StrChrQuote | src/monitor.c:219-220 | the position of the next quote, or -1 when there is none |
| CReaders.CopyOut | src/monitor.c:222-225 | the copy delivers the first out_len - 1 characters and the terminator, and leaves the rest of the buffer alone |
| CReaders.ReadJsonStr | src/setup.c:114-132 | on every C string the reader delivers what the specification finds, cut to the buffer, or fails and leaves the buffer alone |
| CReaders.ReadFile | src/monitor.c:206-209 | the buffer holds the front of the file as a C string |
| CReaders.TextEndsAtNul | src/monitor.c:206-209 | a NUL in the file ends the text |
| CReaders.ReadCfgStr | src/monitor.c:202-227 | the same for a whole file read through a 4096-byte buffer, missing file included |
| CReaders.CReadersAgree | src/monitor.c:202-227 | on every printed configuration under 4096 characters the C readers find under the key of each string field what the Rust reader finds, the printed string |
| ConfigKeys.PrintedNumbers | tui/src/snapshot_store.rs:122-181 | the printed text has the five numbers under their literal names |
| ConfigKeys.PrintedFlags | tui/src/snapshot_store.rs:122-181 | and the twelve flags under theirs |
| ConfigKeys.PrintedStrings | tui/src/snapshot_store.rs:122-181 | and the eight strings |
| ConfigKeys.PrintedCores | tui/src/snapshot_store.rs:122-181 | and the core list under "isolated_cores", item by item |
| ConfigKeys.PrintedLoss | tui/src/snapshot_store.rs:122-181 | and the loss under "netem_loss_pct" |
| ConfigKeys.FieldsAsJson | tui/src/snapshot_store.rs:122-181 | each field is printed behind its name as JSON writes it: true or false, a decimal, a quoted string, a bracketed list |
| ConfigKeys.CodeFindsNames | src/monitor.c:236-239 | the C code finds the server and client namespaces and veths under the four names it asks for, in every printed configuration under 4096 characters |
| ConfigKeys.DecodedByName | tui/src/snapshot_store.rs:183-222 | on every text, each number, flag and string of the result is what its literal key reads as, the low 32 bits for numbers, and otherwise the literal default: both GRUB toggles on for a snapshot without their keys |
| ConfigKeys.DecodedCores | tui/src/snapshot_store.rs:186-190 | and the core list is that of "isolated_cores", 2, 3, 4, 5 without the key |
| ConfigKeys.DecodedLoss | tui/src/snapshot_store.rs:183-222 | and the loss that of "netem_loss_pct", 0.1 without the key |
| ConfigKeys.FlagForms | tui/src/snapshot_store.rs:254-261 | a flag is read behind any white space, whatever follows it |
| ConfigKeys.NoFlag | tui/src/snapshot_store.rs:254-261 | text that starts with another letter is no flag |
| ConfigKeys.LossForms | tui/src/snapshot_store.rs:245-252 | a loss with or without sign and point: its digits as a decimal without zeros at the end, refused without any digit |
| CNumbers.StrTolOfDec | src/setup.c:475 | strtol undoes the decimal print of every 64-bit value, whatever non-digit follows |
| CNumbers.StrTolExactly | src/setup.c:475 | strtol on every numeral (white space, a sign or none, digits, whatever follows): its value, saturated at the two ends of 64 bits |
| CNumbers.StrTolOther | src/setup.c:475 | and 0 on any text that does not start with one |
| CNumbers.WrapExactly | src/monitor.c:49-54 | the unsigned arithmetic is that modulo 2^64, for negative values too |
| Sysctl.ExtractInt | src/setup.c:472-478 | the extraction macro on the buffer returns what the specification reads, the default when the key is missing |
| Sysctl.ExtractFlag | src/setup.c:489-495 | the flag extraction returns what the specification reads |
| Sysctl.SysctlHost.CapturePreconfig | src/setup.c:420-461 | an existing file is never overwritten, one that cannot be created changes nothing, and what a restore reads out of a new one are exactly the live values of that moment |
| Sysctl.SysctlHost.RestorePreconfig | src/setup.c:463-520 | the whole state after a restore: every value from the file, timesyncd started but never stopped, the file gone |
| Sysctl.SysctlHost.SetupSysctl | src/setup.c:526-556 | each flag sets its own values, written out, and leaves the others |
| Sysctl.CapturedText | src/setup.c:441-454 | the captured file is the object with these seven literal names, in order, and the values as decimals, the flag as true or false |
| Sysctl.CapturedByName | src/setup.c:441-494 | the captured file has each value under its literal key |
| Sysctl.MissingKeys | src/setup.c:472-494 | what a restore writes for a key that is missing from the file: the literal defaults |
| Sysctl.PrintFits | src/setup.c:441-454 | the printed JSON fits its 512-byte buffer for all 64-bit values |
| Sysctl.CodecExact | src/setup.c:441-494 | what was captured is read back exactly, for all 64-bit values |
| Sysctl.StepKeepsInv | src/setup.c:420-566 | every setup and teardown keeps: a capture file holds the originals, and without one the live values are the originals |
| Sysctl.SysctlRestored | src/setup.c:420-566 | over every run of setups with any flags and teardowns, the state after a teardown is the original one |
| Sysctl.FailedCaptures | src/setup.c:420-566 | every run of setups with any flags, captures failing anywhere, and a teardown ends at the originals as the setups in front of the first successful capture left them |
| Sysctl.OriginalsComeBack | src/setup.c:456-460 | such a run ends at the originals iff none of those setups, run alone, would change a value (`TunedUnchanged` says when one does not) |
| SnapshotIpc.DaemonStepKeeps | tui/src/service.rs:357-374 | no daemon call, failure or kill ever changes a renamed file, and the files stay complete and in capture order |
| SnapshotIpc.ReaderStepKeeps | tui/src/service.rs:87-101 | every call of a reader keeps what it has read a prefix of one complete file no older than its last delivery |
| SnapshotIpc.FinishDelivers | tui/src/ffi.rs:484-494 | at the end of the file the reader holds one whole snapshot, and what it delivers is that; the size check never fails; that it delivers is in FreshIsDelivered |
| SnapshotIpc.StepKeepsInv | tui/src/service.rs:87-374 | every step of daemon, stop, clock and readers keeps the protocol invariant |
| SnapshotIpc.ReadsAreWholeAndOrdered | tui/src/service.rs:357-374 | over every interleaving with kills and restarts, whatever a reader delivers is a whole captured snapshot, and deliveries never go back in capture order |
| SnapshotIpc.NoOlderThanChecked | tui/src/service.rs:87-101 | a delivered snapshot is no older than the file whose age was checked before it was opened |
| SnapshotIpc.FreshIsDelivered | tui/src/service.rs:87-101 | a reader that checks, opens and reads a file 0 to 1999 ms old, in chunks of any size, delivers the capture in it, once, and changes nothing else |
| SnapshotIpc.StaleIsRefused | tui/src/service.rs:88-97 | a file of 2000 ms or more, one from the future, none, or an unlinked one is not opened |
| SnapshotIpc.CaptureIsPublished | tui/src/service.rs:357-374 | a capture written in chunks of any size and renamed is snap.bin, stamped now |
| SnapshotIpc.CapturedIsDelivered | tui/src/service.rs:87-374 | from daemon to reader: what is captured is what is delivered within two seconds |
| SnapshotIpc.ReaderJoins | tui/src/service.rs:87-101 | a reader that joins starts at rest with no delivery, and every other one goes on as it was |
| SnapshotIpc.FailuresRecover | tui/src/service.rs:357-374 | a failed write or rename, or a kill and a restart, leaves the files as they are and the daemon ready |
| HotParsers.ParseDigits | src/monitor.c:51-52 | the digit loop returns the value of the whole run modulo 2^64 and stops behind it |
| HotParsers.ParseNextU64 | src/monitor.c:49-54 | the next digit run modulo 2^64, never passing the terminator; the position behind it |
| HotParsers.ReadDiskStat | src/monitor.c:443-458 | the sample holds numbers 1, 3, 5, 7, 9 and 10 of the buffer, two of them times 512 modulo 2^64; an unreadable file changes nothing |
| HotParsers.DiskFields | src/monitor.c:443-458 | for any ten 64-bit values separated by text without digits, whatever follows, the ten numbers read are these values |
| HotParsers.RowFits | src/monitor.c:443-446 | ten such values fit the 256-byte buffer whenever the gaps have at most five characters |
| HotParsers.LabelsExclusive | src/monitor.c:71-77 | no line starts with two of the seven labels, so the order of the tests does not matter |
| HotParsers.ScanMeminfo | src/monitor.c:66-80 | the in-place line loop ends with, for every label, the number of the last line that starts with it |
| HotParsers.ReadMeminfo | src/monitor.c:60-88 | the sample in bytes computed from these counters; an unreadable file changes nothing |
| HotParsers.MemBalance | src/monitor.c:83-87 | used, free and cache add up to the total modulo 2^64; when total and cache fit 64 bits, without wrap iff the parts are at most the total |
| HotParsers.CountsByLabel | src/monitor.c:71-77 | which literal label feeds which counter |
| HotParsers.SampleBytes | src/monitor.c:83-87 | each part of the sample is 1024 times its counter or difference of counters, modulo 2^64: the available bytes from MemAvailable, the used swap from SwapTotal less SwapFree |
| HotParsers.LabelMatches | src/monitor.c:71-77 | a line starts with a label iff its key is that key: SwapCached is never read as Cached |
| HotParsers.ScanIsLastLine | src/monitor.c:66-80 | on well-formed lines in any order the scan is "take the last line with this key" |
| HotParsers.MeminfoFields | src/monitor.c:60-81 | for a file of any length, cut at 511 characters: a counter is the number in the cut line when its label is still whole there, otherwise the value of the last line with its key that fits, 0 without one |
| HotParsers.FieldsThatFit | src/monitor.c:60-81 | when every line with the key fits, the counter is its value in the whole file |
| HotParsers.CutNumber | src/monitor.c:60-81 | a line cut inside its digits gives the number of the digits left, one cut behind them its own value |
| CoreParser.PushRange | src/verify.c:176-177 | the range loop appends the ids up to the end of the range or of the list |
| CoreParser.PushToken | src/verify.c:174-180 | a range token appends its ids, any other token the value atoi gives it |
| CoreParser.StrTok | src/verify.c:172-181 | the next non-empty token, and the ids of the text split accordingly |
| CoreParser.ParseCores | src/verify.c:166-182 | for every text the list holds the first 64 ids of its full expansion, in order |
| CoreParser.ScanExactly | src/verify.c:175-179 | each `%d` on every such numeral: it fails without digits, and otherwise stops behind them with the value of atoi, which is that of strtol modulo 2^32 |
| CoreParser.ListReadBack | src/verify.c:166-182 | for every comma list of single ids and ranges the expansion is the ids of its items in order |
| CoreParser.OwnListReadBack | src/verify.c:166-182 | the list benchmon prints itself expands to the cores it was printed from |
| ResultLog.SetupResult.StrLen | src/setup.c:27 | the length of the terminated message |
| ResultLog.SetupResult.Format | src/setup.c:31 | the text cut to the buffer behind the message, terminated, the message in front of it unchanged |
| ResultLog.SetupResult.Append | src/setup.c:26-40 | one append as specified, the message still terminated |
| ResultLog.AppendAll | src/setup.c:26-40 | any sequence of appends on a fresh result gives the specified log |
| ResultLog.LogIsPrefix | src/setup.c:26-40 | the message is a prefix of the unbounded log, equal to it iff that has at most 510 characters, and otherwise its first 510 or 511 |
| Charts.PushIsWindow | tui/src/app.rs:73-76 | one push takes the last 300 values of a record to the last 300 of the longer record |
| Charts.PushRow | tui/src/app.rs:547-553 | growth and push loops: one window per index that ever occurred, over the longer record |
| Charts.PushNet | tui/src/app.rs:561-573 | the same for the two network lists, grown and pushed in one loop guarded by the RX length |
| Charts.Charts.Ingest | tui/src/app.rs:545-598 | every chart stays the last 300 values of its part of all snapshots since the last refresh |
| Charts.RecordIsShown | tui/src/app.rs:545-598 | behind every snapshot each chart ends with its value: usage per core, received and sent bytes per interface, requests per disk, latency in microseconds, and a memory share whose product with the total is 100 times the used bytes |
| Charts.Charts.Reset | tui/src/app.rs:299-304 | a refresh starts an empty record |
| Charts.SameWidth | tui/src/app.rs:561-573 | the RX and TX lists always have equal length |
| Charts.ChartIsWindow | tui/src/app.rs:69-79 | chart i holds exactly the last 300 values of the rows that had index i, and is never empty |
| SetupForm.TogglesHandled | tui/src/tabs/setup.rs:513-529 | the toggle handler changes something exactly on the toggle rows, which are the rows of the flags |
| SetupForm.EditsHandled | tui/src/tabs/setup.rs:430-511 | the edit handler can accept a text exactly on the edit rows |
| SetupForm.ToggleFlipsOwnRow | tui/src/tabs/setup.rs:513-529 | a toggle flips the flag its row shows and no other field |
| SetupForm.CommitWritesOwnRow | tui/src/tabs/setup.rs:430-511 | an accepted edit changes no field but the one its row shows |
| SetupForm.LossRoundTrip | tui/src/tabs/setup.rs:377-511 | the loss, shown with two decimals, is committed back unchanged iff it has at most two digits behind the point |
| SetupForm.EditRoundTrip | tui/src/tabs/setup.rs:377-511 | for every edit row: opening it and committing at once changes nothing (what a new text stores is in CommitStores), iff the core list is not empty, a string has no white space at its ends, and the loss has at most two digits behind the point |
| SetupForm.CommitStores | tui/src/tabs/setup.rs:430-511 | what a committed text stores, row by row: the number it parses to, the ids of a list with at least one, the loss, the text itself; a refused text and the other rows change nothing |
| SetupForm.TypedList | tui/src/tabs/setup.rs:434-440 | typing the comma list of any cores commits these cores in this order |
| SetupForm.TypedNumber | tui/src/tabs/setup.rs:448-507 | typing any 32-bit number commits it, in the field of the row |
| SetupForm.ShownCpu | tui/src/tabs/setup.rs:377-428 | rows 0, 1 and 4 show their own fields |
| SetupForm.ShownNet | tui/src/tabs/setup.rs:377-428 | so do rows 12, 13, 14 and 18 |
| SetupForm.ShownStrings | tui/src/tabs/setup.rs:377-428 | so do the six string rows |
| SetupForm.ShownFlag | tui/src/tabs/setup.rs:513-529 | and each toggle row its own flag |
| App.StepKeepsInv | tui/src/main.rs:189-359 | every key in every state keeps all mode, modal, selection and history invariants |
| App.EverySessionOk | tui/src/app.rs:167-242 | the invariants hold from the start over every sequence of keys, whatever the system answers |
| App.ServedOk | tui/src/app.rs:620-772 | every service and log command keeps piggyback equal to service, no own monitor then, and logging equal to an open log |
| App.RememberedOk | tui/src/app.rs:611-614 | the history keeps at most 500 entries, no empty one and no two equal neighbours |
| App.BackAndForth | tui/src/app.rs:498-521 | from idle, k times back and k times forth restores the typed text, for every k |
| App.UpsAndDowns | tui/src/main.rs:261-262 | the same for the Up and Down keys at the prompt: the whole state but the draft is as before |
| App.PrevReaches | tui/src/app.rs:498-507 | k times back shows the k-th entry from the end of the history, or the oldest, with the typed text kept as the draft |
| App.HistoryIsWindow | tui/src/app.rs:611-614 | the history is the last 500 entries of the unbounded record of commands without immediate repetition |
| AppSessions.EditSession | tui/src/main.rs:226-236 | Enter on an edit row, the shown text erased, any text typed and Enter: what the trimmed text says is stored, and no other field changes |
| AppSessions.EditGivenUp | tui/src/main.rs:229 | Esc leaves the configuration as it was |
| AppSessions.CommandSession | tui/src/app.rs:604-800 | the keys of a command at the empty prompt and Enter: the service state answers as its text says, "quit" and "exit" leave, the command is the latest history entry, nothing else changes |
| AppSessions.ServiceAnswered | tui/src/app.rs:620-772 | by command text: "service start" and "enable" close the log of the TUI when a daemon runs behind them, "stop" and "disable" open it, the log commands do nothing beside a daemon, and no other text touches service or log |
| AppSessions.TabKeysGoAround | tui/src/app.rs:36-49 | Tab and BackTab go around the five tabs in order, from every tab, and nothing else changes |
| AppSessions.FunctionKeys | tui/src/main.rs:329-333 | F1 to F5 reach the five tabs from the first two, where other function keys do nothing |
| AppSessions.DownsReach | tui/src/main.rs:344-352 | k times Down from the first row of the form reaches row k, counted without the separator, at most the last |
| AppSessions.UpUndoesDown | tui/src/main.rs:336-343 | Up takes back what Down did, except at the last row |
| AppSessions.FormEnds | tui/src/main.rs:336-352 | nothing is above the first row or below the last |
| AppSessions.FocusKeys | tui/src/main.rs:248-268 | Esc leaves the prompt, Enter goes back to it, and nothing is typed in between |
| AppSessions.ErasedAtPrompt | tui/src/main.rs:253-256 | any number of Backspaces at the prompt takes that many characters from its end, at most all |
| AppSessions.QuitsExactly | tui/src/main.rs:189-359 | the keys that leave, in every mode, and no other |
| AppModals.RootWarning | tui/src/main.rs:191-199 | the warning takes every key: Esc and Enter close it, q leaves, nothing else gets through |
| AppModals.ActionRows | tui/src/tabs/setup.rs:531-596 | row 26 asks for a reboot when the setup needs one and verifies otherwise, row 28 verifies, and so do r and R on the first two tabs |
| AppModals.RebootAnswered | tui/src/app.rs:352-374 | behind the reboot question r leaves, Esc and q close it and verify exactly when it was asked by a teardown, every other key is lost |
| AppModals.ApplySession | tui/src/tabs/setup.rs:533-577 | an apply that asks for a reboot and a dismissal leave the application where it was |
| AppModals.PickerOpens | tui/src/app.rs:380-392 | row 27 opens the picker at the first of the saved configurations, or not when there is none |
| AppModals.PickerKeys | tui/src/main.rs:213-224 | each key in the picker: the moves stop at both ends, i toggles the preview, Esc closes it, every other key is lost |
| AppModals.PreviewTwice | tui/src/main.rs:219-220 | the preview shown and hidden again |
| AppModals.PickerReaches | tui/src/app.rs:394-402 | k times Down reaches configuration k, at most the last |
| AppModals.PickerConfirms | tui/src/app.rs:404-417 | Enter closes the picker and asks for a reboot, to be followed by a verification, or verifies at once |
| AppModals.TeardownSession | tui/src/app.rs:380-491 | a teardown from the form through picker and reboot question chooses the configuration of that number and ends verified |
| Tui.TuiApp.constructor | tui/src/app.rs:167-242 | all invariants hold at the start; the TUI piggybacks iff a daemon runs, and logs itself iff none does and a log can be opened |
| Tui.TuiApp.RefreshVerify | tui/src/app.rs:292-338 | after a verification the TUI piggybacks iff the daemon runs, and then owns no monitor; the log is left alone |
| Tui.TuiApp.Serve | tui/src/app.rs:620-772 | every command keeps piggyback equal to service, no own monitor then, and logging equal to an open log |
| Tui.TuiApp.HistoryPrev | tui/src/app.rs:498-507 | the prompt shows the history entry at the cursor, the text typed so far is kept as the draft, the history is unchanged |
| Tui.TuiApp.HistoryNext | tui/src/app.rs:509-521 | the prompt shows the entry at the cursor, and the draft once the cursor has left the history |
| Tui.TuiApp.ExecTerminalCommand | tui/src/app.rs:604-800 | the prompt is empty and not browsing, a non-empty command is the latest history entry, the service state is what this text asks for, only "quit" and "exit" leave, all invariants still hold |
| Tui.TuiApp.CommitEdit | tui/src/tabs/setup.rs:430-511 | editing ends in every case, the field of the selected row holds what the trimmed text says, row by row, or the text is refused and nothing changes, and no other field has changed |
| Tui.TuiApp.HandleEnter | tui/src/tabs/setup.rs:417-428 | Enter starts editing iff the row is an edit row, flips exactly the flag of a toggle row, and changes no field on any other row |
| Tui.TuiApp.HandleKey | tui/src/main.rs:189-359 | the key dispatch in place reaches the specified state, and the invariants hold again |

## Hypotheses

* `FileOk` (GRUB theorems): one `GRUB_CMDLINE_LINUX` line and at most one `GRUB_CMDLINE_LINUX_DEFAULT`, both
  double-quoted; every ` nosoftlockup` a whole token; no `nohz_full=` or `rcu_nocbs=` where the scripts cannot
  reach it. `NamedAfterApply`, `SecondApplyWinsExactly` and `StripMissesFirstTokens` say what happens otherwise.
* `Intact`: the parameter text fits its 512-byte buffer. The theorems of GrubCut do without it.
* `SafeBaseline`: the original values hold none of the characters that end a word or mean something to `sed`; they may
  be longer than their buffers.
* A command line of at most 2047 characters, which is what `cmdline[2048]` holds, where a baseline is taken from it or a
  booted configuration is tested (`Legal`, `Extractable`). `Extractable` also asks for values without quotes.
* `Legal`: a reboot between a teardown and the next apply, a baseline file that can be created when one is taken,
  and a teardown that regenerates grub.cfg.
* `Places(file) == 1`: one line the apply can write to, or no `GRUB_CMDLINE_LINUX` line at all (`GrubNames.OnePlace`).
* `NothingNamed` (GrubShown.BootCarries): no fixed argument and no value of the two variables names one of the five
  parameters where the scripts cannot reach it.
* `Printable`: strings without quotes, and a loss printed as Rust prints it. `ShownLoss`: what `{:.2}` prints is a
  decimal with two digits, those of the loss itself when it has no more; how it rounds a longer one does not matter.
* One live daemon at a time.

## Left out

- The shell, `sed` and `grep` themselves: their effect on the text is modelled, not their parsing; a saved value with `|`, `&` or a backslash is outside `SafeValue`.
- grub.cfg generation: the next command line is a fixed part, GRUB_CMDLINE_LINUX and GRUB_CMDLINE_LINUX_DEFAULT, as update-grub builds it; kernel parsing of duplicates is not modelled.
- The texts of result messages, and which steps append them; ResultLog takes any texts.
- Network namespaces, veth, netem, SMT, frequency, IRQ, swap and service steps: effects on the system only.
- NetworkManager-wait-online, which a setup stops and no teardown starts; dropping caches.
- Sysctl values the kernel refuses or rounds, and unreadable /proc files, which the capture replaces by defaults.
- IEEE floats: the loss is a finite decimal, chart values are reals; NaN, infinity and exponents in an edited loss are not modelled.
- AppliedBoot: what the next boot shows when the 512-byte parameter text was cut; GrubCut covers what the cut leaves in the file.
- CommitEdit: parses the loss as digits, point and minus only.
- EditRoundTrip: the loss row takes a loss for its decimal digits, which an IEEE double of a large value with decimals need not have.
- Bytes and UTF-8: texts are characters, so a cut in the middle of a multi-byte character is not modelled.
- ParseCores: `strtok` is modelled by positions, without the terminators it writes into the buffer; a range that ends at the largest int is a loop overflow in C and an ordinary range here.
- ScanMeminfo: the seven local counters are one record.
- The TUI lists of charts hold values, not objects: Rust owns them, so nothing is aliased.
- Files after the SIGKILL fallback of `stop`, PID and mode files, and two daemons at once.
- Scroll offsets, mouse events, rendering, chart labels, log lines and terminal output.
- `resolve_name`, `save`, `load`, `list`, time stamps and metric log files: one-branch or library code.
- "The active configuration is the last applied one": `save_active` is skipped when a reboot is required.
