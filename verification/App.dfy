/**
 The TUI application as a machine over key events. Mouse events and ticks touch scroll offsets and chart
 histories only, so they are no events here. What the system answers comes with the event.
 */
module App {
  import opened Text
  import opened ConfigStore
  import opened SetupForm

  datatype Tab = Dashboard | Setup | Monitor | Logs | TerminalTab

  function NextTab(t: Tab): Tab {
    match t
    case Dashboard => Setup
    case Setup => Monitor
    case Monitor => Logs
    case Logs => TerminalTab
    case TerminalTab => Dashboard
  }

  function PrevTab(t: Tab): Tab {
    match t
    case Dashboard => TerminalTab
    case Setup => Dashboard
    case Monitor => Setup
    case Logs => Monitor
    case TerminalTab => Logs
  }

  /** `monitor`: the TUI owns a monitor; `logger`: it owns an open metric log. */
  datatype Service = Service(active: bool, piggyback: bool, monitor: bool, logger: bool, logging: bool)

  datatype Form = Form(selected: nat, editing: bool, buffer: string, config: SetupConfig)

  /** `snapshots`: how many saved configurations the teardown picker lists. */
  datatype Modals = Modals(
    root: bool, reboot: bool, refreshOnDismiss: bool, picker: bool, snapshots: nat, idx: nat, preview: bool)

  datatype Terminal = Terminal(
    focused: bool, input: string, history: seq<string>, cursor: Option<nat>, draft: string)

  datatype Ui = Ui(tab: Tab, quit: bool, service: Service, form: Form, modals: Modals, terminal: Terminal)

  /**
   The answers of the system during one event: whether a daemon runs (`running` when a command asks first,
   `after` when the verification asks), whether monitor and log can be opened, whether the service
   command succeeded, how many snapshots are saved, whether setup or teardown asks for a reboot, and the
   loss printed with two decimals.
   */
  datatype Env = Env(
    running: bool, after: bool, monitorOk: bool, loggerOk: bool, done: bool, snapshots: nat, reboot: bool,
    lossText: string)

  datatype KeyCode =
    | Esc | Enter | Backspace | Up | Down | TabKey | BackTab | F(n: nat) | Char(c: char) | OtherKey

  datatype Event = Event(code: KeyCode, ctrl: bool, env: Env)

  // ---- Service and logging ------------------------------------------------------------------

  function StartedLogging(s: Service, e: Env): Service {
    if s.logging || !e.loggerOk then s else s.(logger := true, logging := true)
  }

  function StoppedLogging(s: Service): Service {
    s.(logger := false, logging := false)
  }

  /** `refresh_verify`. */
  function Refreshed(s: Service, e: Env): Service {
    if e.after then s.(active := true, piggyback := true, monitor := false)
    else s.(active := false, piggyback := false, monitor := e.monitorOk)
  }

  datatype Command =
    | Verify | LogStart | LogStop | ServiceStart | ServiceStop | ServiceEnable | ServiceDisable | Quit | Shell

  function CommandOf(text: string): Command {
    if text == "benchmon verify" || text == "verify" then Verify
    else if text == "log start" then LogStart
    else if text == "log stop" then LogStop
    else if text == "service start" then ServiceStart
    else if text == "service stop" then ServiceStop
    else if text == "service enable" then ServiceEnable
    else if text == "service disable" then ServiceDisable
    else if text == "quit" || text == "exit" then Quit
    else Shell
  }

  /** The daemon was started: its logger takes over. */
  function HandedOver(s: Service, e: Env): Service {
    var s := Refreshed(s, e);
    if s.piggyback && s.logging then StoppedLogging(s) else s
  }

  /** The daemon was stopped: the TUI samples and logs itself again. */
  function TakenBack(s: Service, e: Env): Service {
    StartedLogging(Refreshed(s.(active := false, piggyback := false), e), e)
  }

  function Served(s: Service, c: Command, e: Env): Service {
    match c
    case Verify => Refreshed(s, e)
    case LogStart => if s.piggyback then s else StartedLogging(s, e)
    case LogStop => if s.piggyback then s else StoppedLogging(s)
    case ServiceStart => if e.running || !e.done then s else HandedOver(s, e)
    case ServiceStop => if !e.running || !e.done then s else TakenBack(s, e)
    case ServiceEnable => if e.done then HandedOver(s, e) else s
    case ServiceDisable => if e.done then TakenBack(s, e) else s
    case _ => s
  }

  // ---- The terminal -----------------------------------------------------------------------------

  const HISTORY_MAX: nat := 500

  predicate CursorOk(t: Terminal) {
    t.cursor.Some? ==> t.cursor.value < |t.history|
  }

  function Prev(t: Terminal): Terminal
    requires CursorOk(t)
  {
    if t.history == [] then t
    else
      match t.cursor
      case None =>
        t.(draft := t.input, cursor := Some(|t.history| - 1), input := t.history[|t.history| - 1])
      case Some(i) =>
        var j := if i == 0 then 0 else i - 1;
        t.(cursor := Some(j), input := t.history[j])
  }

  function Next(t: Terminal): Terminal
    requires CursorOk(t)
  {
    match t.cursor
    case None => t
    case Some(i) =>
      if i + 1 >= |t.history| then t.(cursor := None, input := t.draft)
      else t.(cursor := Some(i + 1), input := t.history[i + 1])
  }

  /** The history after a command: not twice in a row, the oldest dropped beyond 500. */
  function Remembered(history: seq<string>, text: string): seq<string> {
    if history != [] && history[|history| - 1] == text then history
    else
      var longer := history + [text];
      if |longer| > HISTORY_MAX then longer[1..] else longer
  }

  /** `exec_terminal_command`. */
  function Executed(u: Ui, e: Env): Ui {
    var text := u.terminal.input;
    var t := u.terminal.(input := "", cursor := None, draft := "");
    if text == "" then u.(terminal := t)
    else
      u.(terminal := t.(history := Remembered(t.history, text)), service := Served(u.service, CommandOf(text), e),
         quit := u.quit || CommandOf(text) == Quit)
  }

  // ---- The setup tab ------------------------------------------------------------------------------

  function RowUp(row: nat): nat {
    if row == 0 then 0 else if row - 1 == SEPARATOR then row - 2 else row - 1
  }

  function RowDown(row: nat): nat {
    if row < ITEM_COUNT - 1 then (if row + 1 == SEPARATOR then row + 2 else row + 1) else row
  }

  function Committing(f: Form): Form {
    f.(config := match Committed(f.config, f.selected, Trim(f.buffer)) case Some(c) => c case None => f.config,
       editing := false, buffer := "")
  }

  function Picking(m: Modals, e: Env): Modals {
    m.(snapshots := e.snapshots, idx := 0, preview := false, picker := m.picker || e.snapshots != 0)
  }

  /** Setup or teardown is done: ask for a reboot, or verify again. */
  function Settled(u: Ui, refreshOnDismiss: bool, e: Env): Ui {
    if e.reboot then u.(modals := u.modals.(reboot := true, refreshOnDismiss := refreshOnDismiss))
    else u.(service := Refreshed(u.service, e))
  }

  /** `handle_enter`. */
  function Entered(u: Ui, e: Env): Ui
    requires u.form.selected < ITEM_COUNT
  {
    var f := u.form;
    match KindAt(f.selected)
    case Edit =>
      u.(form := f.(buffer := ShownText(f.config, f.selected, e.lossText), editing := true))
    case Toggle => u.(form := f.(config := Toggled(f.config, f.selected)))
    case Action =>
      if f.selected == APPLY then Settled(u, false, e)
      else if f.selected == TEARDOWN then u.(modals := Picking(u.modals, e))
      else u.(service := Refreshed(u.service, e))
    case Separator => u
  }

  // ---- The keys, in the order in which `handle_key` asks --------------------------------------------

  predicate IsQ(k: KeyCode) {
    k == Char('q') || k == Char('Q')
  }

  predicate IsCtrlC(ev: Event) {
    ev.code == Char('c') && ev.ctrl
  }

  function RootKey(u: Ui, k: KeyCode): Ui {
    if k == Esc || k == Enter then u.(modals := u.modals.(root := false))
    else if IsQ(k) then u.(quit := true)
    else u
  }

  function RebootKey(u: Ui, k: KeyCode, e: Env): Ui {
    if k == Char('r') || k == Char('R') then
      u.(modals := u.modals.(reboot := false, refreshOnDismiss := false), quit := true)
    else if k == Esc || IsQ(k) then
      var closed := u.(modals := u.modals.(reboot := false, refreshOnDismiss := false));
      if u.modals.refreshOnDismiss then closed.(service := Refreshed(u.service, e)) else closed
    else u
  }

  function PickerKey(u: Ui, k: KeyCode, e: Env): Ui {
    var m := u.modals;
    if k == Up || k == Char('k') then (if m.idx > 0 then u.(modals := m.(idx := m.idx - 1)) else u)
    else if k == Down || k == Char('j') then
      if m.idx + 1 < m.snapshots then u.(modals := m.(idx := m.idx + 1)) else u
    else if k == Enter then Settled(u.(modals := m.(picker := false)), true, e)
    else if k == Char('i') || k == Char('I') then u.(modals := m.(preview := !m.preview))
    else if k == Esc then u.(modals := m.(picker := false))
    else u
  }

  function EditKey(u: Ui, k: KeyCode): Ui {
    var f := u.form;
    match k
    case Esc => u.(form := f.(editing := false, buffer := ""))
    case Enter => u.(form := Committing(f))
    case Backspace => u.(form := f.(buffer := if f.buffer == "" then "" else f.buffer[..|f.buffer| - 1]))
    case Char(c) => u.(form := f.(buffer := f.buffer + [c]))
    case _ => u
  }

  function TabKeys(u: Ui, ev: Event): Ui {
    if IsQ(ev.code) || IsCtrlC(ev) then u.(quit := true)
    else if ev.code == TabKey then u.(tab := NextTab(u.tab))
    else if ev.code == BackTab then u.(tab := PrevTab(u.tab))
    else u
  }

  function TerminalKey(u: Ui, ev: Event): Ui
    requires CursorOk(u.terminal)
  {
    var t := u.terminal;
    if !t.focused then
      if ev.code == Enter then u.(terminal := t.(focused := true)) else TabKeys(u, ev)
    else
      match ev.code
      case Esc => u.(terminal := t.(focused := false))
      case Enter => Executed(u, ev.env)
      case Backspace =>
        u.(terminal := t.(cursor := None, input := if t.input == "" then "" else t.input[..|t.input| - 1]))
      case Char(c) => u.(terminal := t.(cursor := None, input := t.input + [c]))
      case Up => u.(terminal := Prev(t))
      case Down => u.(terminal := Next(t))
      case TabKey => u.(tab := NextTab(u.tab))
      case BackTab => u.(tab := PrevTab(u.tab))
      case _ => u
  }

  function GlobalKey(u: Ui, ev: Event): Ui
    requires u.form.selected < ITEM_COUNT
  {
    var onSetup, f := u.tab == Setup, u.form;
    match ev.code
    case F(n) =>
      if n == 1 then u.(tab := Dashboard)
      else if n == 2 then u.(tab := Setup)
      else if n == 3 then u.(tab := Monitor)
      else if n == 4 then u.(tab := Logs)
      else if n == 5 then u.(tab := TerminalTab)
      else u
    case Up => if onSetup then u.(form := f.(selected := RowUp(f.selected))) else u
    case Down => if onSetup then u.(form := f.(selected := RowDown(f.selected))) else u
    case Enter => if onSetup then Entered(u, ev.env) else u
    case Char(c) =>
      if c == 'r' || c == 'R' then u.(service := Refreshed(u.service, ev.env)) else TabKeys(u, ev)
    case _ => TabKeys(u, ev)
  }

  /** `handle_key`. */
  function Step(u: Ui, ev: Event): Ui
    requires CursorOk(u.terminal) && u.form.selected < ITEM_COUNT
  {
    if u.modals.root then RootKey(u, ev.code)
    else if u.modals.reboot then RebootKey(u, ev.code, ev.env)
    else if u.modals.picker then PickerKey(u, ev.code, ev.env)
    else if u.tab == Setup && u.form.editing then EditKey(u, ev.code)
    else if u.tab == TerminalTab then TerminalKey(u, ev)
    else if u.tab == Logs || u.tab == Monitor then TabKeys(u, ev)
    else GlobalKey(u, ev)
  }

  // ---- What every event keeps ---------------------------------------------------------------------------

  predicate ServiceOk(s: Service) {
    s.piggyback == s.active && (s.piggyback ==> !s.monitor) && s.logging == s.logger
  }

  predicate NoEqualNeighbours(history: seq<string>) {
    forall i :: 0 < i < |history| ==> history[i - 1] != history[i]
  }

  predicate TerminalOk(t: Terminal) {
    CursorOk(t) && |t.history| <= HISTORY_MAX && NoEqualNeighbours(t.history) && "" !in t.history
  }

  /** Editing only happens on the setup tab, on an edit row, with no modal in front. */
  predicate FormOk(u: Ui) {
    && u.form.selected < ITEM_COUNT && u.form.selected != SEPARATOR
    && (u.form.editing ==> u.tab == Setup && KindAt(u.form.selected) == Edit && !u.modals.reboot && !u.modals.picker)
  }

  predicate ModalsOk(m: Modals) {
    (m.picker ==> m.idx < m.snapshots) && !(m.picker && m.reboot)
  }

  predicate Inv(u: Ui) {
    ServiceOk(u.service) && TerminalOk(u.terminal) && FormOk(u) && ModalsOk(u.modals)
  }

  lemma ServedOk(s: Service, c: Command, e: Env)
    requires ServiceOk(s)
    ensures ServiceOk(Served(s, c, e))
  {
  }

  lemma RememberedOk(history: seq<string>, text: string)
    requires |history| <= HISTORY_MAX && NoEqualNeighbours(history) && "" !in history && text != ""
    ensures var h := Remembered(history, text); |h| <= HISTORY_MAX && NoEqualNeighbours(h) && "" !in h
  {
  }

  lemma ExecutedOk(u: Ui, e: Env)
    requires Inv(u)
    ensures Inv(Executed(u, e))
  {
    if u.terminal.input != "" {
      ServedOk(u.service, CommandOf(u.terminal.input), e);
      RememberedOk(u.terminal.history, u.terminal.input);
    }
  }

  /** A change of the terminal that keeps its history and its cursor in range keeps everything. */
  lemma TerminalOnly(u: Ui, t: Terminal)
    requires Inv(u) && t.history == u.terminal.history && CursorOk(t)
    ensures Inv(u.(terminal := t))
  {
  }

  lemma LeaveTerminal(u: Ui, tab: Tab)
    requires Inv(u) && u.tab == TerminalTab
    ensures Inv(u.(tab := tab)) && Inv(u.(quit := true))
  {
  }

  lemma PromptKeyOk(u: Ui, ev: Event)
    requires Inv(u) && u.tab == TerminalTab && u.terminal.focused && ev.code != Enter
    ensures Inv(TerminalKey(u, ev))
  {
    var t := u.terminal;
    match ev.code
    case Esc => TerminalOnly(u, t.(focused := false));
    case Backspace =>
      TerminalOnly(u, t.(cursor := None, input := if t.input == "" then "" else t.input[..|t.input| - 1]));
    case Char(c) => TerminalOnly(u, t.(cursor := None, input := t.input + [c]));
    case Up => TerminalOnly(u, Prev(t));
    case Down => TerminalOnly(u, Next(t));
    case TabKey => LeaveTerminal(u, NextTab(u.tab));
    case BackTab => LeaveTerminal(u, PrevTab(u.tab));
    case _ =>
  }

  lemma TerminalKeyOk(u: Ui, ev: Event)
    requires Inv(u) && u.tab == TerminalTab
    ensures Inv(TerminalKey(u, ev))
  {
    if !u.terminal.focused {
      TerminalOnly(u, u.terminal.(focused := true));
      LeaveTerminal(u, NextTab(u.tab));
      LeaveTerminal(u, PrevTab(u.tab));
    } else if ev.code == Enter {
      ExecutedOk(u, ev.env);
    } else {
      PromptKeyOk(u, ev);
    }
  }

  /** A change of the form that keeps the selection keeps everything, as long as editing is allowed. */
  lemma FormOnly(u: Ui, f: Form)
    requires Inv(u) && f.selected == u.form.selected
    requires f.editing ==> u.tab == Setup && KindAt(f.selected) == Edit && !u.modals.reboot && !u.modals.picker
    ensures Inv(u.(form := f))
  {
  }

  lemma EnteredOk(u: Ui, e: Env)
    requires Inv(u) && !u.modals.reboot && !u.modals.picker && !u.form.editing && u.tab == Setup
    ensures Inv(Entered(u, e))
  {
    var f := u.form;
    match KindAt(f.selected)
    case Edit => FormOnly(u, f.(buffer := ShownText(f.config, f.selected, e.lossText), editing := true));
    case Toggle => FormOnly(u, f.(config := Toggled(f.config, f.selected)));
    case _ => SettledOk(u, false, e);
  }

  lemma TabKeysOk(u: Ui, ev: Event)
    requires Inv(u) && !u.form.editing
    ensures Inv(TabKeys(u, ev))
  {
  }

  lemma GlobalKeyOk(u: Ui, ev: Event)
    requires Inv(u) && !u.modals.reboot && !u.modals.picker && !u.form.editing
    ensures Inv(GlobalKey(u, ev))
  {
    TabKeysOk(u, ev);
    if ev.code == Enter && u.tab == Setup {
      EnteredOk(u, ev.env);
    }
  }

  lemma RebootKeyOk(u: Ui, k: KeyCode, e: Env)
    requires Inv(u) && u.modals.reboot
    ensures Inv(RebootKey(u, k, e))
  {
  }

  /** The end of a setup or teardown, with no picker open and nothing being edited. */
  lemma SettledOk(u: Ui, refreshOnDismiss: bool, e: Env)
    requires Inv(u) && !u.modals.picker && !u.form.editing
    ensures Inv(Settled(u, refreshOnDismiss, e))
  {
  }

  lemma PickerOnly(u: Ui, m: Modals)
    requires Inv(u) && u.modals.picker && m.reboot == u.modals.reboot
    requires m.picker ==> m.idx < m.snapshots
    ensures Inv(u.(modals := m))
  {
  }

  lemma PickerKeyOk(u: Ui, k: KeyCode, e: Env)
    requires Inv(u) && u.modals.picker && !u.modals.reboot
    ensures Inv(PickerKey(u, k, e))
  {
    var m := u.modals;
    var closed := u.(modals := m.(picker := false));
    PickerOnly(u, m.(picker := false));
    SettledOk(closed, true, e);
    PickerOnly(u, m.(preview := !m.preview));
    if m.idx > 0 {
      PickerOnly(u, m.(idx := m.idx - 1));
    }
    if m.idx + 1 < m.snapshots {
      PickerOnly(u, m.(idx := m.idx + 1));
    }
  }

  /** Every key in every state keeps the invariant. */
  lemma StepKeepsInv(u: Ui, ev: Event)
    requires Inv(u)
    ensures Inv(Step(u, ev))
  {
    if u.modals.root {
    } else if u.modals.reboot {
      RebootKeyOk(u, ev.code, ev.env);
    } else if u.modals.picker {
      PickerKeyOk(u, ev.code, ev.env);
    } else if u.tab == TerminalTab {
      TerminalKeyOk(u, ev);
    } else if !u.form.editing {
      GlobalKeyOk(u, ev);
    }
  }

  function Run(u: Ui, evs: seq<Event>): Ui
    requires Inv(u)
    decreases |evs|
  {
    if evs == [] then u else
      StepKeepsInv(u, evs[0]);
      Run(Step(u, evs[0]), evs[1..])
  }

  /** `App::new` before the first key: nothing selected but row 0, the answers of the first verification. */
  function Started(config: SetupConfig, isRoot: bool, e: Env): Ui {
    var s := Refreshed(Service(false, false, false, false, false), e);
    Ui(Dashboard, false, if s.piggyback then s else StartedLogging(s, e), Form(0, false, "", config),
       Modals(!isRoot, false, false, false, 0, 0, false), Terminal(false, "", [], None, ""))
  }

  /** Over every sequence of keys from the start the invariant holds. */
  lemma {:induction false} RunKeepsInv(u: Ui, evs: seq<Event>)
    requires Inv(u)
    ensures Inv(Run(u, evs))
    decreases |evs|
  {
    if evs == [] {
    } else {
      StepKeepsInv(u, evs[0]);
      RunKeepsInv(Step(u, evs[0]), evs[1..]);
    }
  }

  lemma EverySessionOk(config: SetupConfig, isRoot: bool, e: Env, evs: seq<Event>)
    ensures Inv(Started(config, isRoot, e)) && Inv(Run(Started(config, isRoot, e), evs))
  {
    RunKeepsInv(Started(config, isRoot, e), evs);
  }

  // ---- Browsing the history ---------------------------------------------------------------------------------

  function PrevTimes(t: Terminal, k: nat): (r: Terminal)
    requires CursorOk(t)
    ensures CursorOk(r) && r.history == t.history
  {
    if k == 0 then t else Prev(PrevTimes(t, k - 1))
  }

  function NextTimes(t: Terminal, k: nat): (r: Terminal)
    requires CursorOk(t)
    ensures CursorOk(r) && r.history == t.history
  {
    if k == 0 then t else Next(NextTimes(t, k - 1))
  }

  /** Browsing at entry `i` with the draft kept. */
  function At(t: Terminal, i: nat): Terminal
    requires i < |t.history|
  {
    t.(draft := t.input, cursor := Some(i), input := t.history[i])
  }

  lemma {:induction false} PrevReaches(t: Terminal, k: nat)
    requires t.cursor == None && t.history != [] && k > 0
    ensures PrevTimes(t, k) == At(t, if k <= |t.history| then |t.history| - k else 0)
  {
    if k > 1 {
      PrevReaches(t, k - 1);
    } else {
      assert PrevTimes(t, 0) == t;
    }
  }

  lemma {:induction false} NextReaches(t: Terminal, i: nat, k: nat)
    requires t.cursor == None && i < |t.history|
    ensures NextTimes(At(t, i), k) == if i + k < |t.history| then At(t, i + k) else t.(draft := t.input)
  {
    if k == 0 {
    } else {
      NextReaches(t, i, k - 1);
    }
  }

  lemma {:induction false} NextStays(t: Terminal, k: nat)
    requires t.cursor == None
    ensures NextTimes(t, k) == t
  {
    if k == 0 {
    } else {
      NextStays(t, k - 1);
    }
  }

  /** From idle, k times back and k times forth restores the text being typed, for every k. */
  lemma BackAndForth(t: Terminal, k: nat)
    requires t.cursor == None
    ensures var r := NextTimes(PrevTimes(t, k), k);
            r == t.(draft := r.draft)
  {
    if t.history == [] {
      NoHistory(t, k);
      NextStays(t, k);
    } else if k > 0 {
      PrevReaches(t, k);
      NextReaches(t, if k <= |t.history| then |t.history| - k else 0, k);
    }
  }

  lemma {:induction false} NoHistory(t: Terminal, k: nat)
    requires t.history == [] && t.cursor == None
    ensures PrevTimes(t, k) == t
  {
    if k == 0 {
    } else {
      NoHistory(t, k - 1);
    }
  }

  /** The same key pressed `k` times, whatever the system answers. */
  predicate AllAre(evs: seq<Event>, code: KeyCode) {
    forall i :: 0 <= i < |evs| ==> evs[i].code == code
  }

  predicate AtPrompt(u: Ui) {
    Inv(u) && u.tab == TerminalTab && u.terminal.focused &&
    !u.modals.root && !u.modals.reboot && !u.modals.picker
  }

  lemma BrowseStep(u: Ui, ev: Event)
    requires AtPrompt(u)
    ensures ev.code == Up ==> Step(u, ev) == u.(terminal := Prev(u.terminal)) && AtPrompt(Step(u, ev))
    ensures ev.code == Down ==> Step(u, ev) == u.(terminal := Next(u.terminal)) && AtPrompt(Step(u, ev))
  {
    StepKeepsInv(u, ev);
  }

  lemma {:induction false} UpKeys(u: Ui, evs: seq<Event>)
    requires AtPrompt(u) && AllAre(evs, Up)
    ensures Run(u, evs) == u.(terminal := PrevTimes(u.terminal, |evs|)) && AtPrompt(Run(u, evs))
    decreases |evs|
  {
    if evs == [] {
      assert u == u.(terminal := u.terminal);
    } else {
      var init, last := evs[..|evs| - 1], evs[|evs| - 1];
      assert evs == init + [last];
      UpKeys(u, init);
      RunOneMore(u, init, last);
      BrowseStep(Run(u, init), last);
    }
  }

  lemma {:induction false} DownKeys(u: Ui, evs: seq<Event>)
    requires AtPrompt(u) && AllAre(evs, Down)
    ensures Run(u, evs) == u.(terminal := NextTimes(u.terminal, |evs|)) && AtPrompt(Run(u, evs))
    decreases |evs|
  {
    if evs == [] {
      assert u == u.(terminal := u.terminal);
    } else {
      var init, last := evs[..|evs| - 1], evs[|evs| - 1];
      assert evs == init + [last];
      DownKeys(u, init);
      RunOneMore(u, init, last);
      BrowseStep(Run(u, init), last);
    }
  }

  lemma {:induction false} RunOneMore(u: Ui, evs: seq<Event>, ev: Event)
    requires Inv(u)
    ensures Inv(Run(u, evs)) && Run(u, evs + [ev]) == Step(Run(u, evs), ev)
    decreases |evs|
  {
    RunKeepsInv(u, evs);
    if evs == [] {
      StepKeepsInv(u, ev);
      assert (evs + [ev])[0] == ev && (evs + [ev])[1..] == [];
    } else {
      StepKeepsInv(u, evs[0]);
      assert (evs + [ev])[0] == evs[0] && (evs + [ev])[1..] == evs[1..] + [ev];
      RunOneMore(Step(u, evs[0]), evs[1..], ev);
    }
  }

  /** At the idle prompt, any number of Up keys followed by as many Down keys gives back the typed text. */
  lemma UpsAndDowns(u: Ui, ups: seq<Event>, downs: seq<Event>)
    requires AtPrompt(u) && u.terminal.cursor == None
    requires AllAre(ups, Up) && AllAre(downs, Down) && |ups| == |downs|
    ensures AtPrompt(Run(u, ups))
    ensures var r := Run(Run(u, ups), downs);
            r == u.(terminal := u.terminal.(draft := r.terminal.draft))
  {
    UpKeys(u, ups);
    DownKeys(Run(u, ups), downs);
    BackAndForth(u.terminal, |ups|);
  }

  // ---- What the history holds ---------------------------------------------------------------------------------

  /** The unbounded record: every non-empty command that differs from the one before it. */
  function Record(texts: seq<string>): seq<string> {
    if texts == [] then []
    else
      var init, last := Record(texts[..|texts| - 1]), texts[|texts| - 1];
      if last == "" || (init != [] && init[|init| - 1] == last) then init else init + [last]
  }

  function HistoryOf(texts: seq<string>): seq<string> {
    if texts == [] then []
    else
      var init, last := HistoryOf(texts[..|texts| - 1]), texts[|texts| - 1];
      if last == "" then init else Remembered(init, last)
  }

  /** Remembering a text in the window of a record gives the window of the longer record. */
  lemma RememberedWindow(record: seq<string>, text: string)
    ensures Remembered(Last(record, 500), text) ==
            Last(if record != [] && record[|record| - 1] == text then record else record + [text], 500)
  {
    var w := Last(record, 500);
    assert w == [] <==> record == [];
    assert w != [] ==> w[|w| - 1] == record[|record| - 1];
    if |record| >= 500 {
      assert w + [text] == (record + [text])[|record| - 500..];
      assert (w + [text])[1..] == (record + [text])[|record| + 1 - 500..];
    } else {
      assert w == record;
    }
  }

  /** The history is the last 500 entries of the unbounded record. */
  lemma {:induction false} HistoryIsWindow(texts: seq<string>)
    ensures HistoryOf(texts) == Last(Record(texts), 500)
  {
    if texts == [] {
    } else {
      HistoryIsWindow(texts[..|texts| - 1]);
      RememberedWindow(Record(texts[..|texts| - 1]), texts[|texts| - 1]);
    }
  }
}
