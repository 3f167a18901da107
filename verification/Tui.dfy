/** The application object: its fields, and the methods that update them key by key. */
module Tui {
  import opened Text
  import opened ConfigStore
  import opened SetupForm
  import opened App
  import opened AppSessions

  class TuiApp {
    var tab: Tab
    var shouldQuit: bool
    var service: Service
    var form: Form
    var modals: Modals
    var terminal: Terminal

    ghost function View(): Ui
      reads this
    {
      Ui(tab, shouldQuit, service, form, modals, terminal)
    }

    /** `App::new`: logs itself unless a daemon runs, and the invariants hold from the start. */
    constructor (config: SetupConfig, isRoot: bool, e: Env)
      ensures View() == Started(config, isRoot, e)
      ensures Inv(View())
      ensures service.piggyback == e.after && service.logging == (!e.after && e.loggerOk)
    {
      tab := Dashboard;
      shouldQuit := false;
      service := Service(false, false, false, false, false);
      form := Form(0, false, "", config);
      modals := Modals(!isRoot, false, false, false, 0, 0, false);
      terminal := Terminal(false, "", [], None, "");
      new;
      RefreshVerify(e);
      if !service.piggyback {
        StartLogging(e);
      }
    }

    method StartLogging(e: Env)
      modifies this`service
      ensures service == StartedLogging(old(service), e)
    {
      if service.logging {
        return;
      }
      if e.loggerOk {
        service := service.(logger := true);
        service := service.(logging := true);
      }
    }

    method StopLogging()
      modifies this`service
      ensures service == StoppedLogging(old(service))
    {
      service := service.(logger := false);
      service := service.(logging := false);
    }

    /** The TUI piggybacks exactly on a running daemon, and never while it owns a monitor. */
    method RefreshVerify(e: Env)
      modifies this`service
      ensures service == Refreshed(old(service), e)
      ensures service.piggyback == service.active == e.after && (service.piggyback ==> !service.monitor)
      ensures service.logger == old(service.logger) && service.logging == old(service.logging)
    {
      service := service.(monitor := false);
      if e.after {
        service := service.(active := true, piggyback := true);
        return;
      }
      service := service.(active := false, piggyback := false);
      if e.monitorOk {
        service := service.(monitor := true);
      }
    }

    /** Behind it the TUI never logs beside a daemon. */
    method HandOver(e: Env)
      modifies this`service
      ensures service == HandedOver(old(service), e)
      ensures !(service.piggyback && service.logging)
    {
      RefreshVerify(e);
      if service.piggyback && service.logging {
        StopLogging();
      }
    }

    /** Behind it the TUI logs itself, whenever a log can be opened. */
    method TakeBack(e: Env)
      modifies this`service
      ensures service == TakenBack(old(service), e)
      ensures e.loggerOk ==> service.logging
    {
      service := service.(active := false, piggyback := false);
      RefreshVerify(e);
      StartLogging(e);
    }

    /** Every command keeps the service flags, the owned monitor and the open log in step. */
    method Serve(c: Command, e: Env)
      modifies this`service
      ensures service == Served(old(service), c, e)
      ensures ServiceOk(old(service)) ==> ServiceOk(service)
    {
      if ServiceOk(service) {
        ServedOk(service, c, e);
      }
      match c {
        case Verify => RefreshVerify(e);
        case LogStart => if !service.piggyback { StartLogging(e); }
        case LogStop => if !service.piggyback { StopLogging(); }
        case ServiceStart => if !e.running && e.done { HandOver(e); }
        case ServiceStop => if e.running && e.done { TakeBack(e); }
        case ServiceEnable => if e.done { HandOver(e); }
        case ServiceDisable => if e.done { TakeBack(e); }
        case _ =>
      }
    }

    /** The entry one older than the one shown, the latest at first; what was typed is kept as the draft. */
    method HistoryPrev()
      requires CursorOk(terminal)
      modifies this`terminal
      ensures terminal == Prev(old(terminal))
      ensures CursorOk(terminal) && terminal.history == old(terminal.history)
      ensures terminal.history != [] ==>
                terminal.cursor.Some? && terminal.input == terminal.history[terminal.cursor.value] &&
                (old(terminal.cursor).None? ==> terminal.draft == old(terminal.input))
    {
      if terminal.history == [] {
        return;
      }
      var idx: nat;
      match terminal.cursor {
        case None =>
          terminal := terminal.(draft := terminal.input);
          idx := |terminal.history| - 1;
        case Some(i) => idx := if i == 0 then 0 else i - 1;
      }
      terminal := terminal.(cursor := Some(idx));
      terminal := terminal.(input := terminal.history[idx]);
    }

    /** The entry one newer, and behind the latest one the draft. */
    method HistoryNext()
      requires CursorOk(terminal)
      modifies this`terminal
      ensures terminal == Next(old(terminal))
      ensures CursorOk(terminal) && terminal.history == old(terminal.history)
      ensures terminal.cursor.Some? ==> terminal.input == terminal.history[terminal.cursor.value]
      ensures old(terminal.cursor).Some? && terminal.cursor.None? ==> terminal.input == old(terminal.draft)
    {
      match terminal.cursor {
        case None =>
        case Some(i) =>
          if i + 1 >= |terminal.history| {
            terminal := terminal.(cursor := None);
            terminal := terminal.(input := terminal.draft);
          } else {
            terminal := terminal.(cursor := Some(i + 1));
            terminal := terminal.(input := terminal.history[i + 1]);
          }
      }
    }

    /** The command becomes the latest entry, unless it is that already; beyond 500 the oldest one goes. */
    method Remember(text: string)
      modifies this`terminal
      ensures terminal == old(terminal).(history := Remembered(old(terminal.history), text))
      ensures terminal.history != [] && terminal.history[|terminal.history| - 1] == text
    {
      var history := terminal.history;
      if history == [] || history[|history| - 1] != text {
        history := history + [text];
        if |history| > HISTORY_MAX {
          history := history[1..];
        }
        terminal := terminal.(history := history);
      }
    }

    /**
     The prompt is empty again, the command is the latest entry of the history, the service state answers
     as the text of the command says, the invariants hold.
     */
    method ExecTerminalCommand(e: Env)
      modifies this`terminal, this`service, this`shouldQuit
      ensures View() == Executed(old(View()), e)
      ensures terminal.input == "" && terminal.cursor == None && terminal.draft == ""
      ensures old(terminal.input) != "" ==>
                terminal.history != [] && terminal.history[|terminal.history| - 1] == old(terminal.input)
      ensures Inv(old(View())) ==> Inv(View())
      ensures old(terminal.input) != "" && ServiceOk(old(service)) ==>
                Answered(old(terminal.input), old(service), service, e)
      ensures shouldQuit == (old(shouldQuit) || old(terminal.input) == "quit" || old(terminal.input) == "exit")
    {
      ExecutedAnswers(View(), e);
      var text := terminal.input;
      terminal := terminal.(input := "", cursor := None, draft := "");
      if text == "" {
        return;
      }
      Remember(text);
      var c := CommandOf(text);
      Serve(c, e);
      if c == Quit {
        shouldQuit := true;
      }
    }

    /**
     Editing ends in every case, the field of the selected row holds what was typed, or the text was
     refused, and no other field has changed.
     */
    method CommitEdit()
      modifies this`form
      ensures form == Committing(old(form))
      ensures !form.editing && form.buffer == "" && form.selected == old(form.selected)
      ensures forall k: Key :: form.selected < SEPARATOR && k != KeyAt(form.selected) ==>
                SameField(old(form.config), form.config, k)
      ensures Stored(form.selected, Trim(old(form.buffer)), old(form.config), form.config)
    {
      CommitStores(form.config, form.selected, Trim(form.buffer));
      ghost var was, row := form.config, form.selected;
      var buf := Trim(form.buffer);
      var c := Committed(form.config, form.selected, buf);
      if c.Some? {
        form := form.(config := c.value);
        forall k: Key | row < SEPARATOR && k != KeyAt(row) ensures SameField(was, c.value, k) {
          CommitWritesOwnRow(was, row, buf, k);
        }
      }
      form := form.(editing := false);
      form := form.(buffer := "");
    }

    /** Either the reboot modal opens and nothing is verified, or the modals stay as they are. */
    method Settle(refreshOnDismiss: bool, e: Env)
      modifies this`modals, this`service
      ensures View() == Settled(old(View()), refreshOnDismiss, e)
      ensures e.reboot ==> modals.reboot && service == old(service)
      ensures !e.reboot ==> modals == old(modals) && service.piggyback == e.after
    {
      if e.reboot {
        modals := modals.(reboot := true);
        modals := modals.(refreshOnDismiss := refreshOnDismiss);
        return;
      }
      RefreshVerify(e);
    }

    /** The picker only opens with its index on an entry. */
    method OpenTeardownPicker(e: Env)
      modifies this`modals
      ensures modals == Picking(old(modals), e)
      ensures !old(modals.picker) && modals.picker ==> modals.idx < modals.snapshots
    {
      modals := modals.(snapshots := e.snapshots);
      modals := modals.(idx := 0);
      modals := modals.(preview := false);
      if modals.snapshots == 0 {
        return;
      }
      modals := modals.(picker := true);
    }

    /**
     An edit row opens with the text of its own field and nothing changed; a toggle row flips the flag it
     shows and no other field; an action leaves the configuration alone.
     */
    method HandleEnter(e: Env)
      requires form.selected < ITEM_COUNT
      modifies this`form, this`modals, this`service
      ensures View() == Entered(old(View()), e)
      ensures form.editing == (old(form.editing) || KindAt(form.selected) == Edit)
      ensures KindAt(form.selected) != Toggle ==> form.config == old(form.config)
      ensures forall k: Key :: KindAt(form.selected) == Toggle && form.selected < SEPARATOR ==>
                if k == KeyAt(form.selected) then BoolField(form.config, k) == !BoolField(old(form.config), k)
                else SameField(old(form.config), form.config, k)
    {
      ghost var was, row := form.config, form.selected;
      forall k: Key | KindAt(row) == Toggle && row < SEPARATOR
        ensures if k == KeyAt(row) then BoolField(Toggled(was, row), k) == !BoolField(was, k)
                else SameField(was, Toggled(was, row), k)
      {
        ToggleFlipsOwnRow(was, row, k);
      }
      match KindAt(form.selected) {
        case Edit =>
          form := form.(buffer := ShownText(form.config, form.selected, e.lossText));
          form := form.(editing := true);
        case Toggle => form := form.(config := Toggled(form.config, form.selected));
        case Action =>
          if form.selected == APPLY {
            Settle(false, e);
          } else if form.selected == TEARDOWN {
            OpenTeardownPicker(e);
          } else {
            RefreshVerify(e);
          }
        case Separator =>
      }
    }

    method RebootModalKey(k: KeyCode, e: Env)
      modifies this`modals, this`service, this`shouldQuit
      ensures View() == RebootKey(old(View()), k, e)
    {
      if k == Char('r') || k == Char('R') {
        modals := modals.(reboot := false, refreshOnDismiss := false);
        shouldQuit := true;
      } else if k == Esc || IsQ(k) {
        modals := modals.(reboot := false);
        if modals.refreshOnDismiss {
          modals := modals.(refreshOnDismiss := false);
          RefreshVerify(e);
        }
      }
    }

    method PickerModalKey(k: KeyCode, e: Env)
      modifies this`modals, this`service
      ensures View() == PickerKey(old(View()), k, e)
    {
      if k == Up || k == Char('k') {
        if modals.idx > 0 {
          modals := modals.(idx := modals.idx - 1);
        }
      } else if k == Down || k == Char('j') {
        if modals.idx + 1 < modals.snapshots {
          modals := modals.(idx := modals.idx + 1);
        }
      } else if k == Enter {
        modals := modals.(picker := false);
        Settle(true, e);
      } else if k == Char('i') || k == Char('I') {
        modals := modals.(preview := !modals.preview);
      } else if k == Esc {
        modals := modals.(picker := false);
      }
    }

    method EditModeKey(k: KeyCode)
      modifies this`form
      ensures View() == EditKey(old(View()), k)
    {
      match k {
        case Esc => form := form.(editing := false, buffer := "");
        case Enter => CommitEdit();
        case Backspace =>
          if form.buffer != "" {
            form := form.(buffer := form.buffer[..|form.buffer| - 1]);
          }
        case Char(c) => form := form.(buffer := form.buffer + [c]);
        case _ =>
      }
    }

    method AnyTabKey(ev: Event)
      modifies this`tab, this`shouldQuit
      ensures View() == TabKeys(old(View()), ev)
    {
      if IsQ(ev.code) || IsCtrlC(ev) {
        shouldQuit := true;
      } else if ev.code == TabKey {
        tab := NextTab(tab);
      } else if ev.code == BackTab {
        tab := PrevTab(tab);
      }
    }

    method PromptKey(ev: Event)
      requires CursorOk(terminal) && terminal.focused
      modifies this`tab, this`terminal, this`service, this`shouldQuit
      ensures View() == TerminalKey(old(View()), ev)
    {
      match ev.code {
        case Esc => terminal := terminal.(focused := false);
        case Enter => ExecTerminalCommand(ev.env);
        case Backspace =>
          terminal := terminal.(cursor := None);
          if terminal.input != "" {
            terminal := terminal.(input := terminal.input[..|terminal.input| - 1]);
          }
        case Char(c) =>
          terminal := terminal.(cursor := None);
          terminal := terminal.(input := terminal.input + [c]);
        case Up => HistoryPrev();
        case Down => HistoryNext();
        case TabKey => tab := NextTab(tab);
        case BackTab => tab := PrevTab(tab);
        case _ =>
      }
    }

    method GlobalTabKey(ev: Event)
      requires form.selected < ITEM_COUNT
      modifies this`tab, this`form, this`modals, this`service, this`shouldQuit
      ensures View() == GlobalKey(old(View()), ev)
    {
      match ev.code {
        case F(n) =>
          if n == 1 { tab := Dashboard; }
          else if n == 2 { tab := Setup; }
          else if n == 3 { tab := Monitor; }
          else if n == 4 { tab := Logs; }
          else if n == 5 { tab := TerminalTab; }
        case Up =>
          if tab == Setup && form.selected > 0 {
            form := form.(selected := form.selected - 1);
            if form.selected == SEPARATOR {
              form := form.(selected := form.selected - 1);
            }
          }
        case Down =>
          if tab == Setup && form.selected < ITEM_COUNT - 1 {
            form := form.(selected := form.selected + 1);
            if form.selected == SEPARATOR {
              form := form.(selected := form.selected + 1);
            }
          }
        case Enter =>
          if tab == Setup {
            HandleEnter(ev.env);
          }
        case Char(c) =>
          if c == 'r' || c == 'R' {
            RefreshVerify(ev.env);
          } else {
            AnyTabKey(ev);
          }
        case _ => AnyTabKey(ev);
      }
    }

    /** `handle_key`: modals first, then editing, then the tabs. */
    method HandleKey(ev: Event)
      requires Inv(View())
      modifies this
      ensures View() == Step(old(View()), ev) && Inv(View())
    {
      StepKeepsInv(View(), ev);
      if modals.root {
        if ev.code == Esc || ev.code == Enter {
          modals := modals.(root := false);
        } else if IsQ(ev.code) {
          shouldQuit := true;
        }
        return;
      }
      if modals.reboot {
        RebootModalKey(ev.code, ev.env);
        return;
      }
      if modals.picker {
        PickerModalKey(ev.code, ev.env);
        return;
      }
      if tab == Setup && form.editing {
        EditModeKey(ev.code);
        return;
      }
      if tab == TerminalTab {
        if terminal.focused {
          PromptKey(ev);
        } else if ev.code == Enter {
          terminal := terminal.(focused := true);
        } else {
          AnyTabKey(ev);
        }
        return;
      }
      if tab == Logs || tab == Monitor {
        AnyTabKey(ev);
        return;
      }
      GlobalTabKey(ev);
    }
  }
}
