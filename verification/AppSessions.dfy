/** What whole key sequences do: an edited field, a typed command, the way from tab to tab and row to row. */
module AppSessions {
  import opened Text
  import opened SetupForm
  import opened App

  // ---- Runs -----------------------------------------------------------------------------

  lemma {:induction false} RunConcat(u: Ui, a: seq<Event>, b: seq<Event>)
    requires Inv(u)
    ensures Inv(Run(u, a)) && Run(u, a + b) == Run(Run(u, a), b)
    decreases |b|
  {
    RunKeepsInv(u, a);
    if b == [] {
      assert a + b == a;
    } else {
      var init, last := b[..|b| - 1], b[|b| - 1];
      assert b == init + [last] && a + b == (a + init) + [last];
      RunConcat(u, a, init);
      RunOneMore(u, a + init, last);
      RunOneMore(Run(u, a), init, last);
    }
  }

  lemma RunOne(u: Ui, ev: Event)
    requires Inv(u)
    ensures Inv(Step(u, ev)) && Run(u, [ev]) == Step(u, ev)
  {
    StepKeepsInv(u, ev);
    assert [ev][1..] == [];
  }

  predicate NoModal(m: Modals) {
    !m.root && !m.reboot && !m.picker
  }

  /** The keys of a text, one by one, whatever the system answers meanwhile. */
  predicate Types(evs: seq<Event>, text: string) {
    |evs| == |text| && forall i :: 0 <= i < |evs| ==> evs[i].code == Char(text[i])
  }

  lemma TypesMore(evs: seq<Event>, text: string)
    requires Types(evs, text) && evs != []
    ensures Types(evs[..|evs| - 1], text[..|text| - 1]) && evs[|evs| - 1].code == Char(text[|text| - 1])
    ensures text == text[..|text| - 1] + [text[|text| - 1]] && evs == evs[..|evs| - 1] + [evs[|evs| - 1]]
  {
  }

  // ---- Editing a field ------------------------------------------------------------------

  predicate Editing(u: Ui) {
    Inv(u) && u.tab == Setup && u.form.editing && NoModal(u.modals)
  }

  function WithBuffer(u: Ui, text: string): Ui {
    u.(form := u.form.(buffer := text))
  }

  lemma {:induction false} TypedIntoField(u: Ui, evs: seq<Event>, text: string)
    requires Editing(u) && Types(evs, text)
    ensures Run(u, evs) == WithBuffer(u, u.form.buffer + text) && Editing(Run(u, evs))
    decreases |evs|
  {
    if evs == [] {
      assert u.form.buffer + text == u.form.buffer;
    } else {
      TypesMore(evs, text);
      var n := |evs| - 1;
      TypedIntoField(u, evs[..n], text[..n]);
      RunOneMore(u, evs[..n], evs[n]);
      StepKeepsInv(Run(u, evs[..n]), evs[n]);
      assert u.form.buffer + text == u.form.buffer + text[..n] + [text[n]];
    }
  }

  /** Each Backspace takes the last character. */
  lemma {:induction false} ErasedField(u: Ui, evs: seq<Event>)
    requires Editing(u) && AllAre(evs, Backspace)
    ensures Editing(Run(u, evs))
    ensures Run(u, evs) ==
            WithBuffer(u, if |evs| <= |u.form.buffer| then u.form.buffer[..|u.form.buffer| - |evs|] else "")
    decreases |evs|
  {
    if evs == [] {
      assert u.form.buffer[..|u.form.buffer|] == u.form.buffer;
    } else {
      var init, last := evs[..|evs| - 1], evs[|evs| - 1];
      assert evs == init + [last];
      ErasedField(u, init);
      RunOneMore(u, init, last);
      StepKeepsInv(Run(u, init), last);
    }
  }

  predicate OnEditRow(u: Ui) {
    Inv(u) && u.tab == Setup && !u.form.editing && NoModal(u.modals) && KindAt(u.form.selected) == Edit
  }

  lemma OpenedField(u: Ui, ev: Event)
    requires OnEditRow(u) && ev.code == Enter && u.form.selected < SEPARATOR
    ensures Step(u, ev) ==
            u.(form := u.form.(editing := true, buffer := ShownText(u.form.config, u.form.selected, ev.env.lossText)))
    ensures Editing(Step(u, ev))
  {
    StepKeepsInv(u, ev);
  }

  lemma ClosedField(u: Ui, ev: Event)
    requires Editing(u) && ev.code == Enter
    ensures var f := Step(u, ev).form;
            Step(u, ev) == u.(form := f) && !f.editing && f.buffer == "" && f.selected == u.form.selected &&
            Stored(f.selected, Trim(u.form.buffer), u.form.config, f.config)
  {
    CommitStores(u.form.config, u.form.selected, Trim(u.form.buffer));
  }

  /**
   Enter on an edit row, Backspaces enough to empty it, the keys of any text and Enter: the field of the
   row holds what the text says, or the text was refused, and nothing else of the application changes.
   */
  lemma EditSession(u: Ui, start: Event, erase: seq<Event>, typing: seq<Event>, text: string, end: Event)
    requires OnEditRow(u) && start.code == Enter && AllAre(erase, Backspace) && Types(typing, text) && end.code == Enter
    requires u.form.selected < SEPARATOR
    requires |erase| >= |ShownText(u.form.config, u.form.selected, start.env.lossText)|
    ensures var f := Run(u, [start] + erase + typing + [end]).form;
            Run(u, [start] + erase + typing + [end]) == u.(form := f) &&
            !f.editing && f.buffer == "" && f.selected == u.form.selected &&
            Stored(f.selected, Trim(text), u.form.config, f.config)
  {
    var a := Step(u, start);
    RunOne(u, start);
    OpenedField(u, start);
    var b := Run(a, erase);
    ErasedField(a, erase);
    assert b == WithBuffer(a, "");
    var c := Run(b, typing);
    TypedIntoField(b, typing, text);
    assert "" + text == text && c == WithBuffer(a, text);
    RunOne(c, end);
    ClosedField(c, end);
    RunConcat(u, [start], erase);
    RunConcat(u, [start] + erase, typing);
    RunConcat(u, [start] + erase + typing, [end]);
  }

  /** Esc gives the edit up: the configuration stays. */
  lemma EditGivenUp(u: Ui, ev: Event)
    requires Editing(u) && ev.code == Esc
    ensures Step(u, ev) == u.(form := u.form.(editing := false, buffer := ""))
  {
  }

  // ---- Commands ------------------------------------------------------------------------------

  /** What a verification leaves: piggybacking on a running daemon, or else a monitor of its own. */
  predicate Verified(was: Service, now: Service, e: Env) {
    now.active == now.piggyback == e.after && now.monitor == (!e.after && e.monitorOk)
  }

  /** Behind a start of the daemon nobody logs beside it; without one everything logs as before. */
  predicate HandsOver(was: Service, now: Service, e: Env) {
    && Verified(was, now, e)
    && now.logging == (was.logging && !e.after)
    && now.logger == (if was.logging && e.after then false else was.logger)
  }

  /** Behind a stop of the daemon the application logs itself, if it can. */
  predicate TakesBack(was: Service, now: Service, e: Env) {
    && Verified(was, now, e)
    && now.logging == (was.logging || e.loggerOk)
    && now.logger == (if was.logging then was.logger else was.logger || e.loggerOk)
  }

  predicate SameLog(was: Service, now: Service) {
    now.logging == was.logging && now.logger == was.logger
  }

  predicate SameButLog(was: Service, now: Service) {
    now.active == was.active && now.piggyback == was.piggyback && now.monitor == was.monitor
  }

  /** What each command has to leave of the service state, by its text. */
  predicate Answered(text: string, was: Service, now: Service, e: Env) {
    && (text == "verify" || text == "benchmon verify" ==> Verified(was, now, e) && SameLog(was, now))
    && StartAnswered(text, was, now, e) && StopAnswered(text, was, now, e) && LogAnswered(text, was, now, e)
    && (!Named(text) ==> now == was)
  }

  predicate StartAnswered(text: string, was: Service, now: Service, e: Env) {
    && (text == "service start" ==> if e.running || !e.done then now == was else HandsOver(was, now, e))
    && (text == "service enable" ==> if e.done then HandsOver(was, now, e) else now == was)
  }

  predicate StopAnswered(text: string, was: Service, now: Service, e: Env) {
    && (text == "service stop" ==> if e.running && e.done then TakesBack(was, now, e) else now == was)
    && (text == "service disable" ==> if e.done then TakesBack(was, now, e) else now == was)
  }

  /** The log commands do nothing beside a daemon. */
  predicate LogAnswered(text: string, was: Service, now: Service, e: Env) {
    && (text == "log start" ==>
          SameButLog(was, now) && now.logging == (was.logging || (!was.piggyback && e.loggerOk)))
    && (text == "log stop" ==>
          SameButLog(was, now) && (if was.piggyback then now == was else !now.logging && !now.logger))
  }

  /** The texts that reach the service or the log. */
  predicate Named(text: string) {
    || text == "verify" || text == "benchmon verify" || text == "log start" || text == "log stop"
    || text == "service start" || text == "service enable" || text == "service stop" || text == "service disable"
  }

  lemma VerifyNamed(text: string)
    requires text == "verify" || text == "benchmon verify"
    ensures CommandOf(text) == Verify
  {
  }

  lemma LogNamed()
    ensures CommandOf("log start") == LogStart && CommandOf("log stop") == LogStop
  {
  }

  lemma StartNamed()
    ensures CommandOf("service start") == ServiceStart && CommandOf("service enable") == ServiceEnable
  {
  }

  lemma StopNamed()
    ensures CommandOf("service stop") == ServiceStop && CommandOf("service disable") == ServiceDisable
  {
  }

  lemma OthersNamed(text: string)
    requires !Named(text)
    ensures CommandOf(text) == Quit || CommandOf(text) == Shell
  {
  }

  lemma CommandAnswered(c: Command, s: Service, e: Env)
    requires ServiceOk(s)
    ensures var t := Served(s, c, e);
            && (c == Verify ==> Verified(s, t, e) && SameLog(s, t))
            && (c == ServiceStart ==> if e.running || !e.done then t == s else HandsOver(s, t, e))
            && (c == ServiceEnable ==> if e.done then HandsOver(s, t, e) else t == s)
            && (c == ServiceStop ==> if e.running && e.done then TakesBack(s, t, e) else t == s)
            && (c == ServiceDisable ==> if e.done then TakesBack(s, t, e) else t == s)
            && (c == LogStart ==> SameButLog(s, t) && t.logging == (s.logging || (!s.piggyback && e.loggerOk)))
            && (c == LogStop ==> SameButLog(s, t) && (if s.piggyback then t == s else !t.logging && !t.logger))
            && (c == Quit || c == Shell ==> t == s)
  {
  }

  lemma ServiceAnswered(text: string, s: Service, e: Env)
    requires ServiceOk(s)
    ensures Answered(text, s, Served(s, CommandOf(text), e), e)
  {
    CommandAnswered(CommandOf(text), s, e);
    LogNamed();
    StartNamed();
    StopNamed();
    if text == "verify" || text == "benchmon verify" {
      VerifyNamed(text);
    } else if !Named(text) {
      OthersNamed(text);
    }
  }

  /** What an Enter at the prompt keeps and answers. */
  lemma ExecutedAnswers(u: Ui, e: Env)
    ensures var v, text := Executed(u, e), u.terminal.input;
            && (Inv(u) ==> Inv(v))
            && (text != "" && ServiceOk(u.service) ==> Answered(text, u.service, v.service, e))
            && (v.quit <==> u.quit || text == "quit" || text == "exit")
  {
    if Inv(u) {
      ExecutedOk(u, e);
    }
    if ServiceOk(u.service) {
      ServiceAnswered(u.terminal.input, u.service, e);
    }
  }

  lemma {:induction false} TypedAtPrompt(u: Ui, evs: seq<Event>, text: string)
    requires AtPrompt(u) && Types(evs, text)
    ensures AtPrompt(Run(u, evs))
    ensures Run(u, evs) == u.(terminal := u.terminal.(
              input := u.terminal.input + text, cursor := if text == "" then u.terminal.cursor else None))
    decreases |evs|
  {
    if evs == [] {
      assert u.terminal.input + text == u.terminal.input;
    } else {
      TypesMore(evs, text);
      var n := |evs| - 1;
      TypedAtPrompt(u, evs[..n], text[..n]);
      RunOneMore(u, evs[..n], evs[n]);
      StepKeepsInv(Run(u, evs[..n]), evs[n]);
      assert u.terminal.input + text == u.terminal.input + text[..n] + [text[n]];
    }
  }

  /** Backspaces at the prompt take characters away from its end, and leave an empty one alone. */
  lemma {:induction false} ErasedAtPrompt(u: Ui, evs: seq<Event>)
    requires AtPrompt(u) && evs != [] && AllAre(evs, Backspace)
    ensures AtPrompt(Run(u, evs))
    ensures Run(u, evs) == u.(terminal := u.terminal.(
              input := u.terminal.input[..if |evs| <= |u.terminal.input| then |u.terminal.input| - |evs| else 0],
              cursor := None))
    decreases |evs|
  {
    var n := |evs| - 1;
    var init, last := evs[..n], evs[n];
    assert evs == init + [last];
    if n == 0 {
      assert Run(u, init) == u;
    } else {
      ErasedAtPrompt(u, init);
    }
    RunOneMore(u, init, last);
    StepKeepsInv(Run(u, init), last);
  }

  /** Esc leaves the prompt and Enter goes back to it; in between no character is typed. */
  lemma FocusKeys(u: Ui, ev: Event)
    requires Inv(u) && NoModal(u.modals) && u.tab == TerminalTab
    ensures u.terminal.focused && ev.code == Esc ==> Step(u, ev) == u.(terminal := u.terminal.(focused := false))
    ensures !u.terminal.focused && ev.code == Enter ==> Step(u, ev) == u.(terminal := u.terminal.(focused := true))
    ensures !u.terminal.focused && (ev.code.Char? || ev.code == Backspace) ==>
              Step(u, ev) == u.(quit := Step(u, ev).quit)
  {
  }

  lemma EnteredCommand(u: Ui, ev: Event, text: string)
    requires AtPrompt(u) && ev.code == Enter && u.terminal.input == text != ""
    ensures var v := Step(u, ev);
            v == u.(service := v.service, terminal := v.terminal, quit := v.quit) &&
            v.terminal == u.terminal.(history := v.terminal.history, input := "", cursor := None, draft := "") &&
            v.terminal.history != [] &&
            v.terminal.history[|v.terminal.history| - 1] == text &&
            Answered(text, u.service, v.service, ev.env) &&
            v.quit == (u.quit || text == "quit" || text == "exit")
  {
    ServiceAnswered(text, u.service, ev.env);
  }

  /**
   The keys of a command at the empty prompt, and Enter: the service state answers as the command says,
   "quit" and "exit" leave, the command is the latest entry of the history, and nothing else changes.
   */
  lemma CommandSession(u: Ui, typing: seq<Event>, text: string, end: Event)
    requires AtPrompt(u) && u.terminal.input == "" && Types(typing, text) && text != "" && end.code == Enter
    ensures var v := Run(u, typing + [end]);
            v == u.(service := v.service, terminal := v.terminal, quit := v.quit) &&
            v.terminal == u.terminal.(history := v.terminal.history, input := "", cursor := None, draft := "") &&
            v.terminal.history != [] &&
            v.terminal.history[|v.terminal.history| - 1] == text &&
            Answered(text, u.service, v.service, end.env) &&
            v.quit == (u.quit || text == "quit" || text == "exit")
  {
    TypedAtPrompt(u, typing, text);
    assert "" + text == text;
    RunOneMore(u, typing, end);
    EnteredCommand(Run(u, typing), end, text);
  }

  // ---- From tab to tab, from row to row -----------------------------------------------------------

  const TABS := [Dashboard, Setup, Monitor, Logs, TerminalTab]

  /** No modal, no edit, no prompt that takes the key. */
  predicate Plain(u: Ui) {
    Inv(u) && NoModal(u.modals) && !u.form.editing && (u.tab == TerminalTab ==> !u.terminal.focused)
  }

  /** Tab and BackTab go around the five tabs, also at the prompt, and nothing else changes. */
  lemma TabKeysGoAround(u: Ui, ev: Event, i: nat)
    requires Inv(u) && NoModal(u.modals) && !u.form.editing && i < 5 && u.tab == TABS[i]
    ensures ev.code == TabKey ==> Step(u, ev) == u.(tab := TABS[(i + 1) % 5])
    ensures ev.code == BackTab ==> Step(u, ev) == u.(tab := TABS[(i + 4) % 5])
  {
  }

  /** F1 to F5 reach the five tabs from the first two. */
  lemma FunctionKeys(u: Ui, ev: Event, n: nat)
    requires Plain(u) && (u.tab == Dashboard || u.tab == Setup) && ev.code == F(n)
    ensures Step(u, ev) == if 1 <= n <= 5 then u.(tab := TABS[n - 1]) else u
  {
  }

  predicate OnForm(u: Ui) {
    Plain(u) && u.tab == Setup
  }

  /** Any number of Down keys from the first row: the row of that number, without the separator, at most the last. */
  lemma {:induction false} DownsReach(u: Ui, evs: seq<Event>)
    requires OnForm(u) && u.form.selected == 0 && AllAre(evs, Down)
    ensures OnForm(Run(u, evs))
    ensures Run(u, evs) ==
            u.(form := u.form.(selected := if |evs| < 25 then |evs| else if |evs| < 28 then |evs| + 1 else 28))
    decreases |evs|
  {
    if evs == [] {
      assert u.form.(selected := 0) == u.form;
    } else {
      var init, last := evs[..|evs| - 1], evs[|evs| - 1];
      assert evs == init + [last];
      DownsReach(u, init);
      RunOneMore(u, init, last);
      StepKeepsInv(Run(u, init), last);
    }
  }

  /** An Up key takes back what a Down key did, except at the last row. */
  lemma UpUndoesDown(u: Ui, down: Event, up: Event)
    requires OnForm(u) && down.code == Down && up.code == Up && u.form.selected < 28
    ensures Inv(Step(u, down)) && Step(Step(u, down), up) == u
  {
    StepKeepsInv(u, down);
  }

  /** Nothing is above the first row or below the last, and Up leaves the last one for the one before. */
  lemma FormEnds(u: Ui, ev: Event)
    requires OnForm(u)
    ensures u.form.selected == 0 && ev.code == Up ==> Step(u, ev) == u
    ensures u.form.selected == 28 && ev.code == Down ==> Step(u, ev) == u
    ensures u.form.selected == 28 && ev.code == Up ==> Step(u, ev) == u.(form := u.form.(selected := 27))
  {
  }

  /** Which keys end the application. */
  lemma QuitsExactly(u: Ui, ev: Event)
    requires Inv(u) && !u.quit
    ensures var q, ctrlC := ev.code == Char('q') || ev.code == Char('Q'), ev.code == Char('c') && ev.ctrl;
            Step(u, ev).quit <==>
            if u.modals.root then q
            else if u.modals.reboot then ev.code == Char('r') || ev.code == Char('R')
            else if u.modals.picker || u.form.editing then false
            else if u.tab == TerminalTab && u.terminal.focused then
              ev.code == Enter && (u.terminal.input == "quit" || u.terminal.input == "exit")
            else q || ctrlC
  {
  }
}
