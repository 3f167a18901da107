/** What the modals of the application do over whole key sequences: warnings, the reboot question, the picker. */
module AppModals {
  import opened App
  import opened AppSessions

  // ---- The root warning --------------------------------------------------------------------

  /** The warning takes every key: Esc and Enter close it, q leaves, nothing else gets through. */
  lemma RootWarning(u: Ui, ev: Event)
    requires Inv(u) && u.modals.root
    ensures ev.code == Esc || ev.code == Enter ==> Step(u, ev) == u.(modals := u.modals.(root := false))
    ensures ev.code == Char('q') || ev.code == Char('Q') ==> Step(u, ev) == u.(quit := true)
    ensures ev.code !in {Esc, Enter, Char('q'), Char('Q')} ==> Step(u, ev) == u
  {
  }

  // ---- The action rows -----------------------------------------------------------------------

  /** Only the service state changed, as a verification leaves it. */
  predicate VerifiedOnly(was: Ui, now: Ui, e: Env) {
    now == was.(service := now.service) && Verified(was.service, now.service, e) && SameLog(was.service, now.service)
  }

  /** The reboot question is asked, and nothing else changed. */
  predicate AsksForReboot(was: Ui, now: Ui, refresh: bool) {
    now == was.(modals := was.modals.(reboot := true, refreshOnDismiss := refresh))
  }

  predicate OnActionRow(u: Ui, row: nat) {
    OnForm(u) && u.form.selected == row
  }

  /** Row 26 applies the setup, row 28 verifies; so do the keys r and R, on both tabs without a prompt. */
  lemma ActionRows(u: Ui, ev: Event)
    requires Inv(u)
    ensures OnActionRow(u, 26) && ev.code == Enter ==>
              if ev.env.reboot then AsksForReboot(u, Step(u, ev), false) else VerifiedOnly(u, Step(u, ev), ev.env)
    ensures OnActionRow(u, 28) && ev.code == Enter ==> VerifiedOnly(u, Step(u, ev), ev.env)
    ensures Plain(u) && (u.tab == Dashboard || u.tab == Setup) && (ev.code == Char('r') || ev.code == Char('R')) ==>
              VerifiedOnly(u, Step(u, ev), ev.env)
  {
  }

  // ---- The reboot question ---------------------------------------------------------------------

  predicate Dismisses(k: KeyCode) {
    k == Esc || k == Char('q') || k == Char('Q')
  }

  predicate Confirms(k: KeyCode) {
    k == Char('r') || k == Char('R')
  }

  /** The state without the question. */
  function Unasked(u: Ui): Ui {
    u.(modals := u.modals.(reboot := false, refreshOnDismiss := false))
  }

  /** Behind a question: r leaves, Esc and q close it and verify when the question says so, other keys are lost. */
  lemma RebootAnswered(u: Ui, asked: Ui, refresh: bool, ev: Event)
    requires Inv(asked) && !u.modals.root && AsksForReboot(u, asked, refresh)
    ensures Confirms(ev.code) ==> Step(asked, ev) == Unasked(u).(quit := true)
    ensures Dismisses(ev.code) ==>
              if refresh then VerifiedOnly(Unasked(u), Step(asked, ev), ev.env) else Step(asked, ev) == Unasked(u)
    ensures !Confirms(ev.code) && !Dismisses(ev.code) ==> Step(asked, ev) == asked
  {
  }

  /** An apply that asks for a reboot, and Esc: the application is where it was, without a verification. */
  lemma ApplySession(u: Ui, start: Event, end: Event)
    requires OnActionRow(u, 26) && start.code == Enter && start.env.reboot && Dismisses(end.code)
    ensures Run(u, [start, end]) == Unasked(u)
  {
    ActionRows(u, start);
    RunOne(u, start);
    var asked := Step(u, start);
    RebootAnswered(u, asked, false, end);
    RunOne(asked, end);
    RunConcat(u, [start], [end]);
    assert [start] + [end] == [start, end];
  }

  // ---- The teardown picker -------------------------------------------------------------------------

  /** The picker at one of the saved configurations, everything else as in `u`. */
  function Picked(u: Ui, n: nat, idx: nat): Ui {
    u.(modals := u.modals.(picker := true, snapshots := n, idx := idx, preview := false))
  }

  lemma PickerOpens(u: Ui, ev: Event)
    requires OnActionRow(u, 27) && ev.code == Enter
    ensures ev.env.snapshots > 0 ==> Step(u, ev) == Picked(u, ev.env.snapshots, 0)
    ensures ev.env.snapshots == 0 ==>
              Step(u, ev) == u.(modals := u.modals.(snapshots := 0, idx := 0, preview := false))
  {
  }

  predicate Browses(k: KeyCode) {
    k == Down || k == Char('j')
  }

  /** One key in the open picker: moves stop at both ends, i shows or hides the preview, other keys are lost. */
  lemma PickerKeys(u: Ui, n: nat, idx: nat, ev: Event)
    requires NoModal(u.modals) && idx < n && Inv(Picked(u, n, idx))
    ensures var p := Picked(u, n, idx);
            && (Browses(ev.code) ==> Step(p, ev) == Picked(u, n, if idx < n - 1 then idx + 1 else n - 1))
            && (ev.code == Up || ev.code == Char('k') ==> Step(p, ev) == Picked(u, n, if idx == 0 then 0 else idx - 1))
            && (ev.code == Char('i') || ev.code == Char('I') ==>
                  Step(p, ev) == p.(modals := p.modals.(preview := true)))
            && (ev.code == Esc ==> Step(p, ev) == p.(modals := p.modals.(picker := false)))
            && (ev.code !in {Up, Down, Esc, Enter, Char('j'), Char('k'), Char('i'), Char('I')} ==> Step(p, ev) == p)
  {
  }

  /** The preview is shown and hidden again. */
  lemma PreviewTwice(u: Ui, a: Event, b: Event)
    requires Inv(u) && u.modals.picker && !u.modals.root && !u.modals.reboot
    requires a.code in {Char('i'), Char('I')} && b.code in {Char('i'), Char('I')}
    ensures Inv(Step(u, a)) && Step(Step(u, a), b) == u
  {
    StepKeepsInv(u, a);
  }

  predicate AllBrowse(evs: seq<Event>) {
    forall i :: 0 <= i < |evs| ==> Browses(evs[i].code)
  }

  /** Any number of Down keys from the first configuration: the one of that number, at most the last. */
  lemma {:induction false} PickerReaches(u: Ui, n: nat, evs: seq<Event>)
    requires NoModal(u.modals) && n > 0 && Inv(Picked(u, n, 0)) && AllBrowse(evs)
    ensures Run(Picked(u, n, 0), evs) == Picked(u, n, if |evs| < n then |evs| else n - 1)
    ensures Inv(Run(Picked(u, n, 0), evs))
    decreases |evs|
  {
    if evs == [] {
    } else {
      var init, last := evs[..|evs| - 1], evs[|evs| - 1];
      assert evs == init + [last];
      PickerReaches(u, n, init);
      RunOneMore(Picked(u, n, 0), init, last);
      PickerKeys(u, n, if |init| < n then |init| else n - 1, last);
      StepKeepsInv(Run(Picked(u, n, 0), init), last);
    }
  }

  /** The chosen configuration is restored: the picker is closed, and a reboot is asked for or all verified. */
  lemma PickerConfirms(u: Ui, n: nat, idx: nat, ev: Event)
    requires NoModal(u.modals) && idx < n && Inv(Picked(u, n, idx)) && ev.code == Enter
    ensures var p := Picked(u, n, idx);
            var closed := p.(modals := p.modals.(picker := false));
            if ev.env.reboot then AsksForReboot(closed, Step(p, ev), true)
            else VerifiedOnly(closed, Step(p, ev), ev.env)
  {
  }

  /**
   A teardown from the form: Enter on its row, any Down keys, Enter, and Esc behind the reboot question. The
   configuration of that number was chosen, and the machine is verified at the end.
   */
  lemma TeardownSession(u: Ui, start: Event, moves: seq<Event>, choose: Event, end: Event)
    requires OnActionRow(u, 27) && start.code == Enter && start.env.snapshots > 0
    requires AllBrowse(moves) && choose.code == Enter && choose.env.reboot && Dismisses(end.code)
    ensures var n := start.env.snapshots;
            var idx := if |moves| < n then |moves| else n - 1;
            var closed := u.(modals := u.modals.(snapshots := n, idx := idx, preview := false));
            Run(u, [start] + moves) == Picked(u, n, idx) &&
            VerifiedOnly(Unasked(closed), Run(u, [start] + moves + [choose] + [end]), end.env)
  {
    var n := start.env.snapshots;
    var idx := if |moves| < n then |moves| else n - 1;
    PickerOpens(u, start);
    RunOne(u, start);
    PickerReaches(u, n, moves);
    RunConcat(u, [start], moves);
    var p := Picked(u, n, idx);
    PickerConfirms(u, n, idx, choose);
    RunOne(p, choose);
    RunConcat(u, [start] + moves, [choose]);
    var asked := Step(p, choose);
    RebootAnswered(p.(modals := p.modals.(picker := false)), asked, true, end);
    RunOne(asked, end);
    RunConcat(u, [start] + moves + [choose], [end]);
  }
}
