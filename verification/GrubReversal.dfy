/** When teardown gives back the very file an apply started from. */
module GrubReversal {
  import opened Text
  import opened SedScripts
  import opened Grub
  import opened GrubEdits
  import opened GrubBoot
  import opened GrubBaseline
  import opened GrubMachine
  import opened GrubRuns
  import opened GrubRestore
  import opened GrubTheorems
  import opened GrubLimits

  /** No token of the five parameters in reach of the scripts. */
  predicate NoneOurs(text: string) {
    forall c :: c in Chunks(text) ==> !Ours(c)
  }

  /** What an apply and a teardown leave behind the value of GRUB_CMDLINE_LINUX. */
  function Left(cfg: GrubConfig, b: Baseline): string {
    ISOL + CoreList(cfg.cores) + CstatePart(cfg) + SOFT + Written(NOHZ, b.nohz) + Written(RCU, b.rcu)
  }

  /** The value is text without such tokens, followed by exactly these. */
  predicate EndsWith(body: string, left: string) {
    |left| <= |body| && body[|body| - |left|..] == left && NoneOurs(body[..|body| - |left|])
  }

  /**
   The file already reads as if the apply and the teardown had left it: what can be checked before the apply.
   */
  predicate Reversible(file: File, cfg: GrubConfig, b: Baseline) {
    forall i :: 0 <= i < |file| ==> LineReversible(file[i], cfg, b)
  }

  predicate LineReversible(line: string, cfg: GrubConfig, b: Baseline) {
    if Injectable(line) then EndsWith(Inside(line), Left(cfg, b)) && NoneOurs(Behind(line)) else NoneOurs(line)
  }

  /** What `sed` takes for the value: the text from the first quote to the last one... */
  function Inside(line: string): string
    requires Injectable(line)
  {
    line[|OPEN|..][..LastQuote(line[|OPEN|..]).value]
  }

  /** ...and what follows that one. */
  function Behind(line: string): string
    requires Injectable(line)
  {
    line[|OPEN|..][LastQuote(line[|OPEN|..]).value + 1..]
  }

  // ---- Stripping ---------------------------------------------------------------------

  lemma StripAllChunks(s: string)
    ensures Chunks(StripAll(s)) == Foreign(Chunks(s)) && StripAll(s) == Flatten(Foreign(Chunks(s)))
  {
    Patterns();
    var l1 := StripParam(s, NOHZ);
    var l2 := StripParam(l1, RCU);
    var l3 := StripParam(l2, ISOL);
    var l4 := StripParam(l3, CSTATE);
    StripIsTokenDeletion(s, NOHZ);
    StripIsTokenDeletion(l1, RCU);
    StripIsTokenDeletion(l2, ISOL);
    StripIsTokenDeletion(l3, CSTATE);
    StripIsTokenDeletion(l4, SOFT);
  }

  lemma StripAllFixed(s: string)
    ensures NoneOurs(StripAll(s)) && (StripAll(s) == s <==> NoneOurs(s))
  {
    StripAllChunks(s);
    ForeignMember(Chunks(s));
    ChunksOfText(s);
    if NoneOurs(s) {
      ForeignFixed(Chunks(s));
    }
  }

  lemma StripBootFixed(s: string)
    requires NoneOurs(s)
    ensures StripBoot(s) == s
  {
    CleanByChunks(s);
    WithoutNothing(Chunks(s), NOHZ);
    WithoutNothing(Chunks(s), RCU);
    ChunksOfText(s);
    ChunksOfText(StripBoot(s));
  }

  lemma OursGone(x: string, left: string)
    requires left == "" || Sep(left[0])
    requires forall c :: c in Chunks(left) ==> Ours(c)
    requires NoneOurs(x)
    ensures StripAll(x + left) == x
  {
    StripAllChunks(x + left);
    ChunksConcat(x, left);
    ForeignConcat(Chunks(x), Chunks(left));
    ForeignOfOurs(Chunks(left));
    ForeignFixed(Chunks(x));
    ChunksOfText(x);
    assert Chunks(x) + [] == Chunks(x);
  }

  // ---- The tokens left --------------------------------------------------------------------

  lemma OursConcat(x: string, y: string)
    requires y == "" || Sep(y[0])
    requires forall c :: c in Chunks(x) ==> Ours(c)
    requires forall c :: c in Chunks(y) ==> Ours(c)
    ensures forall c :: c in Chunks(x + y) ==> Ours(c)
  {
    ChunksConcat(x, y);
  }

  lemma OursToken(p: string, v: string)
    requires (p == NOHZ || p == RCU || p == ISOL || p == CSTATE || p == SOFT) && Plain(v)
    ensures p + v != "" && (p + v)[0] == ' ' && forall c :: c in Chunks(p + v) ==> Ours(c)
  {
    Patterns();
    OneToken(p, v);
  }

  lemma OursWritten(p: string, v: string)
    requires (p == NOHZ || p == RCU) && Plain(v)
    ensures var w := Written(p, v); (w == "" || Sep(w[0])) && forall c :: c in Chunks(w) ==> Ours(c)
  {
    OursToken(p, v);
  }

  lemma LeftIsOurs(cfg: GrubConfig, b: Baseline)
    requires SafeBaseline(b)
    ensures Left(cfg, b) != "" && Left(cfg, b)[0] == ' '
    ensures forall c :: c in Chunks(Left(cfg, b)) ==> Ours(c)
  {
    var i, k := ISOL + CoreList(cfg.cores), CstatePart(cfg);
    var n, r := Written(NOHZ, b.nohz), Written(RCU, b.rcu);
    CoreListPlain(cfg.cores);
    DecPlain(if cfg.maxCstate >= 0 then cfg.maxCstate else 0);
    OursToken(ISOL, CoreList(cfg.cores));
    OursToken(CSTATE, Dec(if cfg.maxCstate >= 0 then cfg.maxCstate else 0));
    OursToken(SOFT, "");
    assert SOFT + "" == SOFT;
    OursWritten(NOHZ, b.nohz);
    OursWritten(RCU, b.rcu);
    OursConcat(i, k);
    OursConcat(i + k, SOFT);
    OursConcat(i + k + SOFT, n);
    OursConcat(i + k + SOFT + n, r);
    assert Left(cfg, b)[0] == i[0];
  }

  lemma KeptTokens(cfg: GrubConfig)
    ensures forall c :: c in [ISOL + CoreList(cfg.cores)] + [CstatePart(cfg)] + [SOFT] ==> !(NOHZ <= c) && !(RCU <= c)
    ensures forall c :: c in Optional(NohzPart(cfg)) ==> NOHZ <= c
    ensures forall c :: c in Optional(RcuPart(cfg)) ==> RCU <= c
  {
    OtherTokens(CoreList(cfg.cores), Dec(if cfg.maxCstate >= 0 then cfg.maxCstate else 0));
    PartPrefix(NOHZ, CoreList(cfg.cores));
    PartPrefix(RCU, CoreList(cfg.cores));
  }

  lemma Regroup5(
    x: seq<string>, i: seq<string>, n: seq<string>, r: seq<string>, k: seq<string>, e: seq<string>)
    ensures x + (i + n + r + k + e) == (x + i) + n + r + (k + e)
    ensures (x + i) + (k + e) == x + (i + k + e)
  {
  }

  /** The boot scripts take the nohz_full and rcu_nocbs tokens out of the injected ones, and nothing else. */
  lemma ParamsWithoutBoot(x: seq<string>, cfg: GrubConfig)
    requires forall c :: c in x ==> !(NOHZ <= c) && !(RCU <= c)
    ensures Without(Without(x + ParamTokens(cfg), NOHZ), RCU) ==
            x + ([ISOL + CoreList(cfg.cores)] + [CstatePart(cfg)] + [SOFT])
  {
    var i, k, e := [ISOL + CoreList(cfg.cores)], [CstatePart(cfg)], [SOFT];
    KeptTokens(cfg);
    assert forall c :: c in i + k + e <==> c in i || c in k + e;
    Regroup5(x, i, Optional(NohzPart(cfg)), Optional(RcuPart(cfg)), k, e);
    DropPart(x + i, Optional(NohzPart(cfg)), Optional(RcuPart(cfg)), k + e);
  }

  lemma ParamsStripped(body: string, cfg: GrubConfig)
    requires Intact(cfg) && NoneOurs(body)
    ensures StripBoot(body + (" " + Params(cfg))) == body + (ISOL + CoreList(cfg.cores) + CstatePart(cfg) + SOFT)
  {
    var s, cs := body + (" " + Params(cfg)), Chunks(body);
    var i, k := ISOL + CoreList(cfg.cores), CstatePart(cfg);
    ParamChunks(cfg);
    ChunksConcat(body, " " + Params(cfg));
    CleanByChunks(s);
    ParamsWithoutBoot(cs, cfg);
    ThreeMore(StripBoot(s), body, cs, i, k, SOFT);
  }

  lemma ThreeMore(out: string, body: string, cs: seq<string>, i: string, k: string, e: string)
    requires cs == Chunks(body) && Chunks(out) == cs + ([i] + [k] + [e])
    ensures out == body + (i + k + e)
  {
    ChunksOfText(body);
    ChunksOfText(out);
    FlattenConcat(cs, [i] + [k] + [e]);
    FlattenThree(i, k, e);
  }

  lemma DropPart(x: seq<string>, nohz: seq<string>, rcu: seq<string>, rest: seq<string>)
    requires forall c :: c in x ==> !(NOHZ <= c) && !(RCU <= c)
    requires forall c :: c in rest ==> !(NOHZ <= c) && !(RCU <= c)
    requires forall c :: c in nohz ==> NOHZ <= c
    requires forall c :: c in rcu ==> RCU <= c
    ensures Without(Without(x + nohz + rcu + rest, NOHZ), RCU) == x + rest
  {
    var left := Without(rcu, NOHZ);
    WithoutConcat(x, nohz, NOHZ);
    WithoutConcat(x + nohz, rcu, NOHZ);
    WithoutConcat(x + nohz + rcu, rest, NOHZ);
    WithoutNothing(x, NOHZ);
    WithoutNothing(rest, NOHZ);
    NothingLeft(nohz, NOHZ);
    assert x + [] == x;
    WithoutMember(rcu, NOHZ);
    WithoutConcat(x, left, RCU);
    WithoutConcat(x + left, rest, RCU);
    WithoutNothing(x, RCU);
    WithoutNothing(rest, RCU);
    NothingLeft(left, RCU);
  }

  lemma {:induction false} NothingLeft(cs: seq<string>, p: string)
    requires forall c :: c in cs ==> p <= c
    ensures Without(cs, p) == []
  {
    if cs == [] {
    } else {
      assert cs[0] in cs && forall c :: c in cs[1..] ==> c in cs;
      NothingLeft(cs[1..], p);
    }
  }

  // ---- One line ------------------------------------------------------------------------------

  lemma LeftText(body: string, a: string, n: string, r: string)
    ensures body + a + n + r == body + (a + n + r)
  {
    Assoc3(body, a, n);
    Assoc3(body, a + n, r);
  }

  /** What apply and teardown make of the GRUB_CMDLINE_LINUX line. */
  lemma ReversedLine(line: string, body: string, tail: string, cfg: GrubConfig, b: Baseline)
    requires Assigns(line, ASSIGN, body, tail) && Whole(line, SOFT) && Intact(cfg) && SafeBaseline(b)
    ensures Assigns(RestoreLine(Inject(StripFive(line), Params(cfg)), b), ASSIGN,
                   StripAll(body) + Left(cfg, b), StripAll(tail))
  {
    Names();
    StripAllQuoted(line, ASSIGN, body, tail);
    var s, t := StripAll(body), StripAll(tail);
    ParamsQuoteFree(cfg);
    InjectQuoted(StripFive(line), s, t, Params(cfg));
    RestoreQuoted(Inject(StripFive(line), Params(cfg)), s + (" " + Params(cfg)), t, b);
    StripAllFixed(body);
    StripAllFixed(tail);
    StripBootFixed(t);
    ParamsStripped(s, cfg);
    LeftText(s, ISOL + CoreList(cfg.cores) + CstatePart(cfg) + SOFT, Written(NOHZ, b.nohz), Written(RCU, b.rcu));
  }

  lemma CutEnd(x: string, left: string, body: string)
    ensures x + left == body <==>
            |left| <= |body| && body[|body| - |left|..] == left && body[..|body| - |left|] == x
  {
    if x + left == body {
      assert |body| - |left| == |x|;
    }
  }

  lemma SameBody(body: string, left: string)
    requires left != "" && left[0] == ' ' && forall c :: c in Chunks(left) ==> Ours(c)
    ensures StripAll(body) + left == body <==> EndsWith(body, left)
  {
    StripAllFixed(body);
    CutEnd(StripAll(body), left, body);
    if EndsWith(body, left) {
      var y := body[..|body| - |left|];
      CutEnd(y, left, body);
      OursGone(y, left);
    }
  }

  lemma QuotedInside(line: string)
    requires Injectable(line)
    ensures Assigns(line, ASSIGN, Inside(line), Behind(line))
  {
    var rest, n := line[|OPEN|..], |Inside(line)|;
    OpenIsAssign();
    assert rest == Inside(line) + ("\"" + Behind(line));
    assert forall i :: 0 <= i < |Behind(line)| ==> Behind(line)[i] == rest[n + 1 + i];
    assert line == OPEN + rest;
    Assoc3(ASSIGN, "\"", Inside(line));
    Assoc3(OPEN, Inside(line), "\"" + Behind(line));
  }

  /** There is no other way to read the line so. */
  lemma InsideIsUnique(line: string, body: string, tail: string)
    requires Assigns(line, ASSIGN, body, tail)
    ensures Injectable(line) && Inside(line) == body && Behind(line) == tail
  {
    var rest := body + ("\"" + tail);
    OpenIsAssign();
    Assoc3(ASSIGN, "\"", body);
    Assoc3(OPEN, body, "\"" + tail);
    assert line == OPEN + rest;
    assert line[|OPEN|..] == rest;
    LastQuoteAt(body, tail);
  }

  lemma QuotedLineReversed(line: string, cfg: GrubConfig, b: Baseline)
    requires Injectable(line) && Whole(line, SOFT) && Intact(cfg) && SafeBaseline(b)
    ensures RestoreLine(Inject(StripFive(line), Params(cfg)), b) == line <==>
            EndsWith(Inside(line), Left(cfg, b)) && NoneOurs(Behind(line))
  {
    var body, tail := Inside(line), Behind(line);
    var out := RestoreLine(Inject(StripFive(line), Params(cfg)), b);
    QuotedInside(line);
    ReversedLine(line, body, tail, cfg, b);
    InsideIsUnique(out, StripAll(body) + Left(cfg, b), StripAll(tail));
    StripAllFixed(tail);
    LeftIsOurs(cfg, b);
    SameBody(body, Left(cfg, b));
  }

  lemma SameInside(line: string, out: string)
    requires Injectable(line) && Injectable(out)
    ensures out == line <==> Inside(out) == Inside(line) && Behind(out) == Behind(line)
  {
    QuotedInside(line);
    QuotedInside(out);
  }

  /** A line in which a quote comes to stand behind the name only by the deletions is written to as well. */
  lemma InjectedStaysInjectable(line: string, cfg: GrubConfig, b: Baseline)
    requires Injectable(line) && Intact(cfg) && SafeBaseline(b)
    ensures Injectable(RestoreLine(Inject(line, Params(cfg)), b))
  {
    var body, tail := Inside(line), Behind(line);
    QuotedInside(line);
    ParamsQuoteFree(cfg);
    InjectQuoted(line, body, tail, Params(cfg));
    RestoreQuoted(Inject(line, Params(cfg)), body + (" " + Params(cfg)), tail, b);
    InsideIsUnique(
      RestoreLine(Inject(line, Params(cfg)), b), RestoredBody(body + (" " + Params(cfg)), b), StripBoot(tail));
  }

  lemma OtherLineReversed(line: string, cfg: GrubConfig, b: Baseline)
    requires !Injectable(line) && Whole(line, SOFT) && Intact(cfg) && SafeBaseline(b)
    ensures RestoreLine(Inject(StripFive(line), Params(cfg)), b) == line <==> NoneOurs(line)
  {
    var out := StripFive(line);
    StripAllLine(line);
    StripAllFixed(line);
    StripBootFixed(out);
    if Injectable(out) {
      InjectedStaysInjectable(out, cfg, b);
    }
  }

  lemma ReversedOne(line: string, cfg: GrubConfig, b: Baseline)
    requires Whole(line, SOFT) && Intact(cfg) && SafeBaseline(b)
    ensures RestoreLine(Inject(StripFive(line), Params(cfg)), b) == line <==> LineReversible(line, cfg, b)
  {
    if Injectable(line) {
      QuotedLineReversed(line, cfg, b);
    } else {
      OtherLineReversed(line, cfg, b);
    }
  }

  // ---- Teardown alone ---------------------------------------------------------------------------

  predicate NoneBoot(cs: seq<string>) {
    forall c :: c in cs ==> !(NOHZ <= c) && !(RCU <= c)
  }

  lemma StripBootOnly(line: string)
    ensures StripBoot(line) == line <==> NoneBoot(Chunks(line))
    ensures NoneBoot(Chunks(StripBoot(line))) && StripBoot(StripBoot(line)) == StripBoot(line)
  {
    StripBootGone(line);
    StripBootGone(StripBoot(line));
  }

  lemma FiveAreGone(line: string)
    requires Whole(line, SOFT)
    ensures NoneOurs(StripFive(line)) && StripBoot(StripFive(line)) == StripFive(line)
  {
    StripFiveIsTokenDeletion(line);
    ForeignMember(Chunks(line));
    StripBootOnly(StripFive(line));
  }

  lemma StripBootGone(line: string)
    ensures StripBoot(line) == line <==> NoneBoot(Chunks(line))
    ensures NoneBoot(Chunks(StripBoot(line)))
  {
    CleanByChunks(line);
    WithoutMember(Chunks(line), NOHZ);
    WithoutMember(Without(Chunks(line), NOHZ), RCU);
    if NoneBoot(Chunks(line)) {
      WithoutNothing(Chunks(line), NOHZ);
      WithoutNothing(Chunks(line), RCU);
      ChunksOfText(line);
      ChunksOfText(StripBoot(line));
    }
  }

  lemma NoneBootJoin(a: seq<string>, b: seq<string>)
    ensures NoneBoot(a + b) <==> NoneBoot(a) && NoneBoot(b)
  {
    assert forall c :: c in a + b <==> c in a || c in b;
  }

  /** What a teardown writes behind the value. */
  function Saved(b: Baseline): string {
    Written(NOHZ, b.nohz) + Written(RCU, b.rcu)
  }

  /** The line reads as a teardown leaves it: the saved parameters at the end of its value and nowhere else. */
  predicate LineRestored(line: string, b: Baseline) {
    if Injectable(line) then EndsWithSaved(Inside(line), Saved(b)) && NoneBoot(Chunks(Behind(line)))
    else NoneBoot(Chunks(line))
  }

  predicate EndsWithSaved(body: string, left: string) {
    |left| <= |body| && body[|body| - |left|..] == left && NoneBoot(Chunks(body[..|body| - |left|]))
  }

  predicate AllBoot(cs: seq<string>) {
    forall c :: c in cs ==> NOHZ <= c || RCU <= c
  }

  lemma SavedTokens(p: string, v: string)
    requires (p == NOHZ || p == RCU) && SafeValue(v)
    ensures var w := Written(p, v); (w == "" || Sep(w[0])) && AllBoot(Chunks(w))
  {
    Patterns();
    OneToken(p, v);
  }

  lemma SavedIsBoot(b: Baseline)
    requires SafeBaseline(b)
    ensures (Saved(b) == "" || Sep(Saved(b)[0])) && AllBoot(Chunks(Saved(b)))
  {
    SavedTokens(NOHZ, b.nohz);
    SavedTokens(RCU, b.rcu);
    ChunksConcat(Written(NOHZ, b.nohz), Written(RCU, b.rcu));
  }

  lemma NothingBootLeft(cs: seq<string>)
    requires AllBoot(cs)
    ensures Without(Without(cs, NOHZ), RCU) == []
  {
    var out := Without(Without(cs, NOHZ), RCU);
    WithoutMember(cs, NOHZ);
    WithoutMember(Without(cs, NOHZ), RCU);
    if out != [] {
      FirstIsMember(out);
    }
  }

  lemma SavedGone(y: string, left: string)
    requires (left == "" || Sep(left[0])) && AllBoot(Chunks(left)) && NoneBoot(Chunks(y))
    ensures StripBoot(y + left) == y
  {
    var a, b := Chunks(y), Chunks(left);
    CleanByChunks(y + left);
    ChunksConcat(y, left);
    WithoutConcat(a, b, NOHZ);
    WithoutConcat(Without(a, NOHZ), Without(b, NOHZ), RCU);
    WithoutNothing(a, NOHZ);
    WithoutNothing(a, RCU);
    NothingBootLeft(b);
    assert a + [] == a;
    ChunksOfText(y);
    ChunksOfText(StripBoot(y + left));
  }

  lemma SameSavedBody(body: string, left: string)
    requires (left == "" || Sep(left[0])) && AllBoot(Chunks(left))
    ensures StripBoot(body) + left == body <==> EndsWithSaved(body, left)
  {
    StripBootOnly(body);
    CutEnd(StripBoot(body), left, body);
    if EndsWithSaved(body, left) {
      var y := body[..|body| - |left|];
      CutEnd(y, left, body);
      SavedGone(y, left);
    }
  }

  lemma ValueLineRestored(line: string, b: Baseline)
    requires Injectable(line) && SafeBaseline(b)
    ensures RestoreLine(line, b) == line <==> LineRestored(line, b)
  {
    var body, tail := Inside(line), Behind(line);
    var out := RestoreLine(line, b);
    QuotedInside(line);
    RestoreQuoted(line, body, tail, b);
    InsideIsUnique(out, RestoredBody(body, b), StripBoot(tail));
    SameInside(line, out);
    StripBootOnly(tail);
    SavedIsBoot(b);
    Assoc3(StripBoot(body), Written(NOHZ, b.nohz), Written(RCU, b.rcu));
    SameSavedBody(body, Saved(b));
  }

  lemma PlainLineRestored(line: string, b: Baseline)
    requires !Injectable(line) && SafeBaseline(b)
    ensures RestoreLine(line, b) == line <==> LineRestored(line, b)
  {
    var out := StripBoot(line);
    StripBootOnly(line);
    if Injectable(out) {
      QuotedInside(out);
      RestoreQuoted(out, Inside(out), Behind(out), b);
      InsideIsUnique(RestoreLine(out, b), RestoredBody(Inside(out), b), StripBoot(Behind(out)));
    }
  }

  /** A teardown leaves a file as it is if and only if every line already reads so. */
  lemma RestoredFixed(file: File, b: Baseline)
    requires SafeBaseline(b)
    ensures Restored(file, b) == file <==> forall i :: 0 <= i < |file| ==> LineRestored(file[i], b)
    ensures Restored(OnLines(StripBoot, file), b) == Restored(file, b)
  {
    var out := Restored(file, b);
    forall i | 0 <= i < |file|
      ensures (out[i] == file[i] <==> LineRestored(file[i], b)) && RestoreLine(StripBoot(file[i]), b) == out[i]
    {
      StripBootOnly(file[i]);
      if Injectable(file[i]) {
        ValueLineRestored(file[i], b);
      } else {
        PlainLineRestored(file[i], b);
      }
    }
    if out == file {
      assert forall i :: 0 <= i < |file| ==> out[i] == file[i];
    }
  }

  // ---- The file ---------------------------------------------------------------------------------

  lemma ReversedAt(file: File, cfg: GrubConfig, b: Baseline)
    requires WholeFile(file) && HasCmdline(file)
    ensures |Restored(ApplyText(file, cfg), b)| == |file|
    ensures forall i :: 0 <= i < |file| ==>
              Restored(ApplyText(file, cfg), b)[i] == RestoreLine(Inject(StripFive(file[i]), Params(cfg)), b)
  {
    GrepUnaffected(file);
  }

  lemma ReversedLines(file: File, out: File, cfg: GrubConfig, b: Baseline)
    requires WholeFile(file) && Intact(cfg) && SafeBaseline(b) && |out| == |file|
    requires forall i :: 0 <= i < |file| ==> out[i] == RestoreLine(Inject(StripFive(file[i]), Params(cfg)), b)
    ensures out == file <==> Reversible(file, cfg, b)
  {
    if out == file {
      forall i | 0 <= i < |file| ensures LineReversible(file[i], cfg, b) {
        ReversedOne(file[i], cfg, b);
      }
    }
    if Reversible(file, cfg, b) {
      forall i | 0 <= i < |file| ensures out[i] == file[i] {
        ReversedOne(file[i], cfg, b);
      }
    }
  }

  /**
   Teardown is documented to restore GRUB to its exact state before benchmon. Behind an apply that rewrote
   the file, with whatever values were saved, it does so if and only if the file has the line and already
   read so: no token of the five parameters anywhere but at the end of that line's value, and there exactly
   the isolcpus, max_cstate and nosoftlockup of the apply and then the saved parameters.
   */
  lemma TeardownRestoresFile(file: File, cfg: GrubConfig, b: Baseline)
    requires WholeFile(file) && Intact(cfg) && SafeBaseline(b)
    ensures Restored(ApplyText(file, cfg), b) == file <==> HasCmdline(file) && Reversible(file, cfg, b)
  {
    GrepUnaffected(file);
    if HasCmdline(file) {
      ReversedAt(file, cfg, b);
      ReversedLines(file, Restored(ApplyText(file, cfg), b), cfg, b);
    }
  }

  lemma CycleActive(s: State, cfg: GrubConfig)
    requires Untouched(s) && cfg.cores != [] && AlreadyActive(Seen(s.cmdline), cfg) && |s.cmdline| <= 2047
    ensures RestoreGrub(AppliedAndBooted(s, cfg, true), true).file == Restored(s.file, Kept(Original(s)))
  {
    ActiveApply(s, cfg, true);
    SavedIsOriginal(s, Original(s));
    KeptIsSafe(Original(s));
    RestoredFixed(s.file, Kept(Original(s)));
  }

  /**
   On the machine: apply, reboot and teardown of an untouched system give the file back if and only if it
   already read so. When the apply finds itself active and writes nothing, that is as a teardown alone
   leaves it.
   */
  lemma CycleRestoresFile(s: State, cfg: GrubConfig)
    requires Untouched(s) && Intact(cfg) && cfg.cores != [] && |s.cmdline| <= 2047
    ensures var t := RestoreGrub(AppliedAndBooted(s, cfg, true), true);
            t.file == s.file <==>
            if AlreadyActive(Seen(s.cmdline), cfg)
            then forall i :: 0 <= i < |s.file| ==> LineRestored(s.file[i], Kept(Original(s)))
            else Reversible(s.file, cfg, Kept(Original(s)))
  {
    KeptIsSafe(Original(s));
    if AlreadyActive(Seen(s.cmdline), cfg) {
      CycleActive(s, cfg);
      RestoredFixed(s.file, Kept(Original(s)));
    } else {
      RewritingApply(s, cfg, true);
      SavedIsOriginal(s, Original(s));
      TeardownRestoresFile(s.file, cfg, Kept(Original(s)));
    }
  }
}
