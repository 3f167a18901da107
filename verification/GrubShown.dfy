/** What the next boot shows behind an apply: the values, how often each parameter, and when the configuration. */
module GrubShown {
  import opened JsonText
  import opened SedScripts
  import opened Grub
  import opened GrubEdits
  import opened GrubValues
  import opened GrubBoot
  import opened GrubBaseline
  import opened GrubMachine
  import opened GrubRuns
  import opened GrubTheorems
  import opened GrubLimits
  import opened GrubNames
  import opened GrubReversal

  // ---- How often it names a parameter ---------------------------------------------

  /** A value whose first token names the parameter, with nothing in front of it that a script could match. */
  function Leads(value: string, p: string): nat
    requires p != ""
  {
    if p[1..] <= value then 1 else 0
  }

  lemma {:induction false} NamingNone(cs: seq<string>, p: string)
    requires Param(p) && forall c :: c in cs ==> c != "" && c[0] == ' ' && !Ours(c)
    ensures Naming(cs, p) == []
  {
    if cs == [] {
    } else {
      var c := cs[0];
      assert c in cs && forall d :: d in cs[1..] ==> d in cs;
      if p[1..] <= Word(c) {
        ReachedIsOurs(c, p);
        Patterns();
        SpaceReached(c, p);
      }
      NamingNone(cs[1..], p);
    }
  }

  lemma StripAllKeepsHead(s: string, x: string)
    requires x != "" && Plain(x)
    ensures x <= StripAll(s) <==> x <= s
  {
    Patterns();
    var l1 := StripParam(s, NOHZ);
    var l2 := StripParam(l1, RCU);
    var l3 := StripParam(l2, ISOL);
    var l4 := StripParam(l3, CSTATE);
    StripKeepsHead(s, x, NOHZ);
    StripKeepsHead(l1, x, RCU);
    StripKeepsHead(l2, x, ISOL);
    StripKeepsHead(l3, x, CSTATE);
    StripKeepsHead(l4, x, SOFT);
  }

  /** Every chunk of a stripped quote-free text but a first one without separator starts with a space. */
  lemma StrippedChunks(v: string)
    requires QuoteFree(v)
    ensures var cs := Chunks(StripAll(v));
            Chunked(cs) && forall c :: c in cs ==> c != "" && c[0] != '"' && !Ours(c)
  {
    StripAllChunks(v);
    ChunksOfText(v);
    ChunksOfText(StripAll(v));
    ForeignMember(Chunks(v));
    QuoteInChunk(Chunks(v));
  }

  lemma SpacedSep(x: string)
    requires x != "" && Sep(x[0])
    ensures Chunks(" " + x) == [" "] + Chunks(x)
  {
    SingleChunk(" ");
    ChunksConcat(" ", x);
  }

  lemma SpacedPlain(x: string)
    requires x != "" && !Sep(x[0])
    ensures Chunks(x) != [] && Chunks(" " + x) == [" " + Chunks(x)[0]] + Chunks(x)[1..]
  {
    var n, s := 1 + PlainLength(x[1..]), " " + x;
    assert s[1..] == x && PlainLength(x) == n;
    assert s[..1 + n] == " " + x[..n] && s[1 + n..] == x[n..];
  }

  lemma NamingAfterSpace(cs: seq<string>, p: string)
    requires Param(p) && forall c :: c in cs ==> c != "" && c[0] == ' ' && !Ours(c)
    ensures Naming([" "] + cs, p) == []
  {
    Patterns();
    NamingConcat([" "], cs, p);
    NamingOne(" ", p);
    NamingNone(cs, p);
    assert Word(" ") == "" && p[1..] != "";
  }

  lemma NamingAfterFirst(c: string, rest: seq<string>, p: string)
    requires Param(p) && forall d :: d in rest ==> d != "" && d[0] == ' ' && !Ours(d)
    ensures |Naming([" " + c] + rest, p)| == if p[1..] <= c then 1 else 0
  {
    NamingConcat([" " + c], rest, p);
    NamingOne(" " + c, p);
    NamingNone(rest, p);
    assert Word(" " + c) == c;
  }

  lemma SpacesBehind(cs: seq<string>)
    requires Chunked(cs) && forall c :: c in cs ==> c != "" && c[0] != '"'
    ensures cs != [] ==> forall c :: c in cs[1..] ==> c[0] == ' '
    ensures cs != [] && Sep(cs[0][0]) ==> forall c :: c in cs ==> c[0] == ' '
  {
    forall i | 1 <= i < |cs| ensures cs[i][0] == ' ' {
      assert Sep(cs[i][0]) && cs[i] in cs;
    }
    if cs != [] {
      assert forall c :: c in cs <==> c == cs[0] || c in cs[1..];
    }
  }

  lemma FirstCharacter(x: string)
    requires x != ""
    ensures Chunks(x) != [] && Chunks(x)[0] != "" && Chunks(x)[0][0] == x[0]
  {
  }

  lemma ParamWord(p: string)
    requires Param(p)
    ensures |p| > 1 && Pattern(p) && Plain(p[1..])
  {
    Patterns();
  }

  lemma EmptyValue(p: string)
    requires Param(p)
    ensures Naming(Chunks(" " + ""), p) == []
  {
    assert " " + "" == " " && [" "] + [] == [" "];
    SingleChunk(" ");
    NamingAfterSpace([], p);
  }

  /** The naming tokens of a text without tokens in reach, behind the space it is joined with. */
  lemma SpacedText(x: string, p: string)
    requires Param(p) && x != "" && Chunked(Chunks(x))
    requires forall c :: c in Chunks(x) ==> c != "" && c[0] != '"' && !Ours(c)
    ensures |Naming(Chunks(" " + x), p)| == Leads(x, p)
  {
    ParamWord(p);
    SpacesBehind(Chunks(x));
    if Sep(x[0]) {
      FirstCharacter(x);
      SpacedSep(x);
      NamingAfterSpace(Chunks(x), p);
      assert p[1..][0] != x[0];
    } else {
      SpacedPlain(x);
      PlainPrefix(x, p[1..]);
      assert forall c :: c in Chunks(x)[1..] ==> c in Chunks(x);
      NamingAfterFirst(Chunks(x)[0], Chunks(x)[1..], p);
    }
  }

  /** Behind the space a variable is joined with, its stripped value names a parameter only at its start. */
  lemma SpacedValue(v: string, p: string)
    requires QuoteFree(v) && Param(p)
    ensures |Naming(Chunks(" " + StripAll(v)), p)| == Leads(v, p)
  {
    ParamWord(p);
    StrippedChunks(v);
    StripAllKeepsHead(v, p[1..]);
    if StripAll(v) == "" {
      EmptyValue(p);
    } else {
      SpacedText(StripAll(v), p);
    }
  }

  lemma JoinedParts(root: string, x: string, params: string, d: string, p: string)
    requires p != ""
    ensures |Naming(Chunks(root + (" " + (x + (" " + params))) + (" " + d)), p)| ==
            |Naming(Chunks(root), p)| + |Naming(Chunks(" " + x), p)| + |Naming(Chunks(" " + params), p)| +
            |Naming(Chunks(" " + d), p)|
  {
    var a, b, c, e := Chunks(root), Chunks(" " + x), Chunks(" " + params), Chunks(" " + d);
    Assoc3(" ", x, " " + params);
    Assoc3(root, " " + x, " " + params);
    ChunksConcat(root, " " + x);
    ChunksConcat(root + (" " + x), " " + params);
    ChunksConcat(root + (" " + x) + (" " + params), " " + d);
    NamingConcat(a, b, p);
    NamingConcat(a + b, c, p);
    NamingConcat(a + b + c, e, p);
  }

  lemma ValueQuoteFree(file: File, assign: string)
    requires FileOk(file) && (assign == ASSIGN || assign == DEFAULT_ASSIGN)
    ensures QuoteFree(ValueIn(file, assign))
  {
    if k :| 0 <= k < |file| && assign <= file[k] {
      LineValue(file, assign, k);
    } else {
      ValueNowhere(file, assign);
    }
  }

  /**
   How often the next boot names each of the five parameters after an apply that rewrites the file: once
   when it is requested, as often as the fixed arguments do, and once more for each of the two variables
   whose value starts with it.
   */
  lemma BootNames(root: string, file: File, cfg: GrubConfig, p: string)
    requires FileOk(file) && Intact(cfg) && Param(p)
    ensures |Naming(Chunks(BootArgs(root, ApplyText(file, cfg))), p)| ==
            |Naming(Chunks(root), p)| + (if Requests(cfg, p) then 1 else 0) +
            Leads(ValueIn(file, ASSIGN), p) + Leads(ValueIn(file, DEFAULT_ASSIGN), p)
  {
    var linux, other := ValueIn(file, ASSIGN), ValueIn(file, DEFAULT_ASSIGN);
    var k := AppliedLinux(file, cfg);
    var body := AppliedDefault(file, cfg);
    LineValue(file, ASSIGN, k);
    ValueQuoteFree(file, ASSIGN);
    ValueQuoteFree(file, DEFAULT_ASSIGN);
    JoinedParts(root, StripAll(linux), Params(cfg), StripAll(other), p);
    SpacedValue(linux, p);
    SpacedValue(other, p);
    ParamChunks(cfg);
    NamingParams(cfg, p);
  }

  /** So it names each exactly as often as requested iff neither root nor the start of a value names it. */
  lemma BootNamesOnce(root: string, file: File, cfg: GrubConfig, p: string)
    requires FileOk(file) && Intact(cfg) && Param(p)
    ensures |Naming(Chunks(BootArgs(root, ApplyText(file, cfg))), p)| == (if Requests(cfg, p) then 1 else 0) <==>
            Naming(Chunks(root), p) == [] && !(p[1..] <= ValueIn(file, ASSIGN)) &&
            !(p[1..] <= ValueIn(file, DEFAULT_ASSIGN))
  {
    BootNames(root, file, cfg, p);
  }

  // ---- With which values ---------------------------------------------------------------

  lemma BootTokens(root: string, file: File, cfg: GrubConfig) returns (a: seq<string>, b: seq<string>)
    requires FileOk(file) && Intact(cfg)
    ensures Chunks(BootArgs(root, ApplyText(file, cfg))) == a + ParamTokens(cfg) + b
  {
    var k := AppliedLinux(file, cfg);
    var body := AppliedDefault(file, cfg);
    var x, d := StripAll(BodyOf(file[k], ASSIGN)), StripAll(body);
    ParamChunks(cfg);
    a, b := JoinedAround(root, x, Params(cfg), d);
  }

  lemma JoinedAround(root: string, x: string, params: string, d: string) returns (a: seq<string>, b: seq<string>)
    ensures Chunks(root + (" " + (x + (" " + params))) + (" " + d)) == a + Chunks(" " + params) + b
  {
    a, b := Chunks(root) + Chunks(" " + x), Chunks(" " + d);
    Assoc3(" ", x, " " + params);
    Assoc3(root, " " + x, " " + params);
    ChunksConcat(root, " " + x);
    ChunksConcat(root + (" " + x), " " + params);
    ChunksConcat(root + (" " + x) + (" " + params), " " + d);
  }

  lemma {:induction false} MatchingFewer(cs: seq<string>, p: string)
    requires |p| > 1 && p[0] == ' '
    ensures |Matching(cs, p)| <= |Naming(cs, p)|
  {
    if cs == [] {
    } else {
      MatchingFewer(cs[1..], p);
      if p <= cs[0] {
        assert Word(cs[0]) == cs[0][1..];
      }
    }
  }

  /** Neither the fixed arguments nor the start of a value name one of the five parameters. */
  predicate NothingNamed(root: string, file: File) {
    forall p :: p in {ISOL, NOHZ, RCU, CSTATE, SOFT} ==>
      Naming(Chunks(root), p) == [] && !(p[1..] <= ValueIn(file, ASSIGN)) && !(p[1..] <= ValueIn(file, DEFAULT_ASSIGN))
  }

  lemma OnlyWritten(a: seq<string>, t: seq<string>, b: seq<string>, p: string)
    requires |Matching(a + t + b, p)| <= |Matching(t, p)|
    ensures Matching(a + t + b, p) == Matching(t, p)
  {
    WithoutConcat(a, t, p);
    WithoutConcat(a + t, b, p);
    var m, n := Matching(a, p), Matching(b, p);
    assert |m| == 0 && |n| == 0;
    assert [] + Matching(t, p) + [] == Matching(t, p);
  }

  lemma WrittenCount(cfg: GrubConfig, p: string)
    requires p in {ISOL, NOHZ, RCU, CSTATE, SOFT}
    ensures |TokensFor(cfg, p)| == if Requests(cfg, p) then 1 else 0
  {
    Distinct();
    PartPrefix(NOHZ, CoreList(cfg.cores));
    PartPrefix(RCU, CoreList(cfg.cores));
  }

  /**
   After an apply that rewrites the file, the next boot gets the requested values: the core list, the
   maximum C-state and the flag, each exactly once unless the system named the parameter itself.
   */
  lemma BootCarries(root: string, file: File, cfg: GrubConfig)
    requires FileOk(file) && Intact(cfg) && NothingNamed(root, file)
    ensures Carries(Chunks(BootArgs(root, ApplyText(file, cfg))), cfg)
  {
    var a, b := BootTokens(root, file, cfg);
    var cs := Chunks(BootArgs(root, ApplyText(file, cfg)));
    forall p | p in {ISOL, NOHZ, RCU, CSTATE, SOFT} ensures Matching(cs, p) == TokensFor(cfg, p) {
      BootNames(root, file, cfg, p);
      ParamWord(p);
      MatchingFewer(cs, p);
      TokensOf(cfg, p);
      WrittenCount(cfg, p);
      OnlyWritten(a, ParamTokens(cfg), b, p);
    }
    CarriesWritten(cs, cfg);
  }

  // ---- What it shows ---------------------------------------------------------------

  lemma FileAfter(s: State, cfg: GrubConfig, writable: bool, regen: bool)
    ensures var t := SetupGrub(s, cfg, writable, regen);
            t.present == s.present &&
            t.file == (if cfg.cores == [] || !s.present then s.file
                       else if AlreadyActive(Seen(s.cmdline), cfg) then OnLines(StripBoot, s.file)
                       else ApplyText(s.file, cfg))
  {
  }

  lemma BootAfter(s: State, cfg: GrubConfig, writable: bool, regen: bool)
    requires s.present && cfg.cores != []
    ensures SetupGrub(s, cfg, writable, regen).boot ==
            if TakesEffect(s, cfg, regen) then BootArgs(s.root, ApplyText(s.file, cfg)) else s.boot
  {
  }

  /** What an apply that finds itself active, or else rewrites the file, lets the next grub.cfg show. */
  function Shown(cfg: GrubConfig, active: bool): Baseline {
    if active then Baseline("", "") else Requested(cfg)
  }

  /** Behind an apply a new grub.cfg shows nothing of the two parameters when it was taken for active. */
  lemma FileBoots(s: State, cfg: GrubConfig, writable: bool, regen: bool)
    requires s.present && FileOk(s.file) && Clean(s.root) && Intact(cfg) && cfg.cores != []
    ensures var t := SetupGrub(s, cfg, writable, regen);
            FileOk(t.file) && ShowsOnly(BootArgs(s.root, t.file), Shown(cfg, AlreadyActive(Seen(s.cmdline), cfg)))
  {
    FileAfter(s, cfg, writable, regen);
    ApplyKeepsFile(s.file, cfg);
    if AlreadyActive(Seen(s.cmdline), cfg) {
      StrippedBoot(s.root, s.file);
    } else {
      AppliedBoot(s.root, s.file, cfg);
    }
  }

  lemma BootedFrame(s: State, cfg: GrubConfig, writable: bool)
    requires s.present && cfg.cores != []
    ensures var once := AppliedAndBooted(s, cfg, writable);
            once.present && once.root == s.root &&
            once.cmdline == (if AlreadyActive(Seen(s.cmdline), cfg) then s.boot
                             else BootArgs(s.root, ApplyText(s.file, cfg)))
  {
    if AlreadyActive(Seen(s.cmdline), cfg) {
      ActiveApply(s, cfg, writable);
    } else {
      RewritingApply(s, cfg, writable);
    }
  }

  // ---- What the next boot shows after any apply ---------------------------------------

  /** The command line shows this configuration: both parameters as requested, and isolcpus with the list. */
  predicate ShowsConfig(cmdline: string, cfg: GrubConfig) {
    ShowsOnly(cmdline, Requested(cfg)) && ISOL + CoreList(cfg.cores) in Chunks(cmdline)
  }

  /** The apply gets past the already-active test, and update-grub succeeds. */
  predicate TakesEffect(s: State, cfg: GrubConfig, regen: bool) {
    !AlreadyActive(Seen(s.cmdline), cfg) && regen
  }

  /**
   In every legal run, the next boot after an apply shows its configuration if and only if the apply
   rewrote the file and grub.cfg, or the boot configuration showed it before: an apply that is taken for
   active leaves grub.cfg alone, whatever that says.
   */
  lemma BootAfterApply(s: State, steps: seq<Step>, cfg: GrubConfig, writable: bool, regen: bool)
    requires Untouched(s) && Legal(s, steps) && Intact(cfg) && cfg.cores != []
    ensures var t := Run(s, steps);
            ShowsConfig(SetupGrub(t, cfg, writable, regen).boot, cfg) <==>
            TakesEffect(t, cfg, regen) || ShowsConfig(t.boot, cfg)
  {
    var t := Run(s, steps);
    BaselineIsOriginal(s, steps);
    if TakesEffect(t, cfg, regen) {
      AppliedBoot(t.root, t.file, cfg);
      RewritingApply(t, cfg, writable);
    }
  }
}
