/** The values an apply writes, by the names the kernel reads: each parameter once, with the requested value. */
module GrubValues {
  import opened Text
  import opened SedScripts
  import opened Grub
  import opened GrubEdits

  /** The core ids between the commas, in order. */
  predicate Lists(text: string, cores: seq<i32>) {
    var parts := Split(text, ',');
    |parts| == |cores| && forall i :: 0 <= i < |cores| ==> ParseI32(parts[i]) == Some(cores[i])
  }

  /** The first 116 characters of the list. */
  predicate ListToken(tokens: seq<string>, name: string, on: bool, list: string) {
    tokens == if on then [" " + name + "=" + Take(list, 116)] else []
  }

  /**
   Among these tokens, each of the five parameters occurs exactly once, or not at all when it was not
   requested: the first 255 characters of a text that lists the cores, the first 116 of them for the two
   optional ones, the maximum C-state as a number, 0 when it is negative, and the flag.
   */
  ghost predicate Carries(cs: seq<string>, cfg: GrubConfig) {
    exists full: string, state: string :: IsolationIs(cs, cfg, full, Take(full, 255)) && StateIs(cs, cfg, state)
  }

  predicate IsolationIs(cs: seq<string>, cfg: GrubConfig, full: string, list: string) {
    && (cfg.cores != [] ==> Lists(full, cfg.cores))
    && Matching(cs, " isolcpus=") == [" isolcpus=" + list]
    && ListToken(Matching(cs, " nohz_full="), "nohz_full", cfg.nohz, list)
    && ListToken(Matching(cs, " rcu_nocbs="), "rcu_nocbs", cfg.rcu, list)
  }

  predicate StateIs(cs: seq<string>, cfg: GrubConfig, state: string) {
    && ParseI64(state) == Some(if cfg.maxCstate >= 0 then cfg.maxCstate else 0)
    && Matching(cs, " processor.max_cstate=") == [" processor.max_cstate=" + state]
    && Matching(cs, " nosoftlockup") == [" nosoftlockup"]
  }

  // ---- The core list ---------------------------------------------------------------

  lemma {:induction false} JoinedLists(cores: seq<i32>)
    requires cores != []
    ensures Lists(JoinCores(cores), cores)
  {
    var init, last := cores[..|cores| - 1], cores[|cores| - 1];
    assert cores == init + [last];
    ParseDec(last);
    DecPlain(last);
    if init == [] {
      SplitNone(Dec(last), ',');
    } else {
      JoinedLists(init);
      JoinMore(init, last);
      SplitLast(JoinCores(init), Dec(last), ',');
    }
  }

  // ---- The tokens --------------------------------------------------------------------

  lemma Literals()
    ensures ISOL == " isolcpus=" && NOHZ == " nohz_full=" && RCU == " rcu_nocbs="
    ensures CSTATE == " processor.max_cstate=" && SOFT == " nosoftlockup"
  {
  }

  lemma MatchingOne(c: string, p: string)
    ensures Matching([c], p) == if p <= c then [c] else []
  {
  }

  lemma {:induction false} MatchingNone(cs: seq<string>, p: string)
    requires forall c :: c in cs ==> !(p <= c)
    ensures Matching(cs, p) == []
  {
    if cs == [] {
    } else {
      assert cs[0] in cs && forall c :: c in cs[1..] ==> c in cs;
      MatchingNone(cs[1..], p);
    }
  }

  /** Two of the patterns differ behind their space. */
  lemma Apart(p: string, q: string, v: string, n: nat)
    requires p in {ISOL, NOHZ, RCU, CSTATE, SOFT} && q in {ISOL, NOHZ, RCU, CSTATE, SOFT} && |q| <= n
    ensures p <= Take(q + v, n) <==> p == q
  {
    if p == q {
      assert Take(q + v, n)[..|q|] == q;
    } else {
      KeepsApart(p, q, v, n, if (p == NOHZ || p == SOFT) && (q == NOHZ || q == SOFT) then 3 else 1);
    }
  }

  lemma MatchingToken(p: string, q: string, v: string, n: nat)
    requires p in {ISOL, NOHZ, RCU, CSTATE, SOFT} && q in {ISOL, NOHZ, RCU, CSTATE, SOFT} && |q| <= n
    ensures Matching([Take(q + v, n)], p) == if p == q then [Take(q + v, n)] else []
  {
    Apart(p, q, v, n);
    MatchingOne(Take(q + v, n), p);
  }

  lemma MatchingOptional(p: string, q: string, v: string, on: bool)
    requires p in {ISOL, NOHZ, RCU, CSTATE, SOFT} && q in {ISOL, NOHZ, RCU, CSTATE, SOFT} && 0 < |q| <= 127
    ensures Matching(Optional(if on then Take(q + v, 127) else ""), p) ==
            if on && p == q then [Take(q + v, 127)] else []
  {
    if on {
      MatchingToken(p, q, v, 127);
    }
  }

  lemma MatchingFive(
    a: seq<string>, b: seq<string>, c: seq<string>, d: seq<string>, e: seq<string>, p: string)
    ensures Matching(a + b + c + d + e, p) ==
            Matching(a, p) + Matching(b, p) + Matching(c, p) + Matching(d, p) + Matching(e, p)
  {
    WithoutConcat(a, b, p);
    WithoutConcat(a + b, c, p);
    WithoutConcat(a + b + c, d, p);
    WithoutConcat(a + b + c + d, e, p);
  }

  function TokensFor(cfg: GrubConfig, p: string): seq<string> {
    if p == ISOL then [ISOL + CoreList(cfg.cores)]
    else if p == NOHZ then Optional(NohzPart(cfg))
    else if p == RCU then Optional(RcuPart(cfg))
    else if p == CSTATE then [CstatePart(cfg)]
    else [SOFT]
  }

  lemma FixedTokens(p: string, list: string, state: string)
    requires p in {ISOL, NOHZ, RCU, CSTATE, SOFT}
    ensures Matching([ISOL + list], p) == if p == ISOL then [ISOL + list] else []
    ensures Matching([CSTATE + state], p) == if p == CSTATE then [CSTATE + state] else []
    ensures Matching([SOFT], p) == if p == SOFT then [SOFT] else []
  {
    MatchingToken(p, ISOL, list, |ISOL + list|);
    MatchingToken(p, CSTATE, state, |CSTATE + state|);
    MatchingToken(p, SOFT, "", |SOFT|);
    assert SOFT + "" == SOFT;
  }

  lemma OptionalTokens(cfg: GrubConfig, p: string)
    requires p in {ISOL, NOHZ, RCU, CSTATE, SOFT}
    ensures Matching(Optional(NohzPart(cfg)), p) == if p == NOHZ then Optional(NohzPart(cfg)) else []
    ensures Matching(Optional(RcuPart(cfg)), p) == if p == RCU then Optional(RcuPart(cfg)) else []
  {
    MatchingOptional(p, NOHZ, CoreList(cfg.cores), cfg.nohz);
    MatchingOptional(p, RCU, CoreList(cfg.cores), cfg.rcu);
  }

  lemma TokensOf(cfg: GrubConfig, p: string)
    requires p in {ISOL, NOHZ, RCU, CSTATE, SOFT}
    ensures Matching(ParamTokens(cfg), p) == TokensFor(cfg, p)
  {
    var list := CoreList(cfg.cores);
    var state := Dec(if cfg.maxCstate >= 0 then cfg.maxCstate else 0);
    FixedTokens(p, list, state);
    OptionalTokens(cfg, p);
    MatchingFive([ISOL + list], Optional(NohzPart(cfg)), Optional(RcuPart(cfg)), [CstatePart(cfg)], [SOFT], p);
  }

  lemma ShortToken(p: string, name: string, list: string, on: bool)
    requires p == " " + name + "=" && |p| == 11
    ensures ListToken(Optional(if on then Take(p + list, 127) else ""), name, on, list)
  {
    assert Take(p + list, 127) == p + Take(list, 116);
  }

  lemma StateNumber(cfg: GrubConfig)
    ensures ParseI64(Dec(if cfg.maxCstate >= 0 then cfg.maxCstate else 0)) ==
            Some(if cfg.maxCstate >= 0 then cfg.maxCstate else 0)
  {
    ParseDec(if cfg.maxCstate >= 0 then cfg.maxCstate else 0);
  }

  /** The chunks match each pattern as the injected ones do. */
  predicate AsWritten(cs: seq<string>, cfg: GrubConfig) {
    forall p :: p in {ISOL, NOHZ, RCU, CSTATE, SOFT} ==> Matching(cs, p) == TokensFor(cfg, p)
  }

  lemma IsolationToken(cs: seq<string>, list: string)
    requires Matching(cs, ISOL) == [ISOL + list]
    ensures Matching(cs, " isolcpus=") == [" isolcpus=" + list]
  {
    Literals();
  }

  lemma NohzToken(cs: seq<string>, cfg: GrubConfig)
    requires Matching(cs, NOHZ) == Optional(NohzPart(cfg))
    ensures ListToken(Matching(cs, " nohz_full="), "nohz_full", cfg.nohz, CoreList(cfg.cores))
  {
    Literals();
    assert " " + "nohz_full" + "=" == NOHZ && |NOHZ| == 11;
    ShortToken(NOHZ, "nohz_full", CoreList(cfg.cores), cfg.nohz);
  }

  lemma RcuToken(cs: seq<string>, cfg: GrubConfig)
    requires Matching(cs, RCU) == Optional(RcuPart(cfg))
    ensures ListToken(Matching(cs, " rcu_nocbs="), "rcu_nocbs", cfg.rcu, CoreList(cfg.cores))
  {
    Literals();
    assert " " + "rcu_nocbs" + "=" == RCU && |RCU| == 11;
    ShortToken(RCU, "rcu_nocbs", CoreList(cfg.cores), cfg.rcu);
  }

  lemma WrittenIsolation(cs: seq<string>, cfg: GrubConfig)
    requires Matching(cs, ISOL) == [ISOL + CoreList(cfg.cores)]
    requires Matching(cs, NOHZ) == Optional(NohzPart(cfg)) && Matching(cs, RCU) == Optional(RcuPart(cfg))
    ensures IsolationIs(cs, cfg, JoinCores(cfg.cores), Take(JoinCores(cfg.cores), 255))
  {
    IsolationToken(cs, CoreList(cfg.cores));
    NohzToken(cs, cfg);
    RcuToken(cs, cfg);
    if cfg.cores != [] {
      JoinedLists(cfg.cores);
    }
  }

  lemma WrittenState(cs: seq<string>, cfg: GrubConfig)
    requires Matching(cs, CSTATE) == [CstatePart(cfg)] && Matching(cs, SOFT) == [SOFT]
    ensures StateIs(cs, cfg, Dec(if cfg.maxCstate >= 0 then cfg.maxCstate else 0))
  {
    Literals();
    StateNumber(cfg);
  }

  lemma Distinct()
    ensures ISOL != NOHZ && ISOL != RCU && ISOL != CSTATE && ISOL != SOFT && NOHZ != RCU && NOHZ != CSTATE
    ensures NOHZ != SOFT && RCU != CSTATE && RCU != SOFT && CSTATE != SOFT
  {
    assert ISOL[1] == 'i' && NOHZ[3] == 'h' && RCU[1] == 'r' && CSTATE[1] == 'p' && SOFT[3] == 's' && SOFT[1] == 'n';
  }

  /** Tokens that match as the injected ones do carry the configuration. */
  lemma CarriesWritten(cs: seq<string>, cfg: GrubConfig)
    requires AsWritten(cs, cfg)
    ensures Carries(cs, cfg)
  {
    Distinct();
    WrittenIsolation(cs, cfg);
    WrittenState(cs, cfg);
  }

  /** The parameter text of an apply, as long as it fits its buffer. */
  lemma ParamsCarry(cfg: GrubConfig)
    requires Intact(cfg)
    ensures Carries(Chunks(" " + Params(cfg)), cfg)
  {
    ParamChunks(cfg);
    ForeignAround([], [], cfg);
    assert [] + ParamTokens(cfg) + [] == ParamTokens(cfg);
    CarriesWritten(ParamTokens(cfg), cfg);
  }

  lemma PatternsAreOurs(c: string, p: string)
    requires p in {ISOL, NOHZ, RCU, CSTATE, SOFT} && !Ours(c)
    ensures !(p <= c)
  {
  }

  lemma MatchingAround(a: seq<string>, t: seq<string>, q: seq<string>, p: string)
    requires (forall c :: c in a ==> !(p <= c)) && forall c :: c in q ==> !(p <= c)
    ensures Matching(a + t + q, p) == Matching(t, p)
  {
    MatchingNone(a, p);
    MatchingNone(q, p);
    WithoutConcat(a, t, p);
    WithoutConcat(a + t, q, p);
  }

  lemma ForeignAround(a: seq<string>, q: seq<string>, cfg: GrubConfig)
    requires forall c :: c in a || c in q ==> !Ours(c)
    ensures AsWritten(a + ParamTokens(cfg) + q, cfg)
  {
    forall p | p in {ISOL, NOHZ, RCU, CSTATE, SOFT}
      ensures Matching(a + ParamTokens(cfg) + q, p) == TokensFor(cfg, p)
    {
      forall c | c in a || c in q ensures !(p <= c) {
        PatternsAreOurs(c, p);
      }
      MatchingAround(a, ParamTokens(cfg), q, p);
      TokensOf(cfg, p);
    }
  }

  /** A written line carries it, whatever stood there before. */
  lemma LineCarries(line: string, cfg: GrubConfig)
    requires Whole(line, SOFT) && Injectable(StripFive(line)) && Intact(cfg)
    ensures Carries(Chunks(Inject(StripFive(line), Params(cfg))), cfg)
  {
    var l := StripFive(line);
    var a, q := InjectShape(l, Params(cfg));
    StripFiveIsTokenDeletion(line);
    ForeignMember(Chunks(line));
    ParamChunks(cfg);
    assert forall c :: c in a || c in q ==> c in Chunks(l);
    ForeignAround(a, q, cfg);
    CarriesWritten(a + ParamTokens(cfg) + q, cfg);
  }

  /** Every line `sed` can inject into once the five scripts have run carries it. */
  ghost predicate LinesCarry(file: File, out: File, cfg: GrubConfig) {
    |out| == |file| &&
    forall i :: 0 <= i < |file| && Injectable(StripFive(file[i])) ==> Carries(Chunks(out[i]), cfg)
  }

  /** ...and so does every line of the file an apply writes to. */
  lemma FileCarries(file: File, cfg: GrubConfig)
    requires WholeFile(file) && HasCmdline(file) && Intact(cfg)
    ensures LinesCarry(file, ApplyText(file, cfg), cfg)
  {
    GrepUnaffected(file);
    forall i | 0 <= i < |file| && Injectable(StripFive(file[i]))
      ensures Carries(Chunks(ApplyText(file, cfg)[i]), cfg)
    {
      LineCarries(file[i], cfg);
    }
  }

  lemma MayCarry(file: File, cfg: GrubConfig)
    ensures WholeFile(file) && HasCmdline(file) && Intact(cfg) ==> LinesCarry(file, ApplyText(file, cfg), cfg)
  {
    if WholeFile(file) && HasCmdline(file) && Intact(cfg) {
      FileCarries(file, cfg);
    }
  }
}
