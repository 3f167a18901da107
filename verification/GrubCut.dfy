/** Parameter texts that do not fit `char params[512]`: when the next apply still removes what was written. */
module GrubCut {
  import opened Text
  import opened SedScripts
  import opened Grub
  import opened GrubEdits
  import opened GrubBoot
  import opened GrubRuns
  import opened GrubNames

  // ---- The tokens that are left --------------------------------------------------

  /** The tokens of the first `n` characters: the last one may be cut. */
  function TakeTokens(ts: seq<string>, n: nat): seq<string> {
    if ts == [] || n == 0 then []
    else if |ts[0]| <= n then [ts[0]] + TakeTokens(ts[1..], n - |ts[0]|)
    else [ts[0][..n]]
  }

  /** What an apply really injects: `params` holds 511 characters, and a space goes in front of them. */
  function CutTokens(cfg: GrubConfig): seq<string> {
    TakeTokens(ParamTokens(cfg), 512)
  }

  /** Every token that is left, the cut one included, is one a script deletes. */
  predicate Removable(cfg: GrubConfig) {
    AllOurs(CutTokens(cfg))
  }

  predicate AllOurs(cs: seq<string>) {
    forall c :: c in cs ==> Ours(c)
  }

  /** A token an apply may write: it starts with a space and hides no longer ` nosoftlockup`. */
  predicate WrittenShape(c: string) {
    Chunk(c) && c[0] == ' ' && (SOFT <= c ==> c == SOFT)
  }

  lemma CutShape(c: string, n: nat)
    requires TokenShape(c) && 0 < n < |c|
    ensures WrittenShape(c[..n])
  {
    var t := c[..n];
    assert forall i :: 0 <= i < |t[1..]| ==> t[1..][i] == c[1..][i];
    assert SOFT <= t ==> SOFT <= c;
  }

  lemma {:induction false} TakeTokensText(ts: seq<string>, n: nat)
    requires forall c :: c in ts ==> TokenShape(c)
    ensures Flatten(TakeTokens(ts, n)) == Take(Flatten(ts), n)
    ensures forall c :: c in TakeTokens(ts, n) ==> WrittenShape(c)
  {
    if ts == [] || n == 0 {
    } else {
      var c, rest := ts[0], ts[1..];
      assert c in ts && forall d :: d in rest ==> d in ts;
      if |c| <= n {
        TakeTokensText(rest, n - |c|);
        FlattenMore(c, TakeTokens(rest, n - |c|));
      } else {
        CutShape(c, n);
        FlattenOne(c[..n]);
      }
    }
  }

  lemma FlattenMore(c: string, rest: seq<string>)
    ensures Flatten([c] + rest) == c + Flatten(rest)
  {
    assert ([c] + rest)[1..] == rest;
  }

  /** What an apply injects, cut or not, is exactly these tokens. */
  lemma CutChunks(cfg: GrubConfig)
    ensures Chunks(" " + Params(cfg)) == CutTokens(cfg)
    ensures forall c :: c in CutTokens(cfg) ==> WrittenShape(c)
  {
    var ts, full := ParamTokens(cfg), FullParams(cfg);
    ParamTokenShapes(cfg);
    ParamText(cfg);
    TakeTokensText(ts, 512);
    assert " " + Take(full, 511) == Take(" " + full, 512);
    var cs := CutTokens(cfg);
    assert forall i :: 0 <= i < |cs| ==> WrittenShape(cs[i]);
    ChunksOfFlatten(cs);
  }

  lemma NoneForeign(cs: seq<string>)
    requires forall c :: c in cs ==> c != ""
    ensures Flatten(Foreign(cs)) == "" <==> forall c :: c in cs ==> Ours(c)
  {
    ForeignMember(cs);
    var out := Foreign(cs);
    if out != [] {
      assert out[0] in out;
      assert Flatten(out) == out[0] + Flatten(out[1..]);
    }
    if c :| c in cs && !Ours(c) {
      assert c in out;
    }
  }

  // ---- One line -------------------------------------------------------------------

  lemma InjectInjectable(line: string, add: string)
    requires Injectable(line)
    ensures Injectable(Inject(line, add)) && |Inject(line, add)| == |line| + 1 + |add|
  {
    var out := Inject(line, add);
    var k := |OPEN| + LastQuote(line[|OPEN|..]).value;
    assert out[..k] == line[..k] && OPEN == line[..k][..|OPEN|];
    assert OPEN <= out;
    assert out[|out| - (|line| - k)] == line[k] == '"';
    assert out[|OPEN|..][k - |OPEN| + 1 + |add|] == '"';
  }

  lemma InjectWhole(line: string, cfg: GrubConfig)
    requires Whole(line, SOFT)
    ensures Whole(Inject(line, Params(cfg)), SOFT)
  {
    if Injectable(line) {
      var a, q := InjectShape(line, Params(cfg));
      CutChunks(cfg);
      forall c | c in a + CutTokens(cfg) + q && SOFT <= c ensures c == SOFT {
        assert c in a + q || c in CutTokens(cfg);
      }
    }
  }

  /** What the scripts of the next apply leave of a written line: the line before and every token out of reach. */
  lemma StrippedAgain(line: string, cfg: GrubConfig)
    requires Whole(line, SOFT) && Injectable(StripFive(line))
    ensures var l := StripFive(line);
            |StripFive(Inject(l, Params(cfg)))| == |l| + |Flatten(Foreign(CutTokens(cfg)))| &&
            (Removable(cfg) ==> StripFive(Inject(l, Params(cfg))) == l)
  {
    var l := StripFive(line);
    var a, q := InjectShape(l, Params(cfg));
    CutChunks(cfg);
    StripFiveIdempotent(line);
    InjectWhole(l, cfg);
    StripFiveIsTokenDeletion(l);
    StripFiveIsTokenDeletion(Inject(l, Params(cfg)));
    ForeignOfParts(a, CutTokens(cfg), q);
    FlattenParts(Foreign(a), Foreign(CutTokens(cfg)), Foreign(q));
    if Removable(cfg) {
      ForeignOfOurs(CutTokens(cfg));
    }
  }

  lemma ForeignOfParts(a: seq<string>, t: seq<string>, q: seq<string>)
    ensures Foreign(a + t + q) == Foreign(a) + Foreign(t) + Foreign(q)
    ensures Foreign(a + q) == Foreign(a) + Foreign(q)
  {
    ForeignConcat(a, t);
    ForeignConcat(a + t, q);
    ForeignConcat(a, q);
  }

  lemma FlattenParts(a: seq<string>, t: seq<string>, q: seq<string>)
    ensures |Flatten(a + t + q)| == |Flatten(a + q)| + |Flatten(t)|
    ensures t == [] ==> a + t + q == a + q
  {
    FlattenConcat(a, t);
    FlattenConcat(a + t, q);
    FlattenConcat(a, q);
  }

  /** The second apply makes of a line what it alone would, iff nothing was injected or all of it can be removed. */
  lemma SecondOnLine(line: string, a: GrubConfig, b: GrubConfig)
    requires Whole(line, SOFT)
    ensures var l := StripFive(line);
            Inject(StripFive(Inject(l, Params(a))), Params(b)) == Inject(l, Params(b)) <==>
            !Injectable(l) || Removable(a)
  {
    var l := StripFive(line);
    StripFiveIdempotent(line);
    if Injectable(l) {
      var again := StripFive(Inject(l, Params(a)));
      StrippedAgain(line, a);
      InjectWhole(l, a);
      InjectInjectable(l, Params(a));
      StripFiveInjectable(Inject(l, Params(a)));
      InjectInjectable(again, Params(b));
      InjectInjectable(l, Params(b));
      CutChunks(a);
      NoneForeign(CutTokens(a));
    }
  }

  // ---- The file ----------------------------------------------------------------------

  lemma InjectKeepsHead(line: string, add: string)
    requires ASSIGN <= line
    ensures ASSIGN <= Inject(line, add)
  {
    if Injectable(line) {
      InjectInjectable(line, add);
      OpenIsAssign();
      PrefixOfPrefix(ASSIGN, OPEN, Inject(line, add));
    }
  }

  lemma WrittenAt(file: File, a: GrubConfig)
    requires WholeFile(file) && HasCmdline(file)
    ensures var once := ApplyText(file, a);
            |once| == |file| && forall i :: 0 <= i < |file| ==> once[i] == Inject(StripFive(file[i]), Params(a))
  {
    GrepUnaffected(file);
  }

  lemma WrittenOk(line: string, a: GrubConfig)
    requires Whole(line, SOFT)
    ensures var once := Inject(StripFive(line), Params(a));
            Whole(once, SOFT) && (ASSIGN <= line ==> ASSIGN <= once)
  {
    AssignChunk();
    StripFiveIdempotent(line);
    InjectWhole(StripFive(line), a);
    StripFiveKeepsHead(line, ASSIGN);
    if ASSIGN <= line {
      InjectKeepsHead(StripFive(line), Params(a));
    }
  }

  lemma OnceInto(file: File, once: File, a: GrubConfig)
    requires WholeFile(file) && HasCmdline(file) && |once| == |file|
    requires forall i :: 0 <= i < |file| ==> once[i] == Inject(StripFive(file[i]), Params(a))
    ensures WholeFile(once) && HasCmdline(once)
  {
    forall i | 0 <= i < |file| ensures Whole(once[i], SOFT) && (ASSIGN <= file[i] ==> ASSIGN <= once[i]) {
      WrittenOk(file[i], a);
    }
    var k :| 0 <= k < |file| && ASSIGN <= file[k];
    assert ASSIGN <= once[k];
  }

  lemma AllLines(twice: File, alone: File, written: seq<bool>, removable: bool)
    requires |twice| == |alone| == |written|
    requires forall i :: 0 <= i < |twice| ==> (twice[i] == alone[i] <==> !written[i] || removable)
    ensures twice == alone <==> removable || forall i :: 0 <= i < |written| ==> !written[i]
  {
    if i :| 0 <= i < |written| && written[i] {
      assert twice[i] == alone[i] <==> removable;
    }
  }

  lemma WrittenLines(file: File) returns (written: seq<bool>)
    ensures |written| == |file| && forall i :: 0 <= i < |file| ==> written[i] == Injectable(StripFive(file[i]))
    ensures InjectableLines(file) == 0 <==> forall i :: 0 <= i < |written| ==> !written[i]
  {
    if file == [] {
      written := [];
    } else {
      var rest := WrittenLines(file[1..]);
      written := [Injectable(StripFive(file[0]))] + rest;
      assert forall i :: 0 <= i < |rest| ==> written[i + 1] == rest[i];
      assert forall i :: 1 <= i < |written| ==> written[i] == rest[i - 1];
    }
  }

  lemma SecondInto(file: File, a: GrubConfig, b: GrubConfig)
    requires WholeFile(file) && HasCmdline(file)
    ensures ApplyText(ApplyText(file, a), b) == ApplyText(file, b) <==> Removable(a) || InjectableLines(file) == 0
  {
    var once, alone := ApplyText(file, a), ApplyText(file, b);
    WrittenAt(file, a);
    WrittenAt(file, b);
    OnceInto(file, once, a);
    WrittenAt(once, b);
    var twice := ApplyText(once, b);
    var written := WrittenLines(file);
    forall i | 0 <= i < |file| ensures twice[i] == alone[i] <==> !written[i] || Removable(a) {
      SecondOnLine(file[i], a, b);
    }
    AllLines(twice, alone, written, Removable(a));
  }

  lemma OwnLineWhole(cfg: GrubConfig)
    ensures Whole(OwnLine(cfg), SOFT) && Injectable(OwnLine(cfg)) && ASSIGN <= OwnLine(cfg)
  {
    var q := "\"";
    CutChunks(cfg);
    AssignChunk();
    OwnLineText(Params(cfg));
    var first := QuotedChunks(ASSIGN, q, Params(cfg), CutTokens(cfg));
    OwnLineInjectable(OwnLine(cfg), Params(cfg));
    WholeByParts(OwnLine(cfg), ASSIGN, first, CutTokens(cfg), q);
  }

  lemma WholeByParts(line: string, assign: string, first: string, ts: seq<string>, q: string)
    requires ts != [] && Chunks(line) == [assign] + [first] + ts[1..] + [q]
    requires assign == ASSIGN && first != "" && first[0] == '"' && q == ['"']
    requires forall c :: c in ts ==> WrittenShape(c)
    ensures Whole(line, SOFT)
  {
    assert SOFT[0] == ' ' && ASSIGN[0] == 'G';
    forall c | c in Chunks(line) && SOFT <= c ensures c == SOFT {
      assert c[0] == SOFT[0] && (c == assign || c == first || c in ts[1..] || c == q);
      assert c in ts && WrittenShape(c);
    }
  }

  lemma OwnLineAgain(a: GrubConfig, b: GrubConfig)
    ensures Inject(StripFive(OwnLine(a)), Params(b)) != OwnLine(b)
    ensures ASSIGN <= StripFive(OwnLine(a))
  {
    var own := StripFive(OwnLine(a));
    OwnLineWhole(a);
    AssignChunk();
    StripFiveInjectable(OwnLine(a));
    StripFiveKeepsHead(OwnLine(a), ASSIGN);
    InjectInjectable(own, Params(b));
  }

  lemma OwnLineLast(file: File, b: GrubConfig)
    requires WholeFile(file) && !HasCmdline(file)
    ensures ApplyText(file, b) == OnLines(StripFive, file) + [OwnLine(b)]
  {
    GrepUnaffected(file);
  }

  lemma SecondBehind(file: File, a: GrubConfig, b: GrubConfig)
    requires WholeFile(file) && !HasCmdline(file)
    ensures ApplyText(ApplyText(file, a), b) != ApplyText(file, b)
  {
    var n, once := |file|, ApplyText(file, a);
    OwnLineLast(file, a);
    OwnLineLast(file, b);
    OwnLineAgain(a, b);
    assert OnLines(StripFive, once)[n] == StripFive(OwnLine(a));
    assert ApplyText(once, b)[n] == Inject(StripFive(OwnLine(a)), Params(b));
    assert ApplyText(file, b)[n] == OwnLine(b);
  }

  /**
   "Last apply wins" for two applies of any configurations, cut or not: it holds if and only if the file
   has the line, and what the first one wrote, if anything, can be removed again.
   */
  lemma SecondApplyWinsWhenCut(file: File, a: GrubConfig, b: GrubConfig)
    requires WholeFile(file)
    ensures ApplyText(ApplyText(file, a), b) == ApplyText(file, b) <==>
            HasCmdline(file) && (Removable(a) || InjectableLines(file) == 0)
  {
    if HasCmdline(file) {
      SecondInto(file, a, b);
    } else {
      SecondBehind(file, a, b);
    }
  }

  // ---- Which texts can be removed -----------------------------------------------------

  lemma {:induction false} TakeBoth(a: seq<string>, b: seq<string>, n: nat)
    requires forall c :: c in a ==> c != ""
    ensures |Flatten(a)| <= n ==> TakeTokens(a + b, n) == a + TakeTokens(b, n - |Flatten(a)|)
    ensures |Flatten(a)| >= n ==> TakeTokens(a + b, n) == TakeTokens(a, n)
  {
    if a == [] {
      assert a + b == b && [] + TakeTokens(b, n) == TakeTokens(b, n);
    } else {
      assert a[0] in a && forall c :: c in a[1..] ==> c in a;
      assert (a + b)[0] == a[0] && (a + b)[1..] == a[1..] + b;
      assert |Flatten(a)| == |a[0]| + |Flatten(a[1..])|;
      if n > 0 && |a[0]| <= n {
        TakeBoth(a[1..], b, n - |a[0]|);
        TakeFirst(a + b, n);
        TakeFirst(a, n);
        if |Flatten(a)| <= n {
          ConsOf(a, TakeTokens(b, n - |Flatten(a)|));
        }
      }
    }
  }

  lemma TakeFirst(ts: seq<string>, n: nat)
    requires ts != [] && 0 < n && |ts[0]| <= n
    ensures TakeTokens(ts, n) == [ts[0]] + TakeTokens(ts[1..], n - |ts[0]|)
  {
  }

  lemma ConsOf(a: seq<string>, b: seq<string>)
    requires a != []
    ensures a + b == [a[0]] + (a[1..] + b)
  {
  }

  /** The tokens in front of the maximum C-state, which the cut reaches at its end at most. */
  function HeadTokens(cfg: GrubConfig): seq<string> {
    [ISOL + CoreList(cfg.cores)] + Optional(NohzPart(cfg)) + Optional(RcuPart(cfg))
  }

  lemma HeadLength(cfg: GrubConfig)
    ensures |Flatten(HeadTokens(cfg))| == |FullParams(cfg)| - |CstatePart(cfg)| - 12
    ensures |Flatten([ISOL + CoreList(cfg.cores)] + Optional(NohzPart(cfg)))| <= 392
    ensures forall c :: c in HeadTokens(cfg) ==> c != "" && Ours(c)
  {
    var i, n, r := [ISOL + CoreList(cfg.cores)], Optional(NohzPart(cfg)), Optional(RcuPart(cfg));
    ParamText(cfg);
    FlattenOne(ISOL + CoreList(cfg.cores));
    FlattenOne(NohzPart(cfg));
    FlattenOne(CstatePart(cfg));
    FlattenOne(SOFT);
    FlattenConcat(i, n);
    FlattenConcat(i + n + r, [CstatePart(cfg)]);
    FlattenConcat(i + n + r + [CstatePart(cfg)], [SOFT]);
    ParamTokenShapes(cfg);
    assert forall c :: c in HeadTokens(cfg) ==> c in ParamTokens(cfg);
  }

  /** Behind the head, `m` characters are left for the C-state and ` nosoftlockup`. */
  lemma EndTokens(k: string, m: nat, v: string)
    requires k == CSTATE + v && v != ""
    ensures AllOurs(TakeTokens([k] + [SOFT], m)) <==> !(0 < m < 22) && !(0 < m - |k| < 13)
  {
    var ts, rest := [k] + [SOFT], [SOFT];
    assert ts[0] == k && ts[1..] == rest && rest[1..] == [] && |CSTATE| == 22 && |SOFT| == 13;
    if m == 0 {
    } else if m < |k| {
      CutState(k, v, m);
      assert TakeTokens(ts, m) == [k[..m]];
    } else {
      TakeFirst(ts, m);
      assert CSTATE <= k;
      EndToken(m - |k|);
      OursJoin([k], TakeTokens(rest, m - |k|));
    }
  }

  lemma EndToken(m: nat)
    ensures AllOurs(TakeTokens([SOFT], m)) <==> !(0 < m < 13)
  {
    var rest := [SOFT];
    assert rest[1..] == [] && |SOFT| == 13;
    if 0 < m < 13 {
      CutSoft(m);
      assert TakeTokens(rest, m) == [SOFT[..m]];
      assert SOFT[..m] in TakeTokens(rest, m);
    } else if m >= 13 {
      TakeFirst(rest, m);
      assert TakeTokens(rest, m) == [SOFT];
    }
  }

  lemma OursJoin(a: seq<string>, b: seq<string>)
    requires AllOurs(a)
    ensures AllOurs(a + b) <==> AllOurs(b)
  {
    assert forall c :: c in a + b <==> c in a || c in b;
  }

  lemma CutState(k: string, v: string, m: nat)
    requires k == CSTATE + v && 0 < m < |k|
    ensures Ours(k[..m]) <==> m >= 22
  {
    var c := k[..m];
    assert |CSTATE| == 22;
    if m >= 22 {
      assert c[..22] == CSTATE;
    } else {
      assert c == CSTATE[..m];
      if m > 1 {
        assert c[1] == 'p';
      }
    }
  }

  lemma CutSoft(m: nat)
    requires 0 < m < 13
    ensures !Ours(SOFT[..m])
  {
    var c := SOFT[..m];
    if m > 3 {
      assert c[1] == 'n' && c[3] == 's';
    }
  }

  lemma CutInside(ts: seq<string>, r: string, n: nat)
    requires |Flatten(ts)| < n <= |Flatten(ts)| + |r| && forall c :: c in ts ==> c != "" && Ours(c)
    requires RCU <= r && n - |Flatten(ts)| >= 11
    ensures forall c :: c in TakeTokens(ts + [r], n) ==> Ours(c)
  {
    TakeBoth(ts, [r], n);
    var m := n - |Flatten(ts)|;
    assert RCU <= r[..m];
    assert [r][1..] == [];
  }

  lemma TokensSplit(cfg: GrubConfig)
    ensures ParamTokens(cfg) == HeadTokens(cfg) + ([CstatePart(cfg)] + [SOFT])
  {
  }

  lemma BehindHead(ts: seq<string>, head: seq<string>, end: seq<string>, n: nat)
    requires ts == head + end && AllOurs(head) && (forall c :: c in head ==> c != "") && |Flatten(head)| <= n
    ensures AllOurs(TakeTokens(ts, n)) <==> AllOurs(TakeTokens(end, n - |Flatten(head)|))
  {
    TakeBoth(head, end, n);
    OursJoin(head, TakeTokens(end, n - |Flatten(head)|));
  }

  lemma WholeHead(cfg: GrubConfig, x: nat)
    requires x == |Flatten(HeadTokens(cfg))| <= 512
    ensures Removable(cfg) <==> AllOurs(TakeTokens([CstatePart(cfg)] + [SOFT], 512 - x))
  {
    HeadLength(cfg);
    TokensSplit(cfg);
    BehindHead(ParamTokens(cfg), HeadTokens(cfg), [CstatePart(cfg)] + [SOFT], 512);
  }

  lemma CutHead(cfg: GrubConfig)
    requires |Flatten(HeadTokens(cfg))| > 512
    ensures Removable(cfg)
  {
    var i, n, k := [ISOL + CoreList(cfg.cores)], Optional(NohzPart(cfg)), [CstatePart(cfg)];
    HeadLength(cfg);
    TokensSplit(cfg);
    TakeBoth(HeadTokens(cfg), k + [SOFT], 512);
    FlattenConcat(i + n, Optional(RcuPart(cfg)));
    FlattenOne(RcuPart(cfg));
    PartPrefix(RCU, CoreList(cfg.cores));
    assert cfg.rcu;
    assert forall c :: c in i + n ==> c in HeadTokens(cfg);
    CutInside(i + n, RcuPart(cfg), 512);
  }

  /**
   Which parameter texts leave nothing behind, by their length: all but those cut inside ` nosoftlockup`
   or inside the name of the C-state parameter.
   */
  lemma RemovableByLength(cfg: GrubConfig)
    ensures var n, d := |FullParams(cfg)|, |CstatePart(cfg)|;
            Removable(cfg) <==> !(512 <= n <= 523) && !(503 + d <= n <= 523 + d)
  {
    var state := Dec(if cfg.maxCstate >= 0 then cfg.maxCstate else 0);
    var x := |Flatten(HeadTokens(cfg))|;
    HeadLength(cfg);
    if x <= 512 {
      DecPlain(if cfg.maxCstate >= 0 then cfg.maxCstate else 0);
      WholeHead(cfg, x);
      EndTokens(CstatePart(cfg), 512 - x, state);
    } else {
      CutHead(cfg);
    }
  }
}
