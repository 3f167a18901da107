/** The files the scripts can handle, which every edit keeps, and what a command line shows of a parameter. */
module GrubRuns {
  import opened Text
  import opened JsonText
  import opened SedScripts
  import opened Grub
  import opened GrubEdits
  import opened GrubBoot
  import opened GrubBaseline

  // ---- Files the scripts can handle ----------------------------------------

  /** `nosoftlockup` only as a whole token, no key in a place the scripts cannot reach, assignments quoted. */
  predicate LineOk(line: string) {
    && Whole(line, SOFT)
    && CleanChunks(Chunks(line))
    && (ASSIGN <= line ==> WellQuoted(line, ASSIGN))
    && (DEFAULT_ASSIGN <= line ==> WellQuoted(line, DEFAULT_ASSIGN))
  }

  predicate AtMostOne(file: File, assign: string) {
    forall i, j :: 0 <= i < |file| && 0 <= j < |file| && assign <= file[i] && assign <= file[j] ==> i == j
  }

  predicate FileOk(file: File) {
    && (forall i :: 0 <= i < |file| ==> LineOk(file[i]))
    && HasCmdline(file) && AtMostOne(file, ASSIGN) && AtMostOne(file, DEFAULT_ASSIGN)
  }

  /** A line edited without changing what it assigns to. */
  predicate Edited(line: string, edited: string) {
    LineOk(edited) && (ASSIGN <= edited <==> ASSIGN <= line) && (DEFAULT_ASSIGN <= edited <==> DEFAULT_ASSIGN <= line)
  }

  lemma EditedFile(file: File, edited: File)
    requires FileOk(file) && |edited| == |file|
    requires forall i :: 0 <= i < |file| ==> Edited(file[i], edited[i])
    ensures FileOk(edited)
  {
  }

  lemma Names()
    ensures Name(ASSIGN) && Name(DEFAULT_ASSIGN)
  {
  }

  lemma LinuxIsNotDefault(line: string)
    requires OPEN <= line
    ensures ASSIGN <= line && !(DEFAULT_ASSIGN <= line)
  {
    OpenIsAssign();
    PrefixOfPrefix(ASSIGN, OPEN, line);
    assert line[18] == OPEN[18] == '=' && DEFAULT_ASSIGN[18] == '_';
  }

  lemma StripEdits(line: string, p: string)
    requires LineOk(line) && Pattern(p)
    ensures Edited(line, StripParam(line, p))
  {
    Names();
    StripIsTokenDeletion(line, p);
    WithoutMember(Chunks(line), p);
    StripKeepsHead(line, ASSIGN, p);
    StripKeepsHead(line, DEFAULT_ASSIGN, p);
    if ASSIGN <= line {
      var body, tail := BodyOf(line, ASSIGN), TailOf(line, ASSIGN);
      StripQuoted(line, ASSIGN, body, tail, p);
      SplitIsUnique(StripParam(line, p), ASSIGN, StripParam(body, p), StripParam(tail, p));
    }
    if DEFAULT_ASSIGN <= line {
      var body, tail := BodyOf(line, DEFAULT_ASSIGN), TailOf(line, DEFAULT_ASSIGN);
      StripQuoted(line, DEFAULT_ASSIGN, body, tail, p);
      SplitIsUnique(StripParam(line, p), DEFAULT_ASSIGN, StripParam(body, p), StripParam(tail, p));
    }
  }

  lemma StripBootEdits(line: string)
    requires LineOk(line)
    ensures Edited(line, StripBoot(line))
  {
    Patterns();
    StripEdits(line, NOHZ);
    StripEdits(StripParam(line, NOHZ), RCU);
  }

  lemma StripFiveEdits(line: string)
    requires LineOk(line)
    ensures Edited(line, StripFive(line))
  {
    Patterns();
    var l2 := StripBoot(line);
    var l3 := StripParam(l2, ISOL);
    var l4 := StripParam(l3, CSTATE);
    StripBootEdits(line);
    StripEdits(l2, ISOL);
    StripEdits(l3, CSTATE);
    StripEdits(l4, SOFT);
    LiteralIsTokenDeletion(l4, SOFT);
  }

  /** A token that may be injected: it hides no key and no part of ` nosoftlockup`. */
  predicate TokenOk(c: string) {
    (SOFT <= c ==> c == SOFT) && (NOHZ <= c || RCU <= c || Clean(c))
  }

  lemma InjectTokens(line: string, add: string)
    requires forall c :: c in Chunks(" " + add) ==> TokenOk(c)
    requires Whole(line, SOFT) && CleanChunks(Chunks(line)) && Injectable(line)
    ensures Whole(Inject(line, add), SOFT) && CleanChunks(Chunks(Inject(line, add)))
  {
    var a, q := InjectShape(line, add);
    forall c | c in Chunks(Inject(line, add)) ensures TokenOk(c) {
      assert c in a + q || c in Chunks(" " + add);
      if c in a + q { assert c in Chunks(line); }
    }
  }

  lemma InjectEdits(line: string, add: string)
    requires LineOk(line) && QuoteFree(add)
    requires forall c :: c in Chunks(" " + add) ==> TokenOk(c)
    ensures Edited(line, Inject(line, add))
  {
    if ASSIGN <= line {
      var body, tail := BodyOf(line, ASSIGN), TailOf(line, ASSIGN);
      InjectQuoted(line, body, tail, add);
      SplitIsUnique(Inject(line, add), ASSIGN, body + (" " + add), tail);
      OpenOfSplit(line, body, tail);
      OpenOfSplit(Inject(line, add), body + (" " + add), tail);
      LinuxIsNotDefault(line);
      LinuxIsNotDefault(Inject(line, add));
      if Injectable(line) {
        InjectTokens(line, add);
      }
    } else {
      InjectElsewhere(line, add);
    }
  }

  lemma OpenOfSplit(line: string, body: string, tail: string)
    requires Splits(line, ASSIGN, body, tail)
    ensures OPEN <= line
  {
    OpenIsAssign();
    Assoc3(ASSIGN, "\"", body);
  }

  // ---- The injected texts ---------------------------------------------------

  lemma {:induction false} NoEquals(cores: seq<i32>)
    ensures '=' !in JoinCores(cores) && '=' !in CoreList(cores)
  {
    if cores == [] {
    } else if |cores| == 1 {
      DecPlain(cores[0]);
    } else {
      NoEquals(cores[..|cores| - 1]);
      DecPlain(cores[|cores| - 1]);
    }
  }

  /** `name=value` with another name and no `=` in the value does not contain the key. */
  lemma OtherName(name: string, v: string, key: string)
    requires '=' !in name && '=' !in v && key != ""
    requires |key| > |name| || name[|name| - |key|..] != key
    ensures !Contains(name + "=" + v, key + "=")
  {
    var s, e, n := name + "=" + v, |name|, key + "=";
    assert forall i :: 0 <= i < |name| ==> s[i] == name[i] && name[i] in name;
    assert forall i :: e < i < |s| ==> s[i] == v[i - e - 1] && v[i - e - 1] in v;
    if |key| <= |name| {
      assert s[e + 1 - |n|..e + 1] == name[|name| - |key|..] + "=";
      assert (name[|name| - |key|..] + "=")[..|key|] == name[|name| - |key|..];
      assert n[..|key|] == key;
    }
    OnlyKey(s, e, n);
  }

  lemma Spelled()
    ensures NOHZ_KEY == "nohz_full" + "=" && RCU_KEY == "rcu_nocbs" + "="
    ensures ISOL == " isolcpus" + "=" && CSTATE == " processor.max_cstate" + "="
  {
  }

  lemma OtherIsolation(v: string)
    requires '=' !in v
    ensures Clean(ISOL + v)
  {
    Spelled();
    var name := " isolcpus";
    assert name[0..] == name && name[0] == ' ';
    OtherName(name, v, "nohz_full");
    OtherName(name, v, "rcu_nocbs");
  }

  lemma OtherCstate(v: string)
    requires '=' !in v
    ensures Clean(CSTATE + v)
  {
    Spelled();
    var name := " processor.max_cstate";
    assert name[12..][0] == 'a';
    OtherName(name, v, "nohz_full");
    OtherName(name, v, "rcu_nocbs");
  }

  lemma OtherBoot(v: string)
    requires '=' !in v
    ensures !Contains(RCU_KEY + v, NOHZ_KEY) && !Contains(NOHZ_KEY + v, RCU_KEY)
  {
    Spelled();
    var rcu, nohz := "rcu_nocbs", "nohz_full";
    assert rcu[0..] == rcu && nohz[0..] == nohz && rcu[0] != nohz[0];
    OtherName(rcu, v, nohz);
    OtherName(nohz, v, rcu);
  }

  lemma OtherSoft()
    ensures Clean(SOFT)
  {
    OnlyKey(SOFT, 0, NOHZ_KEY);
    OnlyKey(SOFT, 0, RCU_KEY);
  }

  lemma PartsOk(cfg: GrubConfig)
    ensures TokenOk(ISOL + CoreList(cfg.cores)) && TokenOk(CstatePart(cfg)) && TokenOk(SOFT)
    ensures cfg.nohz ==> TokenOk(NohzPart(cfg))
    ensures cfg.rcu ==> TokenOk(RcuPart(cfg))
  {
    PartShapes(cfg);
    NoEquals(cfg.cores);
    OtherIsolation(CoreList(cfg.cores));
    DecPlain(if cfg.maxCstate >= 0 then cfg.maxCstate else 0);
    OtherCstate(Dec(if cfg.maxCstate >= 0 then cfg.maxCstate else 0));
    OtherSoft();
    PartPrefix(NOHZ, CoreList(cfg.cores));
    PartPrefix(RCU, CoreList(cfg.cores));
  }

  lemma ParamTokensOk(cfg: GrubConfig)
    ensures forall c :: c in ParamTokens(cfg) ==> TokenOk(c)
  {
    PartsOk(cfg);
    forall t | t in ParamTokens(cfg) ensures TokenOk(t) {
      var nohz, rcu := Optional(NohzPart(cfg)), Optional(RcuPart(cfg));
      MemberOfFive(ISOL + CoreList(cfg.cores), nohz, rcu, CstatePart(cfg), SOFT, t);
    }
  }

  lemma ParamsQuoteFree(cfg: GrubConfig)
    requires Intact(cfg)
    ensures QuoteFree(Params(cfg))
  {
    ParamTokenShapes(cfg);
    QuoteFreeTokens(ParamTokens(cfg));
    ParamText(cfg);
    var p := Params(cfg);
    assert forall i :: 0 <= i < |p| ==> p[i] == (" " + p)[i + 1];
  }

  lemma ParamsOk(cfg: GrubConfig)
    requires Intact(cfg)
    ensures QuoteFree(Params(cfg))
    ensures forall c :: c in Chunks(" " + Params(cfg)) ==> TokenOk(c)
  {
    ParamsQuoteFree(cfg);
    ParamChunks(cfg);
    ParamTokensOk(cfg);
  }

  lemma PartPrefix(p: string, v: string)
    requires |p| <= 127
    ensures p <= Take(p + v, 127)
  {
  }

  lemma {:induction false} QuoteFreeTokens(ts: seq<string>)
    requires forall c :: c in ts ==> TokenShape(c)
    ensures QuoteFree(Flatten(ts))
  {
    if ts == [] {
    } else {
      var c := ts[0];
      assert c in ts && forall d :: d in ts[1..] ==> d in ts;
      QuoteFreeTokens(ts[1..]);
      assert forall i :: 1 <= i < |c| ==> c[i] == c[1..][i - 1];
    }
  }

  // ---- The value a boot shows ------------------------------------------------

  /** A value the scripts and the JSON text carry unchanged: one word without shell or `sed` metacharacters. */
  predicate SafeValue(v: string) {
    Plain(v) && (forall c :: c in v ==> c !in {'\n', '=', '&', '\\', '|', '\''})
  }

  predicate SafeBaseline(b: Baseline) {
    SafeValue(b.nohz) && SafeValue(b.rcu)
  }

  /** The command line gives the two parameters exactly these values. */
  predicate Shows(cmdline: string, b: Baseline) {
    FullValue(cmdline, NOHZ_KEY) == b.nohz && FullValue(cmdline, RCU_KEY) == b.rcu
  }

  /** ...and mentions each of them exactly once, or not at all when its value is empty. */
  predicate ShowsOnly(cmdline: string, b: Baseline) {
    && Shows(cmdline, b)
    && Matching(Chunks(cmdline), NOHZ) == (if b.nohz == "" then [] else [NOHZ + b.nohz])
    && Matching(Chunks(cmdline), RCU) == (if b.rcu == "" then [] else [RCU + b.rcu])
    && (b.nohz == "" ==> !Contains(cmdline, NOHZ_KEY))
    && (b.rcu == "" ==> !Contains(cmdline, RCU_KEY))
  }

  predicate Key(key: string) {
    key != "" && Plain(key) && ' ' !in key
  }

  lemma NoMatch(s: string, key: string)
    requires Key(key) && !Contains(s, key)
    ensures Matching(Chunks(s), " " + key) == []
  {
    var cs := Chunks(s);
    ChunksOfText(s);
    ContainsChunk(cs, key);
    forall c | c in cs ensures !(" " + key <= c) {
      if " " + key <= c {
        StartsWithKey(c, key);
      }
    }
    WithoutNothing(cs, " " + key);
  }

  lemma StartsWithKey(c: string, key: string)
    requires Key(key) && " " + key <= c
    ensures Contains(c, key)
  {
    var rest := c[|key| + 1..];
    assert c == " " + key + rest;
    assert key <= key;
    ContainsPart(" ", key, rest, key);
  }

  lemma ValueBehind(x: string, v: string, rest: string, key: string)
    requires Key(key) && !Contains(x, key)
    requires ' ' !in v && '\n' !in v && (rest == "" || rest[0] == ' ')
    ensures FullValue(x + (" " + (key + (v + rest))), key) == v
  {
    var t := key + (v + rest);
    SkipWord(x, " " + t, key, ' ');
    SkipForeign(" ", t, key);
    assert t[|key|..] == v + rest;
    UpToStops(v, rest, {' ', '\n'});
  }

  lemma AbsentValue(x: string, rest: string, key: string)
    requires Key(key) && !Contains(x, key) && !Contains(rest, key) && (rest == "" || rest[0] == ' ')
    ensures FullValue(x + rest, key) == "" && Matching(Chunks(x + rest), " " + key) == []
    ensures !Contains(x + rest, key)
  {
    if rest == "" {
      assert x + rest == x;
    } else {
      SkipWord(x, rest, key, ' ');
    }
    NoMatch(x + rest, key);
  }

  lemma TokensBetween(x: string, p: string, c: string, rest: string)
    requires Chunk(c) && Sep(c[0]) && p <= c && (rest == "" || Sep(rest[0]))
    requires Matching(Chunks(x), p) == [] && Matching(Chunks(rest), p) == []
    ensures Matching(Chunks(x + c + rest), p) == [c]
  {
    SingleChunk(c);
    ChunksConcat(x, c);
    ChunksConcat(x + c, rest);
    WithoutConcat(Chunks(x), [c], p);
    WithoutConcat(Chunks(x) + [c], Chunks(rest), p);
    assert Matching([c], p) == [c];
  }

  /** A parameter written once between texts that do not mention it is shown with its value. */
  lemma ShownValue(x: string, key: string, v: string, rest: string)
    requires Key(key) && !Contains(x, key) && !Contains(rest, key)
    requires SafeValue(v) && (rest == "" || rest[0] == ' ')
    ensures var s := x + Written(" " + key, v) + rest;
            FullValue(s, key) == v && (v == "" ==> !Contains(s, key)) &&
            Matching(Chunks(s), " " + key) == (if v == "" then [] else [" " + key + v])
  {
    if v == "" {
      assert x + Written(" " + key, v) + rest == x + rest;
      AbsentValue(x, rest, key);
    } else {
      var c := " " + key + v;
      OnePiece(x, key, v, rest);
      assert ' ' !in v by { assert forall i :: 0 <= i < |v| ==> v[i] != ' '; }
      ValueBehind(x, v, rest, key);
      NoMatch(x, key);
      NoMatch(rest, key);
      WrittenChunk(key, v);
      TokensBetween(x, " " + key, c, rest);
    }
  }

  lemma WrittenChunk(key: string, v: string)
    requires Key(key) && Plain(v)
    ensures Chunk(" " + key + v) && " " + key <= " " + key + v
  {
    assert (" " + key + v)[1..] == key + v;
    PlainConcat(key, v);
  }

  lemma OnePiece(x: string, key: string, v: string, rest: string)
    ensures x + (" " + key + v) + rest == x + (" " + (key + (v + rest)))
  {
    Assoc3(x, " " + key + v, rest);
    Assoc3(" " + key, v, rest);
    Assoc3(" ", key, v + rest);
  }

  /** The text of an optional parameter. */
  function Written(p: string, v: string): string {
    if v == "" then "" else p + v
  }
}
