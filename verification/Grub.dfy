/** What setup.c does to the text of /etc/default/grub: the parameter text and the edits of a file. */
module Grub {
  import opened Text
  import opened SedScripts

  const NOHZ := " nohz_full="
  const RCU := " rcu_nocbs="
  const ISOL := " isolcpus="
  const CSTATE := " processor.max_cstate="
  const SOFT := " nosoftlockup"

  const ASSIGN := "GRUB_CMDLINE_LINUX="
  const OPEN := "GRUB_CMDLINE_LINUX=\""

  /** The part of a setup configuration that reaches the boot parameters. */
  datatype GrubConfig = GrubConfig(cores: seq<i32>, nohz: bool, rcu: bool, maxCstate: i32)

  /** /etc/default/grub, line by line. */
  type File = seq<string>

  // ---- The parameter text ------------------------------------------------

  function JoinCores(cores: seq<i32>): string {
    if cores == [] then ""
    else if |cores| == 1 then Dec(cores[0])
    else JoinCores(cores[..|cores| - 1]) + "," + Dec(cores[|cores| - 1])
  }

  /** `char cores[256]`. */
  function CoreList(cores: seq<i32>): string {
    Take(JoinCores(cores), 255)
  }

  /** `char nohz_part[128]`. */
  function NohzPart(cfg: GrubConfig): string {
    if cfg.nohz then Take(NOHZ + CoreList(cfg.cores), 127) else ""
  }

  /** `char rcu_part[128]`. */
  function RcuPart(cfg: GrubConfig): string {
    if cfg.rcu then Take(RCU + CoreList(cfg.cores), 127) else ""
  }

  function CstatePart(cfg: GrubConfig): string {
    CSTATE + Dec(if cfg.maxCstate >= 0 then cfg.maxCstate else 0)
  }

  function FullParams(cfg: GrubConfig): string {
    "isolcpus=" + CoreList(cfg.cores) + NohzPart(cfg) + RcuPart(cfg) + CstatePart(cfg) + SOFT
  }

  /** `char params[512]`. */
  function Params(cfg: GrubConfig): string {
    Take(FullParams(cfg), 511)
  }

  /** The parameter text fits its buffer, so nothing is cut off behind it. */
  predicate Intact(cfg: GrubConfig) {
    |FullParams(cfg)| <= 511
  }

  /** ...that is, nothing of it is cut. */
  lemma IntactExactly(cfg: GrubConfig)
    ensures Params(cfg) == FullParams(cfg) <==> |FullParams(cfg)| <= 511
    ensures Params(cfg) == FullParams(cfg) <==> Intact(cfg)
  {
  }

  // ---- Edits of one line -------------------------------------------------

  /** setup.c:168-171 and setup.c:234-237. */
  function StripBoot(line: string): string {
    StripParam(StripParam(line, NOHZ), RCU)
  }

  /** setup.c:278-282. */
  function StripIsolation(line: string): string {
    StripLiteral(StripParam(StripParam(line, ISOL), CSTATE), SOFT)
  }

  function StripFive(line: string): string {
    StripIsolation(StripBoot(line))
  }

  function LastQuote(s: string): (r: Option<nat>)
    ensures r.Some? ==> r.value < |s| && s[r.value] == '"' && forall i :: r.value < i < |s| ==> s[i] != '"'
    ensures r.None? ==> forall i :: 0 <= i < |s| ==> s[i] != '"'
  {
    if s == "" then None
    else if s[|s| - 1] == '"' then Some(|s| - 1)
    else LastQuote(s[..|s| - 1])
  }

  // `s|^GRUB_CMDLINE_LINUX="\(.*\)"|GRUB_CMDLINE_LINUX="\1 <add>"|`: the group is greedy, so it ends at
  // the last quote of the line.
  function Inject(line: string, add: string): string {
    if OPEN <= line && LastQuote(line[|OPEN|..]).Some? then
      var k := |OPEN| + LastQuote(line[|OPEN|..]).value;
      line[..k] + (" " + add) + line[k..]
    else line
  }

  // ---- Edits of the file -------------------------------------------------

  function OnLines(f: string -> string, file: File): (r: File)
    ensures |r| == |file| && forall i :: 0 <= i < |r| ==> r[i] == f(file[i])
  {
    seq(|file|, i requires 0 <= i < |file| => f(file[i]))
  }

  /** `grep -q '^GRUB_CMDLINE_LINUX='`. */
  predicate HasCmdline(file: File) {
    exists i :: 0 <= i < |file| && ASSIGN <= file[i]
  }

  /** setup.c:284-291: inject into the existing line, or append a line of our own. */
  function InjectOrAppend(file: File, params: string): File {
    if HasCmdline(file) then OnLines(l => Inject(l, params), file)
    else file + [OPEN + params + "\""]
  }

  /** The text an apply leaves when it gets past the already-active test. */
  function ApplyText(file: File, cfg: GrubConfig): File {
    InjectOrAppend(OnLines(StripFive, file), Params(cfg))
  }

  // ---- The five patterns -------------------------------------------------

  lemma PatternOf(p: string, word: string)
    requires p == " " + word && Plain(word)
    ensures Pattern(p)
  {
    assert p[1..] == word;
  }

  lemma BootPatterns()
    ensures Pattern(NOHZ) && Pattern(RCU)
  {
    PatternOf(NOHZ, "nohz_full=");
    PatternOf(RCU, "rcu_nocbs=");
  }

  lemma IsolationPatterns()
    ensures Pattern(ISOL) && Pattern(CSTATE)
  {
    PatternOf(ISOL, "isolcpus=");
    PatternOf(CSTATE, "processor.max_cstate=");
  }

  lemma Patterns()
    ensures Pattern(NOHZ) && Pattern(RCU) && Pattern(ISOL) && Pattern(CSTATE) && Pattern(SOFT)
  {
    BootPatterns();
    IsolationPatterns();
    PatternOf(SOFT, "nosoftlockup");
  }

  /** The chunks none of the five scripts deletes. */
  function Foreign(cs: seq<string>): seq<string> {
    Without(Without(Without(Without(Without(cs, NOHZ), RCU), ISOL), CSTATE), SOFT)
  }

  lemma ForeignConcat(a: seq<string>, b: seq<string>)
    ensures Foreign(a + b) == Foreign(a) + Foreign(b)
  {
    var a1, b1 := Without(a, NOHZ), Without(b, NOHZ);
    var a2, b2 := Without(a1, RCU), Without(b1, RCU);
    var a3, b3 := Without(a2, ISOL), Without(b2, ISOL);
    WithoutConcat(a, b, NOHZ);
    WithoutConcat(a1, b1, RCU);
    WithoutConcat(a2, b2, ISOL);
    WithoutConcat(a3, b3, CSTATE);
    WithoutConcat(Without(a3, CSTATE), Without(b3, CSTATE), SOFT);
  }

  predicate Ours(c: string) {
    NOHZ <= c || RCU <= c || ISOL <= c || CSTATE <= c || SOFT <= c
  }

  lemma ForeignMember(cs: seq<string>)
    ensures forall c :: c in Foreign(cs) <==> c in cs && !Ours(c)
  {
    var c1 := Without(cs, NOHZ);
    var c2 := Without(c1, RCU);
    var c3 := Without(c2, ISOL);
    var c4 := Without(c3, CSTATE);
    WithoutMember(cs, NOHZ);
    WithoutMember(c1, RCU);
    WithoutMember(c2, ISOL);
    WithoutMember(c3, CSTATE);
    WithoutMember(c4, SOFT);
  }

  lemma ForeignFixed(cs: seq<string>)
    requires forall c :: c in cs ==> !Ours(c)
    ensures Foreign(cs) == cs
  {
    WithoutNothing(cs, NOHZ);
    WithoutNothing(cs, RCU);
    WithoutNothing(cs, ISOL);
    WithoutNothing(cs, CSTATE);
    WithoutNothing(cs, SOFT);
  }

  /** One apply's five scripts together delete exactly the tokens benchmon writes. */
  lemma StripFiveIsTokenDeletion(line: string)
    requires Whole(line, SOFT)
    ensures Chunks(StripFive(line)) == Foreign(Chunks(line))
    ensures StripFive(line) == Flatten(Foreign(Chunks(line)))
  {
    Patterns();
    var l1 := StripParam(line, NOHZ);
    var l2 := StripParam(l1, RCU);
    var l3 := StripParam(l2, ISOL);
    var l4 := StripParam(l3, CSTATE);
    StripIsTokenDeletion(line, NOHZ);
    StripIsTokenDeletion(l1, RCU);
    StripIsTokenDeletion(l2, ISOL);
    StripIsTokenDeletion(l3, CSTATE);
    StripIsTokenDeletion(l4, SOFT);
    WithoutMember(Chunks(line), NOHZ);
    WithoutMember(Chunks(l1), RCU);
    WithoutMember(Chunks(l2), ISOL);
    WithoutMember(Chunks(l3), CSTATE);
    assert Whole(l4, SOFT);
    LiteralIsTokenDeletion(l4, SOFT);
    ChunksOfText(StripFive(line));
  }

  // ---- The injected tokens ------------------------------------------------

  lemma PlainConcat(a: string, b: string)
    ensures Plain(a + b) <==> Plain(a) && Plain(b)
  {
    assert forall i :: 0 <= i < |a| ==> (a + b)[i] == a[i];
    assert forall i :: 0 <= i < |b| ==> (a + b)[|a| + i] == b[i];
  }

  lemma DecPlain(n: int)
    ensures Plain(Dec(n)) && Dec(n) != ""
    ensures ',' !in Dec(n) && '=' !in Dec(n)
  {
    ParseDec(n);
    assert forall i :: 0 <= i < |Dec(n)| ==> NumeralChar(Dec(n)[i]);
  }

  lemma JoinMore(init: seq<i32>, last: i32)
    requires init != []
    ensures JoinCores(init + [last]) == JoinCores(init) + ("," + Dec(last))
  {
    assert (init + [last])[..|init|] == init;
  }

  lemma {:induction false} JoinCoresPlain(cores: seq<i32>)
    ensures Plain(JoinCores(cores))
  {
    if cores == [] {
    } else if |cores| == 1 {
      DecPlain(cores[0]);
    } else {
      JoinCoresPlain(cores[..|cores| - 1]);
      DecPlain(cores[|cores| - 1]);
      PlainConcat(JoinCores(cores[..|cores| - 1]), ",");
      PlainConcat(JoinCores(cores[..|cores| - 1]) + ",", Dec(cores[|cores| - 1]));
    }
  }

  lemma CoreListPlain(cores: seq<i32>)
    ensures Plain(CoreList(cores))
  {
    JoinCoresPlain(cores);
  }

  /** A cut `key=value` chunk is still a chunk with that key, as long as the key itself fits. */
  lemma CutChunk(p: string, v: string, n: nat)
    requires Pattern(p) && Plain(v) && |p| <= n
    ensures Chunk(Take(p + v, n)) && p <= Take(p + v, n) && Take(p + v, n)[0] == ' '
  {
    PlainConcat(p[1..], v);
    assert (p + v)[1..] == p[1..] + v;
    var t := Take(p + v, n);
    assert forall i :: 0 <= i < |t[1..]| ==> t[1..][i] == (p + v)[1..][i];
  }

  function Optional(c: string): seq<string> {
    if c == "" then [] else [c]
  }

  /** The tokens an apply injects. */
  function ParamTokens(cfg: GrubConfig): seq<string> {
    [ISOL + CoreList(cfg.cores)] + Optional(NohzPart(cfg)) + Optional(RcuPart(cfg)) + [CstatePart(cfg)] + [SOFT]
  }

  lemma FlattenOne(c: string)
    ensures Flatten([c]) == c && Flatten(Optional(c)) == c
  {
  }

  lemma FlattenFive(a: string, b: string, c: string, d: string, e: string)
    ensures Flatten([a] + Optional(b) + Optional(c) + [d] + [e]) == a + b + c + d + e
  {
    FlattenOne(a);
    FlattenOne(b);
    FlattenOne(c);
    FlattenOne(d);
    FlattenOne(e);
    FlattenConcat([a], Optional(b));
    FlattenConcat([a] + Optional(b), Optional(c));
    FlattenConcat([a] + Optional(b) + Optional(c), [d]);
    FlattenConcat([a] + Optional(b) + Optional(c) + [d], [e]);
  }

  lemma ShiftOne(x: string, a: string, b: string, xa: string)
    requires xa == x + a
    ensures x + (a + b) == xa + b
  {
  }

  lemma Shift(x: string, h: string, v: string, b: string, c: string, d: string, e: string)
    ensures x + (h + v + b + c + d + e) == (x + h) + v + b + c + d + e
  {
    ShiftOne(x, h, v, x + h);
    ShiftOne(x, h + v, b, x + h + v);
    ShiftOne(x, h + v + b, c, x + h + v + b);
    ShiftOne(x, h + v + b + c, d, x + h + v + b + c);
    ShiftOne(x, h + v + b + c + d, e, x + h + v + b + c + d);
  }

  lemma IsolationPattern()
    ensures " " + "isolcpus=" == ISOL
  {
  }

  lemma ParamText(cfg: GrubConfig)
    ensures " " + FullParams(cfg) == Flatten(ParamTokens(cfg))
  {
    var cores, b, c, d := CoreList(cfg.cores), NohzPart(cfg), RcuPart(cfg), CstatePart(cfg);
    Shift(" ", "isolcpus=", cores, b, c, d, SOFT);
    IsolationPattern();
    FlattenFive(ISOL + cores, b, c, d, SOFT);
  }

  lemma KeepsApart(p: string, q: string, v: string, n: nat, i: nat)
    requires i < |p| && i < |q| && p[i] != q[i] && |q| <= n
    ensures !(p <= Take(q + v, n))
  {
    assert Take(q + v, n)[i] == q[i];
  }

  lemma ValueToken(p: string, v: string, n: nat)
    requires p == NOHZ || p == RCU || p == ISOL || p == CSTATE
    requires Plain(v) && |p| <= n
    ensures var c := Take(p + v, n); Chunk(c) && c[0] == ' ' && Ours(c) && !(SOFT <= c)
  {
    Patterns();
    CutChunk(p, v, n);
    KeepsApart(SOFT, p, v, n, if p == NOHZ then 3 else 1);
  }

  predicate TokenShape(c: string) {
    Chunk(c) && c[0] == ' ' && Ours(c) && (SOFT <= c ==> c == SOFT)
  }

  lemma PartShapes(cfg: GrubConfig)
    ensures TokenShape(ISOL + CoreList(cfg.cores)) && TokenShape(CstatePart(cfg)) && TokenShape(SOFT)
    ensures cfg.nohz ==> TokenShape(NohzPart(cfg))
    ensures cfg.rcu ==> TokenShape(RcuPart(cfg))
  {
    CoreListPlain(cfg.cores);
    var cores := CoreList(cfg.cores);
    var state := Dec(if cfg.maxCstate >= 0 then cfg.maxCstate else 0);
    DecPlain(if cfg.maxCstate >= 0 then cfg.maxCstate else 0);
    ValueToken(NOHZ, cores, 127);
    ValueToken(RCU, cores, 127);
    ValueToken(ISOL, cores, |ISOL + cores|);
    ValueToken(CSTATE, state, |CSTATE + state|);
    assert TokenShape(SOFT) by { Patterns(); }
  }

  lemma ParamTokenShapes(cfg: GrubConfig)
    ensures forall c :: c in ParamTokens(cfg) ==> TokenShape(c)
  {
    PartShapes(cfg);
    forall t | t in ParamTokens(cfg) ensures TokenShape(t) {
      var nohz, rcu := Optional(NohzPart(cfg)), Optional(RcuPart(cfg));
      MemberOfFive(ISOL + CoreList(cfg.cores), nohz, rcu, CstatePart(cfg), SOFT, t);
    }
  }

  lemma MemberOfFive(a: string, b: seq<string>, c: seq<string>, d: string, e: string, t: string)
    requires t in [a] + b + c + [d] + [e]
    ensures t == a || t in b || t in c || t == d || t == e
  {
  }

  /** As long as the text is not cut, what an apply injects is exactly its parameter tokens. */
  lemma ParamChunks(cfg: GrubConfig)
    requires Intact(cfg)
    ensures Chunks(" " + Params(cfg)) == ParamTokens(cfg)
  {
    ParamText(cfg);
    ParamTokenShapes(cfg);
    var ts := ParamTokens(cfg);
    assert forall i :: 0 <= i < |ts| ==> TokenShape(ts[i]);
    ChunksOfFlatten(ts);
  }
}
