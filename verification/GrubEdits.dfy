/** What a sequence of applies does to the text of /etc/default/grub. */
module GrubEdits {
  import opened SedScripts
  import opened Grub

  predicate Injectable(line: string) {
    OPEN <= line && LastQuote(line[|OPEN|..]).Some?
  }

  /** Injection adds the chunks of the new text in front of the closing quote and changes no other chunk. */
  lemma InjectShape(line: string, add: string) returns (a: seq<string>, q: seq<string>)
    requires Injectable(line)
    ensures Chunks(line) == a + q
    ensures Chunks(Inject(line, add)) == a + Chunks(" " + add) + q
  {
    var k := |OPEN| + LastQuote(line[|OPEN|..]).value;
    var x, y := line[..k], line[k..];
    assert y[0] == line[|OPEN|..][k - |OPEN|];
    a, q := Chunks(x), Chunks(y);
    assert line == x + y;
    ChunksConcat(x, y);
    ChunksConcat(x, " " + add);
    ChunksConcat(x + (" " + add), y);
  }

  lemma WithoutInserted(a: seq<string>, c: string, q: seq<string>, p: string)
    requires p <= c
    ensures Without(a + [c] + q, p) == Without(a + q, p)
  {
    WithoutConcat(a, [c], p);
    WithoutConcat(a + [c], q, p);
    WithoutConcat(a, q, p);
    assert Without([c], p) == [];
    assert Without(a, p) + [] == Without(a, p);
  }

  /** Strip undoes inject: the script for a parameter removes the injected token and nothing else new. */
  lemma StripUndoesInject(line: string, p: string, value: string, add: string)
    requires Pattern(p) && Plain(value) && " " + add == p + value
    ensures StripParam(Inject(line, add), p) == StripParam(line, p)
  {
    StripIsTokenDeletion(line, p);
    StripIsTokenDeletion(Inject(line, add), p);
    if Injectable(line) {
      var a, q := InjectShape(line, add);
      OneToken(p, value);
      WithoutInserted(a, p + value, q, p);
    }
  }

  lemma OneToken(p: string, value: string)
    requires Pattern(p) && Plain(value)
    ensures Chunks(p + value) == [p + value]
  {
    CutChunk(p, value, |p + value|);
    FirstChunk(p + value, "");
    assert p + value + "" == p + value;
  }

  lemma FirstIsMember(cs: seq<string>)
    requires cs != []
    ensures exists c :: c in cs
  {
    assert cs[0] in cs;
  }

  lemma ForeignOfOurs(cs: seq<string>)
    requires forall c :: c in cs ==> Ours(c)
    ensures Foreign(cs) == []
  {
    ForeignMember(cs);
    if Foreign(cs) != [] {
      FirstIsMember(Foreign(cs));
    }
  }

  /** The five scripts of the next apply remove everything this apply injects. */
  lemma NextApplyRemovesThisOne(line: string, cfg: GrubConfig)
    requires Whole(line, SOFT) && Intact(cfg)
    ensures Whole(Inject(line, Params(cfg)), SOFT)
    ensures StripFive(Inject(line, Params(cfg))) == StripFive(line)
  {
    if Injectable(line) {
      var a, q := InjectShape(line, Params(cfg));
      var t := ParamTokens(cfg);
      ParamChunks(cfg);
      ParamTokenShapes(cfg);
      assert forall c :: c in t ==> TokenShape(c);
      assert Whole(Inject(line, Params(cfg)), SOFT) by {
        forall c | c in a + t + q && SOFT <= c ensures c == SOFT {
          assert c in a + q || c in t;
        }
      }
      ForeignConcat(a, t);
      ForeignConcat(a + t, q);
      ForeignConcat(a, q);
      ForeignOfOurs(t);
      assert Foreign(a) + [] == Foreign(a);
      StripFiveIsTokenDeletion(line);
      StripFiveIsTokenDeletion(Inject(line, Params(cfg)));
    }
  }

  lemma StripFiveIdempotent(line: string)
    requires Whole(line, SOFT)
    ensures Whole(StripFive(line), SOFT)
    ensures StripFive(StripFive(line)) == StripFive(line)
  {
    StripFiveIsTokenDeletion(line);
    ForeignMember(Chunks(line));
    StripFiveIsTokenDeletion(StripFive(line));
    ForeignFixed(Foreign(Chunks(line)));
    ChunksOfText(StripFive(line));
  }

  predicate WholeFile(file: File) {
    forall i :: 0 <= i < |file| ==> Whole(file[i], SOFT)
  }

  // ---- The `grep` guard ------------------------------------------------------

  lemma PlainPrefix(s: string, x: string)
    requires x != "" && Plain(x)
    ensures x <= s <==> Chunks(s) != [] && x <= Chunks(s)[0]
  {
    if s != "" {
      var n := 1 + PlainLength(s[1..]);
      assert n < |s| ==> s[n] == s[1..][n - 1];
      assert |x| <= n && x <= s ==> x <= s[..n];
    }
  }

  /** A script does not change whether a line starts with a given word. */
  lemma StripKeepsHead(s: string, x: string, p: string)
    requires x != "" && Plain(x) && Pattern(p)
    ensures x <= StripParam(s, p) <==> x <= s
  {
    var cs := Chunks(s);
    ChunksOfText(s);
    StripIsTokenDeletion(s, p);
    PlainPrefix(s, x);
    PlainPrefix(StripParam(s, p), x);
    if cs != [] && p <= cs[0] {
      var w := Without(cs[1..], p);
      WithoutMember(cs[1..], p);
      assert w != [] ==> w[0] in w && Sep(w[0][0]);
    }
  }

  lemma StripFiveKeepsHead(s: string, x: string)
    requires x != "" && Plain(x) && Whole(s, SOFT)
    ensures x <= StripFive(s) <==> x <= s
  {
    Patterns();
    var l1 := StripParam(s, NOHZ);
    var l2 := StripParam(l1, RCU);
    var l3 := StripParam(l2, ISOL);
    var l4 := StripParam(l3, CSTATE);
    StripKeepsHead(s, x, NOHZ);
    StripKeepsHead(l1, x, RCU);
    StripKeepsHead(l2, x, ISOL);
    StripKeepsHead(l3, x, CSTATE);
    StripKeepsHead(l4, x, SOFT);
    StripFourWhole(s);
    LiteralIsTokenDeletion(l4, SOFT);
  }

  lemma StripFourWhole(s: string)
    requires Whole(s, SOFT)
    ensures Whole(StripParam(StripParam(StripBoot(s), ISOL), CSTATE), SOFT)
  {
    Patterns();
    var l1 := StripParam(s, NOHZ);
    var l2 := StripParam(l1, RCU);
    var l3 := StripParam(l2, ISOL);
    StripIsTokenDeletion(s, NOHZ);
    StripIsTokenDeletion(l1, RCU);
    StripIsTokenDeletion(l2, ISOL);
    StripIsTokenDeletion(l3, CSTATE);
    WithoutMember(Chunks(s), NOHZ);
    WithoutMember(Chunks(l1), RCU);
    WithoutMember(Chunks(l2), ISOL);
    WithoutMember(Chunks(l3), CSTATE);
  }

  /** The `grep` guard runs behind the scripts, but sees the same lines as if it ran in front of them. */
  lemma GrepUnaffected(file: File)
    requires WholeFile(file)
    ensures HasCmdline(OnLines(StripFive, file)) <==> HasCmdline(file)
  {
    forall i | 0 <= i < |file| ensures ASSIGN <= StripFive(file[i]) <==> ASSIGN <= file[i] {
      StripFiveKeepsHead(file[i], ASSIGN);
    }
  }

  // ---- Sequences of applies --------------------------------------------------

  /** The line `echo` appends when there is no GRUB_CMDLINE_LINUX line. */
  function OwnLine(cfg: GrubConfig): string {
    OPEN + Params(cfg) + "\""
  }

  /**
   With a GRUB_CMDLINE_LINUX line in the file, a second apply leaves what it would have left alone:
   nothing of the first one remains. Tokens the scripts cannot reach remain as they were.
   */
  lemma SecondApplyWins(file: File, a: GrubConfig, b: GrubConfig)
    requires WholeFile(file) && HasCmdline(file) && Intact(a)
    ensures WholeFile(ApplyText(file, a)) && HasCmdline(ApplyText(file, a))
    ensures OnLines(StripFive, ApplyText(file, a)) == OnLines(StripFive, file)
    ensures ApplyText(ApplyText(file, a), b) == ApplyText(file, b)
  {
    var once := ApplyText(file, a);
    GrepUnaffected(file);
    forall i | 0 <= i < |file|
      ensures once[i] == Inject(StripFive(file[i]), Params(a)) && Whole(once[i], SOFT) &&
              StripFive(once[i]) == StripFive(file[i])
    {
      StripFiveIdempotent(file[i]);
      NextApplyRemovesThisOne(StripFive(file[i]), a);
    }
    assert OnLines(StripFive, once) == OnLines(StripFive, file);
    GrepUnaffected(once);
  }

  function RunApplies(file: File, cfgs: seq<GrubConfig>): File
    decreases |cfgs|
  {
    if cfgs == [] then file else ApplyText(RunApplies(file, cfgs[..|cfgs| - 1]), cfgs[|cfgs| - 1])
  }

  /** Last apply wins: any non-empty sequence of applies leaves the text of its last member applied alone. */
  lemma {:induction false} LastApplyWins(file: File, cfgs: seq<GrubConfig>)
    requires cfgs != [] && WholeFile(file) && HasCmdline(file)
    requires forall i :: 0 <= i < |cfgs| ==> Intact(cfgs[i])
    ensures RunApplies(file, cfgs) == ApplyText(file, cfgs[|cfgs| - 1])
    decreases |cfgs|
  {
    var init, last := cfgs[..|cfgs| - 1], cfgs[|cfgs| - 1];
    if init == [] {
    } else {
      LastApplyWins(file, init);
      SecondApplyWins(file, init[|init| - 1], last);
    }
  }

  // ---- Without a GRUB_CMDLINE_LINUX line ----------------------------------

  lemma SingleChunk(c: string)
    requires Chunk(c)
    ensures Chunks(c) == [c]
  {
    FirstChunk(c, "");
    assert c + "" == c;
  }

  /** Between quotes the first token starts with the quote instead of a space. */
  lemma QuotedTokens(q: string, add: string, ts: seq<string>) returns (first: string)
    requires q == ['"'] && Chunks(" " + add) == ts
    ensures ts != [] && ts[0] != "" && first == q + ts[0][1..] && Chunks(q + add) == [first] + ts[1..]
  {
    OtherSeparator(" " + add, '"');
    first := q + ts[0][1..];
    assert (" " + add)[1..] == add;
  }

  lemma QuotedChunks(assign: string, q: string, add: string, ts: seq<string>) returns (first: string)
    requires Chunk(assign) && q == ['"'] && Chunks(" " + add) == ts
    ensures ts != [] && ts[0] != "" && first == q + ts[0][1..]
    ensures Chunks(assign + (q + add) + q) == [assign] + [first] + ts[1..] + [q]
  {
    first := QuotedTokens(q, add, ts);
    FirstChunk(assign, q + add);
    SingleChunk(q);
    ChunksConcat(assign + (q + add), q);
    assert [assign] + ([first] + ts[1..]) == [assign] + [first] + ts[1..];
  }

  lemma NotOurs(c: string)
    requires c != "" && c[0] != ' '
    ensures !Ours(c)
  {
  }

  lemma QuotedStripped(line: string, assign: string, first: string, rest: seq<string>, q: string)
    requires assign != "" && assign[0] != ' ' && first != "" && first[0] != ' ' && q != "" && q[0] != ' '
    requires forall c :: c in rest ==> TokenShape(c)
    requires Chunks(line) == [assign] + [first] + rest + [q]
    ensures Whole(line, SOFT) && StripFive(line) == assign + first + q
  {
    NotOurs(assign);
    NotOurs(first);
    NotOurs(q);
    assert forall c :: c in Chunks(line) ==> c in rest || !Ours(c);
    StripFiveIsTokenDeletion(line);
    ForeignSplit([assign], [first], rest, [q]);
    FlattenThree(assign, first, q);
  }

  lemma OwnLineText(params: string)
    ensures OPEN + params + "\"" == ASSIGN + ("\"" + params) + "\""
  {
    assert OPEN == ASSIGN + "\"";
  }

  lemma OwnLineChunks(cfg: GrubConfig) returns (first: string, rest: seq<string>)
    requires Intact(cfg)
    ensures first == "\"" + ParamTokens(cfg)[0][1..] && rest == ParamTokens(cfg)[1..]
    ensures forall c :: c in rest ==> TokenShape(c)
    ensures Chunks(OwnLine(cfg)) == [ASSIGN] + [first] + rest + ["\""]
  {
    var ts := ParamTokens(cfg);
    ParamChunks(cfg);
    first := OwnLineOf(Params(cfg), ts);
    rest := ts[1..];
    ParamTokenShapes(cfg);
    assert forall c :: c in rest ==> c in ts;
  }

  lemma AssignChunk()
    ensures Chunk(ASSIGN) && Plain(ASSIGN)
  {
  }

  lemma OwnLineOf(params: string, ts: seq<string>) returns (first: string)
    requires Chunks(" " + params) == ts
    ensures ts != [] && ts[0] != "" && first == "\"" + ts[0][1..]
    ensures Chunks(OPEN + params + "\"") == [ASSIGN] + [first] + ts[1..] + ["\""]
  {
    AssignChunk();
    OwnLineText(params);
    var q := "\"";
    first := QuotedChunks(ASSIGN, q, params, ts);
  }

  lemma OwnLineStripped(cfg: GrubConfig)
    requires Intact(cfg)
    ensures Whole(OwnLine(cfg), SOFT)
    ensures Injectable(StripFive(OwnLine(cfg)))
  {
    var first, rest := OwnLineChunks(cfg);
    QuotedStripped(OwnLine(cfg), ASSIGN, first, rest, "\"");
    QuotedLine(first);
  }

  lemma QuotedLine(first: string)
    requires first != "" && first[0] == '"'
    ensures Injectable(ASSIGN + first + "\"")
  {
    var l := ASSIGN + first + "\"";
    assert OPEN == ASSIGN + [first[0]];
    assert OPEN <= l;
    assert l[|OPEN|..][|l| - |OPEN| - 1] == l[|l| - 1] == '"';
  }

  lemma OtherSeparator(s: string, d: char)
    requires s != ""
    ensures Chunks(s) != [] && Chunks(s)[0] != ""
    ensures Chunks([d] + s[1..]) == [[d] + Chunks(s)[0][1..]] + Chunks(s)[1..]
  {
    var t := [d] + s[1..];
    var n := 1 + PlainLength(s[1..]);
    assert t[1..] == s[1..];
    assert t[..n] == [d] + s[..n][1..];
    assert t[n..] == s[n..];
  }

  lemma ForeignSplit(a: seq<string>, b: seq<string>, ours: seq<string>, d: seq<string>)
    requires forall c :: c in ours ==> Ours(c)
    requires forall c :: c in a + b + d ==> !Ours(c)
    ensures Foreign(a + b + ours + d) == a + b + d
  {
    ForeignOfOurs(ours);
    ForeignFixed(a + b);
    ForeignFixed(d);
    ForeignConcat(a + b, ours);
    ForeignConcat(a + b + ours, d);
    assert a + b + [] == a + b;
  }

  lemma FlattenThree(a: string, b: string, c: string)
    ensures Flatten([a] + [b] + [c]) == a + b + c
  {
    FlattenOne(a);
    FlattenOne(b);
    FlattenOne(c);
    FlattenConcat([a], [b]);
    FlattenConcat([a] + [b], [c]);
  }

  /**
   The exact condition of "last apply wins" for two applies: it holds if and only if the file has a
   GRUB_CMDLINE_LINUX line. Without one the first apply appends a line whose `isolcpus` follows the
   opening quote, where no later script removes it.
   */
  lemma SecondApplyWinsExactly(file: File, a: GrubConfig, b: GrubConfig)
    requires WholeFile(file) && Intact(a)
    ensures ApplyText(ApplyText(file, a), b) == ApplyText(file, b) <==> HasCmdline(file)
  {
    GrepUnaffected(file);
    if HasCmdline(file) {
      SecondApplyWins(file, a, b);
    } else {
      var n := |file|;
      var once := ApplyText(file, a);
      OwnLineStripped(a);
      var own := StripFive(OwnLine(a));
      assert once[n] == OwnLine(a);
      assert OnLines(StripFive, once)[n] == own && ASSIGN <= own;
      assert ApplyText(once, b)[n] == Inject(own, Params(b));
      assert ApplyText(file, b)[n] == OwnLine(b);
      assert |Inject(own, Params(b))| == |own| + 1 + |Params(b)|;
    }
  }
}
