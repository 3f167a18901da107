/** How often the GRUB file names each parameter after an apply: exactly when nothing is duplicated. */
module GrubNames {
  import opened Text
  import opened SedScripts
  import opened Grub
  import opened GrubEdits
  import opened GrubBoot
  import opened GrubMachine
  import opened GrubTheorems

  predicate Param(p: string) {
    p == NOHZ || p == RCU || p == ISOL || p == CSTATE || p == SOFT
  }

  /** The tokens that name a parameter, whatever stands in front of them. */
  function Naming(cs: seq<string>, p: string): seq<string>
    requires p != ""
  {
    if cs == [] then []
    else (if p[1..] <= Word(cs[0]) then [cs[0]] else []) + Naming(cs[1..], p)
  }

  /** Those of them no script reaches: they follow a quote or start the line. */
  function Unreached(cs: seq<string>, p: string): seq<string>
    requires p != ""
  {
    if cs == [] then []
    else (if p[1..] <= Word(cs[0]) && !(p <= cs[0]) then [cs[0]] else []) + Unreached(cs[1..], p)
  }

  /** How many tokens of the file name the parameter... */
  function NamedIn(file: File, p: string): nat
    requires p != ""
  {
    if file == [] then 0 else |Naming(Chunks(file[0]), p)| + NamedIn(file[1..], p)
  }

  /** ...and how many of them no script reaches. */
  function UnreachedIn(file: File, p: string): nat
    requires p != ""
  {
    if file == [] then 0 else |Unreached(Chunks(file[0]), p)| + UnreachedIn(file[1..], p)
  }

  /** The lines `sed` can inject into once the five scripts have run. */
  function InjectableLines(file: File): nat {
    if file == [] then 0 else (if Injectable(StripFive(file[0])) then 1 else 0) + InjectableLines(file[1..])
  }

  /** Where an apply writes: those lines, or the one line it appends. */
  function Places(file: File): nat {
    if HasCmdline(file) then InjectableLines(file) else 1
  }

  predicate Requests(cfg: GrubConfig, p: string) {
    (p == NOHZ ==> cfg.nohz) && (p == RCU ==> cfg.rcu)
  }

  // ---- The tokens of one line -------------------------------------------------------

  lemma {:induction false} NamingConcat(a: seq<string>, b: seq<string>, p: string)
    requires p != ""
    ensures Naming(a + b, p) == Naming(a, p) + Naming(b, p)
  {
    if a == [] {
      assert a + b == b;
    } else {
      assert (a + b)[1..] == a[1..] + b;
      NamingConcat(a[1..], b, p);
    }
  }

  lemma NamingOne(c: string, p: string)
    requires p != ""
    ensures Naming([c], p) == if p[1..] <= Word(c) then [c] else []
  {
  }

  /** A token that names the parameter is one of those the scripts delete iff it follows a space. */
  lemma ReachedIsOurs(c: string, p: string)
    requires Param(p) && p[1..] <= Word(c)
    ensures Ours(c) <==> p <= c
  {
    Patterns();
    if Ours(c) {
      assert c[0] == ' ' && Word(c) == c[1..];
      assert p == " " + p[1..] && c == " " + c[1..];
    }
  }

  lemma ForeignOne(c: string)
    ensures Foreign([c]) == if Ours(c) then [] else [c]
  {
    if Ours(c) {
      ForeignOfOurs([c]);
    } else {
      ForeignFixed([c]);
    }
  }

  /** What names a parameter behind the five scripts is what they do not reach. */
  lemma {:induction false} NamingForeign(cs: seq<string>, p: string)
    requires Param(p)
    ensures Naming(Foreign(cs), p) == Unreached(cs, p)
  {
    if cs == [] {
      ForeignFixed(cs);
    } else {
      var c, rest := cs[0], cs[1..];
      assert cs == [c] + rest;
      ForeignConcat([c], rest);
      ForeignOne(c);
      NamingForeign(rest, p);
      NamingConcat(Foreign([c]), Foreign(rest), p);
      NamingOne(c, p);
      if p[1..] <= Word(c) {
        ReachedIsOurs(c, p);
      }
    }
  }

  lemma QuoteKept(s: string, p: string)
    requires Pattern(p)
    ensures '"' in StripParam(s, p) <==> '"' in s
  {
    ChunksOfText(s);
    ChunksOfText(StripParam(s, p));
    StripIsTokenDeletion(s, p);
    WithoutMember(Chunks(s), p);
    QuoteInChunk(Chunks(s));
    QuoteInChunk(Chunks(StripParam(s, p)));
  }

  lemma {:induction false} QuoteInChunk(cs: seq<string>)
    requires Chunked(cs)
    ensures '"' in Flatten(cs) <==> exists c :: c in cs && c != "" && c[0] == '"'
  {
    if cs == [] {
    } else {
      var c, rest := cs[0], cs[1..];
      assert forall i :: 0 <= i < |rest| ==> rest[i] == cs[i + 1];
      assert forall d :: d in cs <==> d == c || d in rest;
      QuoteInChunk(rest);
      assert '"' in c <==> c[0] == '"' by {
        assert forall i :: 1 <= i < |c| ==> c[i] == c[1..][i - 1];
      }
    }
  }

  lemma StripInjectable(line: string, p: string)
    requires Pattern(p)
    ensures Injectable(line) ==> Injectable(StripParam(line, p))
  {
    if Injectable(line) {
      var rest := line[|OPEN|..];
      OpenIsAssign();
      AssignChunk();
      assert line == ASSIGN + ("\"" + rest);
      StripInsideChunk(ASSIGN, "\"" + rest, p);
      StripBehindQuote(rest, p);
      QuoteKept(rest, p);
      Reopened(StripParam(line, p), ASSIGN, StripParam(rest, p));
    }
  }

  lemma Reopened(line: string, assign: string, rest: string)
    requires line == assign + ("\"" + rest) && OPEN == assign + "\"" && '"' in rest
    ensures Injectable(line)
  {
    assert line == OPEN + rest;
    assert line[|OPEN|..] == rest;
  }

  // ---- The tokens an apply writes ----------------------------------------------------

  lemma TakeAt(q: string, v: string, n: nat, k: nat)
    requires k < |q| <= n
    ensures |Take(q + v, n)| >= |q| && Take(q + v, n)[k] == q[k]
  {
  }

  /** Two of the patterns differ behind their space. */
  lemma Differ(p: string, q: string) returns (i: nat)
    requires Param(p) && Param(q) && p != q
    ensures 0 < i < |p| && i < |q| && p[i] != q[i] && p[0] == q[0] == ' '
  {
    i := if (p == NOHZ || p == SOFT) && (q == NOHZ || q == SOFT) then 3 else 1;
  }

  lemma NotNamed(p: string, q: string, v: string, n: nat)
    requires Param(p) && Param(q) && p != q && |q| <= n
    ensures var c := Take(q + v, n); c != "" && Sep(c[0]) && !(p[1..] <= Word(c))
  {
    var c := Take(q + v, n);
    var i := Differ(p, q);
    TakeAt(q, v, n, 0);
    TakeAt(q, v, n, i);
    assert Word(c)[i - 1] == c[i] && p[1..][i - 1] == p[i];
  }

  lemma IsNamed(p: string, v: string, n: nat)
    requires Param(p) && |p| <= n
    ensures var c := Take(p + v, n); c != "" && Sep(c[0]) && p[1..] <= Word(c)
  {
    var c := Take(p + v, n);
    assert c[0] == ' ' && p <= c;
    assert Word(c)[..|p| - 1] == p[1..];
  }

  /** One token of the pattern `q`, perhaps cut behind it. */
  lemma NamingToken(p: string, q: string, v: string, n: nat)
    requires Param(p) && Param(q) && |q| <= n
    ensures |Naming([Take(q + v, n)], p)| == if p == q then 1 else 0
  {
    NamingOne(Take(q + v, n), p);
    if p == q {
      IsNamed(p, v, n);
    } else {
      NotNamed(p, q, v, n);
    }
  }

  lemma NamingOptional(p: string, q: string, v: string, present: bool)
    requires Param(p) && Param(q) && |q| <= 127
    ensures |Naming(Optional(if present then Take(q + v, 127) else ""), p)| == if present && p == q then 1 else 0
  {
    if present {
      NamingToken(p, q, v, 127);
    }
  }

  lemma NamingFive(
    a: seq<string>, b: seq<string>, c: seq<string>, d: seq<string>, e: seq<string>, p: string)
    requires p != ""
    ensures |Naming(a + b + c + d + e, p)| ==
            |Naming(a, p)| + |Naming(b, p)| + |Naming(c, p)| + |Naming(d, p)| + |Naming(e, p)|
  {
    NamingConcat(a, b, p);
    NamingConcat(a + b, c, p);
    NamingConcat(a + b + c, d, p);
    NamingConcat(a + b + c + d, e, p);
  }

  /** The injected tokens name each requested parameter once and no other one. */
  lemma NamingParams(cfg: GrubConfig, p: string)
    requires Param(p)
    ensures |Naming(ParamTokens(cfg), p)| == if Requests(cfg, p) then 1 else 0
  {
    var cores := CoreList(cfg.cores);
    var state := Dec(if cfg.maxCstate >= 0 then cfg.maxCstate else 0);
    NamingToken(p, ISOL, cores, |ISOL + cores|);
    NamingOptional(p, NOHZ, cores, cfg.nohz);
    NamingOptional(p, RCU, cores, cfg.rcu);
    NamingToken(p, CSTATE, state, |CSTATE + state|);
    NamingToken(p, SOFT, "", |SOFT|);
    assert SOFT + "" == SOFT;
    NamingFive([ISOL + cores], Optional(NohzPart(cfg)), Optional(RcuPart(cfg)), [CstatePart(cfg)], [SOFT], p);
  }

  lemma NamedLine(line: string, cfg: GrubConfig, p: string)
    requires Whole(line, SOFT) && Intact(cfg) && Param(p)
    ensures |Naming(Chunks(StripFive(line)), p)| == |Unreached(Chunks(line), p)|
    ensures |Naming(Chunks(Inject(StripFive(line), Params(cfg))), p)| ==
            |Unreached(Chunks(line), p)| + if Injectable(StripFive(line)) && Requests(cfg, p) then 1 else 0
  {
    var out := StripFive(line);
    StripFiveIsTokenDeletion(line);
    NamingForeign(Chunks(line), p);
    if Injectable(out) {
      var a, q := InjectShape(out, Params(cfg));
      ParamChunks(cfg);
      NamingParams(cfg, p);
      NamingConcat(a, q, p);
      NamingConcat(a, ParamTokens(cfg), p);
      NamingConcat(a + ParamTokens(cfg), q, p);
    }
  }

  // ---- The file ------------------------------------------------------------------------

  lemma {:induction false} NamedLines(file: File, out: File, cfg: GrubConfig, p: string)
    requires WholeFile(file) && Intact(cfg) && Param(p) && |out| == |file|
    requires forall i :: 0 <= i < |file| ==> out[i] == Inject(StripFive(file[i]), Params(cfg))
    ensures NamedIn(out, p) == UnreachedIn(file, p) + if Requests(cfg, p) then InjectableLines(file) else 0
  {
    if file == [] {
    } else {
      NamedLine(file[0], cfg, p);
      NamedLines(file[1..], out[1..], cfg, p);
    }
  }

  lemma {:induction false} StrippedLines(file: File, out: File, cfg: GrubConfig, p: string)
    requires WholeFile(file) && Intact(cfg) && Param(p) && |out| == |file|
    requires forall i :: 0 <= i < |file| ==> out[i] == StripFive(file[i])
    ensures NamedIn(out, p) == UnreachedIn(file, p)
  {
    if file == [] {
    } else {
      NamedLine(file[0], cfg, p);
      StrippedLines(file[1..], out[1..], cfg, p);
    }
  }

  lemma {:induction false} NamedAppend(file: File, line: string, p: string)
    requires p != ""
    ensures NamedIn(file + [line], p) == NamedIn(file, p) + |Naming(Chunks(line), p)|
    ensures UnreachedIn(file + [line], p) == UnreachedIn(file, p) + |Unreached(Chunks(line), p)|
  {
    if file == [] {
      assert [line][1..] == [];
    } else {
      assert (file + [line])[1..] == file[1..] + [line];
      NamedAppend(file[1..], line, p);
    }
  }

  lemma NamingQuoted(assign: string, first: string, rest: seq<string>, q: string, t: string, p: string)
    requires Param(p) && q == ['"'] && t != "" && t[0] == ' ' && first == q + t[1..]
    requires !(p[1..] <= Word(assign))
    ensures |Naming([assign] + [first] + rest + [q], p)| == |Naming([t] + rest, p)|
  {
    NamingOne(assign, p);
    NamingOne(first, p);
    NamingOne(t, p);
    NamingOne(q, p);
    assert Word(first) == t[1..] == Word(t) && Word(q) == "";
    assert p[1..] != "";
    NamingConcat([t], rest, p);
    NamingConcat([assign], [first], p);
    NamingConcat([assign] + [first], rest, p);
    NamingConcat([assign] + [first] + rest, [q], p);
  }

  lemma AssignNamesNothing(p: string)
    requires Param(p)
    ensures !(p[1..] <= Word(ASSIGN)) && |p| > 1
  {
    assert Word(ASSIGN)[0] == 'G' && p[1] == p[1..][0];
  }

  /** The appended line names what the injected text would name. */
  lemma NamedOwnLine(cfg: GrubConfig, p: string)
    requires Intact(cfg) && Param(p)
    ensures |Naming(Chunks(OwnLine(cfg)), p)| == if Requests(cfg, p) then 1 else 0
  {
    var first, rest := OwnLineChunks(cfg);
    var ts := ParamTokens(cfg);
    NamingParams(cfg, p);
    AssignNamesNothing(p);
    PartShapes(cfg);
    assert ts == [ts[0]] + rest;
    NamingQuoted(ASSIGN, first, rest, "\"", ts[0], p);
  }

  /**
   How often the file names a parameter after an apply that rewrites it, for every file whose
   ` nosoftlockup` tokens are whole: once for each place the apply writes to when the parameter is
   requested, and once for each token no script reaches.
   */
  lemma NamedAfterApply(file: File, cfg: GrubConfig, p: string)
    requires WholeFile(file) && Intact(cfg) && Param(p)
    ensures NamedIn(ApplyText(file, cfg), p) ==
            UnreachedIn(file, p) + if Requests(cfg, p) then Places(file) else 0
  {
    var out := OnLines(StripFive, file);
    GrepUnaffected(file);
    if HasCmdline(file) {
      NamedLines(file, ApplyText(file, cfg), cfg, p);
    } else {
      StrippedLines(file, out, cfg, p);
      NamedAppend(out, OwnLine(cfg), p);
      NamedOwnLine(cfg, p);
    }
  }

  /** Every token that names the parameter follows a space. */
  predicate AllReached(file: File, p: string)
    requires p != ""
  {
    forall i :: 0 <= i < |file| ==> forall c :: c in Chunks(file[i]) && p[1..] <= Word(c) ==> p <= c
  }

  lemma {:induction false} NothingUnreached(cs: seq<string>, p: string)
    requires p != ""
    ensures |Unreached(cs, p)| == 0 <==> forall c :: c in cs && p[1..] <= Word(c) ==> p <= c
  {
    if cs == [] {
    } else {
      NothingUnreached(cs[1..], p);
      assert forall c :: c in cs <==> c == cs[0] || c in cs[1..];
    }
  }

  lemma {:induction false} NothingUnreachedIn(file: File, p: string)
    requires p != ""
    ensures UnreachedIn(file, p) == 0 <==> AllReached(file, p)
  {
    if file == [] {
    } else {
      NothingUnreached(Chunks(file[0]), p);
      NothingUnreachedIn(file[1..], p);
      var rest := file[1..];
      assert forall i :: 0 <= i < |rest| ==> rest[i] == file[i + 1];
      assert forall i :: 1 <= i < |file| ==> file[i] == rest[i - 1];
    }
  }

  /**
   Nothing is duplicated and nothing stays that was not requested, if and only if every token that names
   the parameter follows a space: for every file with one place to write to, which is a file with one
   quoted GRUB_CMDLINE_LINUX line or with none.
   */
  lemma NamedOnceExactly(file: File, cfg: GrubConfig, p: string)
    requires WholeFile(file) && Intact(cfg) && Param(p) && Places(file) == 1
    ensures NamedIn(ApplyText(file, cfg), p) == (if Requests(cfg, p) then 1 else 0) <==> AllReached(file, p)
  {
    NamedAfterApply(file, cfg, p);
    NothingUnreachedIn(file, p);
  }

  lemma StripFiveInjectable(line: string)
    requires Whole(line, SOFT)
    ensures Injectable(line) ==> Injectable(StripFive(line))
  {
    Patterns();
    var l1 := StripParam(line, NOHZ);
    var l2 := StripParam(l1, RCU);
    var l3 := StripParam(l2, ISOL);
    var l4 := StripParam(l3, CSTATE);
    StripInjectable(line, NOHZ);
    StripInjectable(l1, RCU);
    StripInjectable(l2, ISOL);
    StripInjectable(l3, CSTATE);
    StripInjectable(l4, SOFT);
    StripFourWhole(line);
    LiteralIsTokenDeletion(l4, SOFT);
  }

  lemma OtherLine(line: string)
    requires Whole(line, SOFT) && !(ASSIGN <= line)
    ensures !Injectable(StripFive(line))
  {
    StripFiveKeepsHead(line, ASSIGN);
    AssignChunk();
    OpenIsAssign();
    PrefixOfPrefix(ASSIGN, OPEN, StripFive(line));
  }

  lemma {:induction false} NoPlace(file: File)
    requires WholeFile(file) && !HasCmdline(file)
    ensures InjectableLines(file) == 0
  {
    if file == [] {
    } else {
      OtherLine(file[0]);
      assert forall i :: 0 <= i < |file[1..]| ==> file[1..][i] == file[i + 1];
      NoPlace(file[1..]);
    }
  }

  /** One quoted GRUB_CMDLINE_LINUX line is one place to write to. */
  lemma {:induction false} OnePlace(file: File, k: nat)
    requires WholeFile(file) && k < |file| && Injectable(file[k])
    requires forall i :: 0 <= i < |file| && ASSIGN <= file[i] ==> i == k
    ensures Places(file) == InjectableLines(file) == 1
    decreases |file|
  {
    OpenIsAssign();
    PrefixOfPrefix(ASSIGN, OPEN, file[k]);
    var rest := file[1..];
    assert forall i :: 0 <= i < |rest| ==> rest[i] == file[i + 1];
    if k == 0 {
      StripFiveInjectable(file[0]);
      NoPlace(rest);
    } else {
      OtherLine(file[0]);
      OnePlace(rest, k - 1);
    }
  }

  // ---- Runs and failing inputs ------------------------------------------------------------

  lemma NamedOut(file: File, out: File, cfg: GrubConfig, p: string)
    requires WholeFile(file) && Intact(cfg) && Param(p) && Places(file) == 1 && out == ApplyText(file, cfg)
    ensures NamedIn(out, p) == (if Requests(cfg, p) then 1 else 0) <==> AllReached(file, p)
  {
    NamedOnceExactly(file, cfg, p);
  }

  /** In every run of rewriting applies, reboots and updates: the same for the last configuration. */
  lemma NamedOnceInRuns(s: State, steps: seq<Step>, last: GrubConfig, out: File, p: string)
    requires s.present && Rewriting(s, steps) && Applied(steps) != [] && Param(p)
    requires WholeFile(s.file) && HasCmdline(s.file) && Places(s.file) == 1
    requires last == Applied(steps)[|Applied(steps)| - 1] && out == Run(s, steps).file
    ensures NamedIn(out, p) == (if Requests(last, p) then 1 else 0) <==> AllReached(s.file, p)
  {
    LastApplyWinsInRuns(s, steps);
    NamedOut(s.file, out, last, p);
  }

  lemma {:induction false} UnreachedConcat(a: seq<string>, b: seq<string>, p: string)
    requires p != ""
    ensures Unreached(a + b, p) == Unreached(a, p) + Unreached(b, p)
  {
    if a == [] {
      assert a + b == b;
    } else {
      assert (a + b)[1..] == a[1..] + b;
      UnreachedConcat(a[1..], b, p);
    }
  }

  lemma UnreachedOne(c: string, p: string)
    requires p != ""
    ensures Unreached([c], p) == if p[1..] <= Word(c) && !(p <= c) then [c] else []
  {
  }

  lemma SpaceReached(c: string, p: string)
    requires c != "" && c[0] == ' ' && p != "" && p[0] == ' '
    ensures p[1..] <= Word(c) ==> p <= c
  {
    assert Word(c) == c[1..];
  }

  lemma {:induction false} NoneUnreached(cs: seq<string>, p: string)
    requires p != "" && p[0] == ' ' && forall c :: c in cs ==> c != "" && c[0] == ' '
    ensures Unreached(cs, p) == []
  {
    if cs == [] {
    } else {
      assert cs[0] in cs && forall c :: c in cs[1..] ==> c in cs;
      SpaceReached(cs[0], p);
      NoneUnreached(cs[1..], p);
    }
  }

  lemma UnreachedFour(a: seq<string>, b: seq<string>, c: seq<string>, d: seq<string>, p: string)
    requires p != ""
    ensures |Unreached(a + b + c + d, p)| ==
            |Unreached(a, p)| + |Unreached(b, p)| + |Unreached(c, p)| + |Unreached(d, p)|
  {
    UnreachedConcat(a, b, p);
    UnreachedConcat(a + b, c, p);
    UnreachedConcat(a + b + c, d, p);
  }

  lemma BehindQuote(first: string, q: string, t: string, p: string)
    requires |p| > 1 && p[0] == ' ' && q == ['"'] && p <= t && first == q + t[1..]
    ensures Unreached([first], p) == [first] && Unreached([q], p) == []
  {
    assert first[0] == '"' && Word(first) == t[1..] && Word(q) == "";
    assert p == t[..|p|] && p[1..] == t[1..][..|p| - 1];
    UnreachedOne(first, p);
    UnreachedOne(q, p);
  }

  /** The one unreached token of a quoted assignment is the first one behind the quote, when it names p. */
  lemma UnreachedQuoted(assign: string, first: string, rest: seq<string>, q: string, t: string, p: string)
    requires |p| > 1 && p[0] == ' ' && q == ['"'] && p <= t && first == q + t[1..] && !(p[1..] <= Word(assign))
    requires forall c :: c in rest ==> c != "" && c[0] == ' '
    ensures |Unreached([assign] + [first] + rest + [q], p)| == 1
  {
    UnreachedOne(assign, p);
    BehindQuote(first, q, t, p);
    NoneUnreached(rest, p);
    UnreachedFour([assign], [first], rest, [q], p);
  }

  lemma NoSpaceInFront(line: string, a: string, b: string, c: string, p: string)
    requires p != "" && p[0] == ' ' && Chunks(line) == [a] + [b] + [] + [c]
    requires a != "" && a[0] != ' ' && b != "" && b[0] != ' ' && c != "" && c[0] != ' '
    ensures Whole(line, p)
  {
    assert forall d :: d in Chunks(line) ==> d == a || d == b || d == c;
  }

  /** A quoted assignment with one token in its value. */
  lemma OneTokenLine(line: string, assign: string, q: string, add: string, t: string, p: string, soft: string)
    requires |p| > 1 && p[0] == ' ' && soft != "" && soft[0] == ' '
    requires Chunk(assign) && assign[0] != ' ' && !(p[1..] <= Word(assign)) && q == ['"']
    requires Chunks(" " + add) == [t] && p <= t && line == assign + (q + add) + q
    ensures Whole(line, soft) && |Unreached(Chunks(line), p)| == 1
  {
    var first := QuotedChunks(assign, q, add, [t]);
    assert [t][1..] == [];
    UnreachedQuoted(assign, first, [], q, t, p);
    NoSpaceInFront(line, assign, first, q, soft);
  }

  /** A quoted assignment whose value starts with `isolcpus=`. */
  lemma FirstPositionLine(line: string, assign: string, q: string, add: string, v: string)
    requires assign == ASSIGN && q == ['"'] && " " + add == ISOL + v && Plain(v)
    requires line == assign + (q + add) + q
    ensures Whole(line, SOFT) && Injectable(line) && |Unreached(Chunks(line), ISOL)| == 1
  {
    Patterns();
    AssignChunk();
    OneToken(ISOL, v);
    AssignNamesNothing(ISOL);
    OneTokenLine(line, assign, q, add, ISOL + v, ISOL, SOFT);
    OpenIsAssign();
    Regrouped(assign, q, add);
    Reopened(line, assign, add + q);
  }

  lemma Regrouped(assign: string, q: string, add: string)
    ensures assign + (q + add) + q == assign + (q + (add + q))
  {
    Assoc3(q, add, q);
    Assoc3(assign, q + add, q);
  }

  lemma {:induction false} NoInjectableLine(file: File)
    ensures InjectableLines(file) == 0 <==> forall i :: 0 <= i < |file| ==> !Injectable(StripFive(file[i]))
  {
    if file == [] {
    } else {
      var rest := file[1..];
      NoInjectableLine(rest);
      assert forall i :: 0 <= i < |rest| ==> rest[i] == file[i + 1];
      assert forall i :: 1 <= i < |file| ==> file[i] == rest[i - 1];
    }
  }

  lemma {:induction false} PlainLengthLong(w: string, s: string)
    requires Plain(w) && w <= s
    ensures |w| <= PlainLength(s)
  {
    if w == "" {
    } else {
      assert w[0] == s[0];
      PlainLengthLong(w[1..], s[1..]);
    }
  }

  lemma QuotedHead(body: string, w: string)
    requires w != "" && Plain(w) && w <= body
    ensures Chunks("\"" + body) != [] && "\"" + w <= Chunks("\"" + body)[0]
  {
    var s := "\"" + body;
    assert s[1..] == body;
    PlainLengthLong(w, body);
    assert s[..1 + PlainLength(body)][..1 + |w|] == "\"" + w;
  }

  lemma HeadToken(c: string, q: string, p: string)
    requires |p| > 1 && p[0] == ' ' && q == ['"'] && q + p[1..] <= c
    ensures p[1..] <= Word(c) && !(p <= c)
  {
    assert c[0] == (q + p[1..])[0] == '"';
    assert c[..|p|] == q + p[1..] && Word(c)[..|p| - 1] == c[..|p|][1..];
  }

  lemma HeadUnreached(line: string, body: string, tail: string, p: string)
    requires Assigns(line, ASSIGN, body, tail) && Param(p) && p[1..] <= body
    ensures exists c :: c in Chunks(line) && p[1..] <= Word(c) && !(p <= c)
  {
    var q := "\"" + body;
    AssignNamesNothing(p);
    Patterns();
    AssignChunk();
    QuotedHead(body, p[1..]);
    FirstChunk(ASSIGN, q);
    ChunksConcat(ASSIGN + q, "\"" + tail);
    HeadToken(Chunks(q)[0], "\"", p);
    assert Chunks(q)[0] in Chunks(line);
  }

  /**
   A quoted line whose value starts with a parameter: every apply that requests it names it twice at
   least, whatever else the file holds.
   */
  lemma FirstPositionDuplicated(file: File, k: nat, body: string, tail: string, cfg: GrubConfig, p: string)
    requires WholeFile(file) && k < |file| && Assigns(file[k], ASSIGN, body, tail)
    requires Param(p) && p[1..] <= body && Intact(cfg) && Requests(cfg, p)
    ensures NamedIn(ApplyText(file, cfg), p) >= 2
  {
    HeadUnreached(file[k], body, tail, p);
    NothingUnreachedIn(file, p);
    assert !AllReached(file, p);
    OpenIsAssign();
    Assoc3(ASSIGN, "\"", body);
    Assoc3(ASSIGN, "\"" + body, "\"" + tail);
    Reopens(file[k], body, tail);
    StripFiveInjectable(file[k]);
    NoInjectableLine(file);
    NamedAfterApply(file, cfg, p);
  }

  lemma Reopens(line: string, body: string, tail: string)
    requires Assigns(line, ASSIGN, body, tail)
    ensures Injectable(line) && ASSIGN <= line
  {
    var rest := body + ("\"" + tail);
    OpenIsAssign();
    Assoc3("\"", body, "\"" + tail);
    Assoc3(ASSIGN, "\"" + body, "\"" + tail);
    assert rest[|body|] == '"';
    Reopened(line, ASSIGN, rest);
  }

  /**
   A file where the line exists and isolcpus is named twice all the same: its value starts with
   `isolcpus=`, as in `GRUB_CMDLINE_LINUX="isolcpus=2"`, and every apply adds a second one.
   */
  lemma OnlyTokenDuplicated(line: string, v: string, cfg: GrubConfig)
    requires line == ASSIGN + ("\"" + ("isolcpus=" + v)) + "\"" && Plain(v) && Intact(cfg)
    ensures WholeFile([line]) && HasCmdline([line]) && Places([line]) == 1
    ensures NamedIn(ApplyText([line], cfg), ISOL) == 2
  {
    IsolationPattern();
    Assoc3(" ", "isolcpus=", v);
    FirstPositionLine(line, ASSIGN, "\"", "isolcpus=" + v, v);
    OpenIsAssign();
    PrefixOfPrefix(ASSIGN, OPEN, line);
    assert [line][0] == line && [line][1..] == [];
    OnePlace([line], 0);
    NamedAfterApply([line], cfg, ISOL);
  }

  lemma UnreachedOwnLine(cfg: GrubConfig)
    requires Intact(cfg)
    ensures |Unreached(Chunks(OwnLine(cfg)), ISOL)| == 1
  {
    var first, rest := OwnLineChunks(cfg);
    var t := ParamTokens(cfg)[0];
    AssignNamesNothing(ISOL);
    assert t == ISOL + CoreList(cfg.cores);
    UnreachedQuoted(ASSIGN, first, rest, "\"", t, ISOL);
  }

  lemma {:induction false} UnreachedForeign(cs: seq<string>, p: string)
    requires Param(p)
    ensures Unreached(Foreign(cs), p) == Unreached(cs, p)
  {
    if cs == [] {
      ForeignFixed(cs);
    } else {
      var c, rest := cs[0], cs[1..];
      assert cs == [c] + rest;
      ForeignConcat([c], rest);
      ForeignOne(c);
      UnreachedForeign(rest, p);
      UnreachedConcat(Foreign([c]), Foreign(rest), p);
      UnreachedOne(c, p);
      if p[1..] <= Word(c) {
        ReachedIsOurs(c, p);
      }
    }
  }

  lemma {:induction false} UnreachedStripped(file: File, out: File, p: string)
    requires WholeFile(file) && Param(p) && |out| == |file|
    requires forall i :: 0 <= i < |file| ==> out[i] == StripFive(file[i])
    ensures WholeFile(out) && UnreachedIn(out, p) == UnreachedIn(file, p)
  {
    if file == [] {
    } else {
      StripFiveIsTokenDeletion(file[0]);
      StripFiveIdempotent(file[0]);
      UnreachedForeign(Chunks(file[0]), p);
      UnreachedStripped(file[1..], out[1..], p);
      assert forall i :: 1 <= i < |out| ==> out[i] == out[1..][i - 1];
    }
  }

  lemma OwnLineInjectable(line: string, params: string)
    requires line == OPEN + params + "\""
    ensures Injectable(line) && ASSIGN <= line
  {
    OpenIsAssign();
    Assoc3(OPEN, params, "\"");
    Assoc3(ASSIGN, "\"", params + "\"");
    assert (params + "\"")[|params|] == '"';
    Reopened(line, ASSIGN, params + "\"");
    PrefixOfPrefix(ASSIGN, OPEN, line);
  }

  /** The file after an apply that appends its line: one place to write to, and one more token out of reach. */
  lemma OnceWithoutLine(file: File, a: GrubConfig)
    requires WholeFile(file) && !HasCmdline(file) && Intact(a)
    ensures var once := ApplyText(file, a);
            WholeFile(once) && Places(once) == 1 && UnreachedIn(once, ISOL) == UnreachedIn(file, ISOL) + 1
  {
    var out, own := OnLines(StripFive, file), OwnLine(a);
    GrepUnaffected(file);
    UnreachedStripped(file, out, ISOL);
    NamedAppend(out, own, ISOL);
    UnreachedOwnLine(a);
    OwnLineStripped(a);
    OwnLineInjectable(own, Params(a));
    OneLineMore(out, own);
  }

  lemma OneLineMore(out: File, own: string)
    requires WholeFile(out) && !HasCmdline(out) && Whole(own, SOFT) && Injectable(own)
    ensures WholeFile(out + [own]) && Places(out + [own]) == 1
  {
    var once := out + [own];
    assert once[|out|] == own;
    forall i | 0 <= i < |once| ensures Whole(once[i], SOFT) && (ASSIGN <= once[i] ==> i == |out|) {
      assert i < |out| ==> once[i] == out[i];
    }
    OnePlace(once, |out|);
  }

  /** Without the line, the file after a second apply names isolcpus twice, and by every token out of reach. */
  lemma NoLineDuplicates(file: File, a: GrubConfig, b: GrubConfig)
    requires WholeFile(file) && !HasCmdline(file) && Intact(a) && Intact(b)
    ensures NamedIn(ApplyText(ApplyText(file, a), b), ISOL) == UnreachedIn(file, ISOL) + 2
  {
    OnceWithoutLine(file, a);
    NamedAfterApply(ApplyText(file, a), b, ISOL);
  }
}
