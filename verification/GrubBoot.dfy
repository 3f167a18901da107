/**
 From /etc/default/grub to the kernel command line: the quoted assignments of a well-formed file, the
 arguments the next boot gets, and what the extractor of setup.c reads back from them.
 */
module GrubBoot {
  import opened Text
  import opened JsonText
  import opened SedScripts
  import opened Grub

  const DEFAULT_ASSIGN := "GRUB_CMDLINE_LINUX_DEFAULT="

  const NOHZ_KEY := "nohz_full="
  const RCU_KEY := "rcu_nocbs="

  // ---- Quoted assignments -------------------------------------------------

  /** The line reads `assign"body"tail`, and the quote behind the body is its last one. */
  predicate Assigns(line: string, assign: string, body: string, tail: string) {
    line == assign + ("\"" + body) + ("\"" + tail) && QuoteFree(tail)
  }

  /** ...with no quote in the body either. */
  predicate Splits(line: string, assign: string, body: string, tail: string) {
    Assigns(line, assign, body, tail) && QuoteFree(body)
  }

  /** What the shell assigns when it sources the line. */
  function BodyOf(line: string, assign: string): string {
    if |line| <= |assign| then "" else UpTo(line[|assign| + 1..], {'"'})
  }

  function TailOf(line: string, assign: string): string {
    var n := |assign| + 1 + |BodyOf(line, assign)| + 1;
    if n <= |line| then line[n..] else ""
  }

  predicate WellQuoted(line: string, assign: string) {
    Splits(line, assign, BodyOf(line, assign), TailOf(line, assign))
  }

  lemma SplitIsUnique(line: string, assign: string, body: string, tail: string)
    requires Splits(line, assign, body, tail)
    ensures WellQuoted(line, assign) && BodyOf(line, assign) == body && TailOf(line, assign) == tail
  {
    assert line[|assign| + 1..] == body + ("\"" + tail);
    UpToStops(body, "\"" + tail, {'"'});
    assert line[|assign| + 1 + |body| + 1..] == tail;
  }

  /** A parameter name: at the start of a line, it is not a parameter a script can match. */
  predicate Name(assign: string) {
    assign != "" && Plain(assign)
  }

  lemma {:induction false} StripSubset(s: string, p: string)
    requires Pattern(p)
    ensures forall c :: c in StripParam(s, p) ==> c in s
    decreases |s|
  {
    if s == "" {
    } else {
      if p <= s {
        var rest := s[|p|..];
        DropSubset(rest);
        StripSubset(DropValue(rest), p);
        assert forall c :: c in rest ==> c in s;
      } else {
        StripSubset(s[1..], p);
        assert forall c :: c in s[1..] ==> c in s;
      }
    }
  }

  lemma {:induction false} DropSubset(s: string)
    ensures forall c :: c in DropValue(s) ==> c in s
  {
    if s == "" || Sep(s[0]) {
    } else {
      DropSubset(s[1..]);
      assert forall c :: c in s[1..] ==> c in s;
    }
  }

  lemma StripBehindQuote(s: string, p: string)
    requires Pattern(p)
    ensures StripParam("\"" + s, p) == "\"" + StripParam(s, p)
  {
    assert ("\"" + s)[1..] == s;
    NoMatchStep("\"" + s, p);
  }

  /** A script works on the body of an assignment as it would on the body alone. */
  lemma StripQuoted(line: string, assign: string, body: string, tail: string, p: string)
    requires Assigns(line, assign, body, tail) && Name(assign) && Pattern(p)
    ensures Assigns(StripParam(line, p), assign, StripParam(body, p), StripParam(tail, p))
    ensures QuoteFree(body) ==> QuoteFree(StripParam(body, p))
  {
    var b, t := "\"" + body, "\"" + tail;
    Assoc3(assign, b, t);
    StripInsideChunk(assign, b + t, p);
    StripConcat(b, t, p);
    StripBehindQuote(body, p);
    StripBehindQuote(tail, p);
    StripSubset(body, p);
    StripSubset(tail, p);
    Assoc3(assign, "\"" + StripParam(body, p), "\"" + StripParam(tail, p));
  }

  lemma Assoc3(a: string, b: string, c: string)
    ensures a + (b + c) == a + b + c
  {
  }

  lemma StripBootQuoted(line: string, assign: string, body: string, tail: string)
    requires Assigns(line, assign, body, tail) && Name(assign)
    ensures Assigns(StripBoot(line), assign, StripBoot(body), StripBoot(tail))
    ensures QuoteFree(body) ==> QuoteFree(StripBoot(body))
  {
    Patterns();
    StripQuoted(line, assign, body, tail, NOHZ);
    StripQuoted(StripParam(line, NOHZ), assign, StripParam(body, NOHZ), StripParam(tail, NOHZ), RCU);
  }

  lemma IndexBehind(body: string, tail: string, k: nat)
    requires |body| <= k < |body| + 1 + |tail|
    ensures (body + ("\"" + tail))[k] == if k == |body| then '"' else tail[k - |body| - 1]
  {
  }

  lemma LastQuoteIs(s: string, n: nat)
    requires n < |s| && s[n] == '"' && forall k :: n < k < |s| ==> s[k] != '"'
    ensures LastQuote(s) == Some(n)
  {
  }

  lemma LastQuoteAt(body: string, tail: string)
    requires QuoteFree(tail)
    ensures LastQuote(body + ("\"" + tail)) == Some(|body|)
  {
    var rest := body + ("\"" + tail);
    IndexBehind(body, tail, |body|);
    forall k | |body| < k < |rest| ensures rest[k] != '"' {
      IndexBehind(body, tail, k);
      assert tail[k - |body| - 1] in tail;
    }
    LastQuoteIs(rest, |body|);
  }

  lemma InjectParts(line: string, pre: string, tail: string, add: string)
    requires line == OPEN + pre + ("\"" + tail) && QuoteFree(tail)
    ensures Inject(line, add) == OPEN + pre + (" " + add) + ("\"" + tail)
  {
    var q := "\"" + tail;
    Assoc3(OPEN, pre, q);
    assert line[|OPEN|..] == pre + q;
    LastQuoteAt(pre, tail);
    var head := OPEN + pre;
    assert line[..|head|] == head && line[|head|..] == q;
  }

  lemma Regroup(assign: string, q: string, body: string, add: string)
    ensures assign + q + body + add == assign + (q + (body + add))
  {
    assert q + (body + add) == q + body + add;
    assert assign + (q + body + add) == assign + (q + body) + add;
    Assoc3(assign, q, body);
  }

  /** Injection goes to the end of the body of the GRUB_CMDLINE_LINUX line... */
  lemma InjectQuoted(line: string, body: string, tail: string, add: string)
    requires Assigns(line, ASSIGN, body, tail) && QuoteFree(add)
    ensures Assigns(Inject(line, add), ASSIGN, body + (" " + add), tail)
    ensures QuoteFree(body) ==> QuoteFree(body + (" " + add))
  {
    OpenIsAssign();
    Assoc3(ASSIGN, "\"", body);
    InjectParts(line, body, tail, add);
    Regroup(ASSIGN, "\"", body, " " + add);
  }

  lemma OpenIsAssign()
    ensures OPEN == ASSIGN + "\""
  {
  }

  lemma PrefixOfPrefix(a: string, b: string, c: string)
    requires a <= b
    ensures b <= c ==> a <= c
  {
  }

  /** ...and to no other line. */
  lemma InjectElsewhere(line: string, add: string)
    requires !(ASSIGN <= line)
    ensures Inject(line, add) == line
  {
    OpenIsAssign();
    PrefixOfPrefix(ASSIGN, OPEN, line);
  }

  // ---- The arguments of the next boot --------------------------------------

  /** The value of a variable after the shell has sourced the file (at most one line assigns it). */
  function ValueIn(file: File, assign: string): string {
    if file == [] then ""
    else if assign <= file[0] then BodyOf(file[0], assign)
    else ValueIn(file[1..], assign)
  }

  /** What update-grub writes into grub.cfg: the fixed arguments and the two variables, in this order. */
  function BootArgs(root: string, file: File): string {
    root + (" " + ValueIn(file, ASSIGN)) + (" " + ValueIn(file, DEFAULT_ASSIGN))
  }

  /** The two variables by name, in either order of their lines. */
  lemma BootArgsByName(root: string, a: string, b: string)
    requires QuoteFree(a) && QuoteFree(b)
    ensures var linux := "GRUB_CMDLINE_LINUX=" + ("\"" + a) + "\"";
            var dfl := "GRUB_CMDLINE_LINUX_DEFAULT=" + ("\"" + b) + "\"";
            BootArgs(root, [linux, dfl]) == BootArgs(root, [dfl, linux]) == root + (" " + a) + (" " + b)
  {
    var linux, dfl := ASSIGN + ("\"" + a) + "\"", DEFAULT_ASSIGN + ("\"" + b) + "\"";
    Assignment(ASSIGN, a);
    Assignment(DEFAULT_ASSIGN, b);
    AssignsDiffer(linux, dfl);
    TwoLines(linux, dfl, ASSIGN);
    TwoLines(dfl, linux, ASSIGN);
    TwoLines(linux, dfl, DEFAULT_ASSIGN);
    TwoLines(dfl, linux, DEFAULT_ASSIGN);
  }

  lemma Assignment(assign: string, body: string)
    requires QuoteFree(body)
    ensures BodyOf(assign + ("\"" + body) + "\"", assign) == body && assign <= assign + ("\"" + body) + "\""
  {
    var line := assign + ("\"" + body) + "\"";
    assert line == assign + ("\"" + body) + ("\"" + "");
    SplitIsUnique(line, assign, body, "");
    assert line[..|assign|] == assign;
  }

  lemma AssignsDiffer(linux: string, dfl: string)
    requires ASSIGN <= linux && DEFAULT_ASSIGN <= dfl
    ensures !(ASSIGN <= dfl) && !(DEFAULT_ASSIGN <= linux)
  {
    assert ASSIGN[18] == '=' && DEFAULT_ASSIGN[18] == '_';
    assert linux[18] == ASSIGN[18] && dfl[18] == DEFAULT_ASSIGN[18];
  }

  lemma TwoLines(x: string, y: string, assign: string)
    ensures assign <= x ==> ValueIn([x, y], assign) == BodyOf(x, assign)
    ensures !(assign <= x) && assign <= y ==> ValueIn([x, y], assign) == BodyOf(y, assign)
  {
    assert [x, y][1..] == [y];
  }

  lemma {:induction false} ValueAt(file: File, assign: string, k: nat)
    requires k < |file| && assign <= file[k]
    requires forall i :: 0 <= i < k ==> !(assign <= file[i])
    ensures ValueIn(file, assign) == BodyOf(file[k], assign)
  {
    if k == 0 {
    } else {
      assert file[1..][k - 1] == file[k];
      ValueAt(file[1..], assign, k - 1);
    }
  }

  lemma {:induction false} ValueNowhere(file: File, assign: string)
    requires forall i :: 0 <= i < |file| ==> !(assign <= file[i])
    ensures ValueIn(file, assign) == ""
  {
    if file == [] {
    } else {
      ValueNowhere(file[1..], assign);
    }
  }

  // ---- The extractor -------------------------------------------------------

  /** The text of `key=...` in a command line, empty when the key is absent. */
  function FullValue(cmdline: string, key: string): string {
    match After(cmdline, key)
    case None => ""
    case Some(rest) => UpTo(rest, {' ', '\n'})
  }

  /** `extract_cmdline_param` into a `char[256]`. */
  function ParamValue(cmdline: string, key: string): string {
    Take(FullValue(cmdline, key), 255)
  }

  /** `benchmon_read_sysfs_str` into a `char cmdline[2048]`. */
  function Seen(cmdline: string): string {
    Take(cmdline, 2047)
  }

  // ---- Where a key can occur ------------------------------------------------

  predicate Clean(s: string) {
    !Contains(s, NOHZ_KEY) && !Contains(s, RCU_KEY)
  }

  lemma {:induction false} ContainsPart(a: string, x: string, b: string, n: string)
    requires n != "" && Contains(x, n)
    ensures Contains(a + x + b, n)
  {
    var s := a + x + b;
    if a == "" {
      assert s == x + b;
      ContainsPrefix(x, b, n);
    } else {
      assert s[1..] == a[1..] + x + b;
      ContainsPart(a[1..], x, b, n);
    }
  }

  lemma {:induction false} ContainsPrefix(x: string, b: string, n: string)
    requires n != "" && Contains(x, n)
    ensures Contains(x + b, n)
  {
    if n <= x {
      assert n <= x + b;
    } else {
      assert (x + b)[1..] == x[1..] + b;
      ContainsPrefix(x[1..], b, n);
    }
  }

  /** A word without separators occurs in a text exactly when it occurs in one of its chunks. */
  lemma {:induction false} ContainsChunk(cs: seq<string>, n: string)
    requires Chunked(cs) && n != "" && Plain(n)
    ensures Contains(Flatten(cs), n) <==> exists c :: c in cs && Contains(c, n)
  {
    if cs == [] {
    } else {
      var c, rest := cs[0], cs[1..];
      assert forall i :: 0 <= i < |rest| ==> rest[i] == cs[i + 1];
      assert forall d :: d in cs <==> d == c || d in rest;
      ContainsChunk(rest, n);
      var t := Flatten(rest);
      assert rest != [] ==> t == rest[0] + Flatten(rest[1..]);
      if Contains(c, n) {
        ContainsPrefix(c, t, n);
      } else {
        assert t != "" ==> Sep(t[0]) && t[0] !in n;
        SkipWord(c, t, n, if t == "" then ' ' else t[0]);
      }
    }
  }

  lemma Keys()
    ensures NOHZ == " " + NOHZ_KEY && RCU == " " + RCU_KEY
    ensures Plain(NOHZ_KEY) && Plain(RCU_KEY) && ' ' !in NOHZ_KEY && ' ' !in RCU_KEY
  {
  }

  /** Whether a line is clean once both scripts have run can be read off its chunks. */
  predicate CleanChunks(cs: seq<string>) {
    forall c :: c in cs && !(NOHZ <= c) && !(RCU <= c) ==> Clean(c)
  }

  lemma CleanByChunks(line: string)
    ensures Clean(StripBoot(line)) <==> CleanChunks(Chunks(line))
    ensures Chunks(StripBoot(line)) == Without(Without(Chunks(line), NOHZ), RCU)
  {
    Patterns();
    Keys();
    var l1 := StripParam(line, NOHZ);
    StripIsTokenDeletion(line, NOHZ);
    StripIsTokenDeletion(l1, RCU);
    WithoutMember(Chunks(line), NOHZ);
    WithoutMember(Chunks(l1), RCU);
    var cs := Chunks(StripBoot(line));
    ChunksOfText(StripBoot(line));
    ContainsChunk(cs, NOHZ_KEY);
    ContainsChunk(cs, RCU_KEY);
    assert forall c :: c in cs <==> c in Chunks(line) && !(NOHZ <= c) && !(RCU <= c);
  }

  /** In a `name=value` word whose value has no `=`, a key can only end at that `=`. */
  lemma OnlyKey(s: string, e: nat, n: string)
    requires e < |s| && n != "" && n[|n| - 1] == '='
    requires forall i :: 0 <= i < |s| && i != e ==> s[i] != '='
    requires |n| - 1 > e || s[e + 1 - |n|..e + 1] != n
    ensures !Contains(s, n)
  {
    AfterIsFirst(s, n);
    forall i | 0 <= i <= |s| ensures !(n <= s[i..]) {
      if i + |n| <= |s| {
        assert s[i..][|n| - 1] == s[i + |n| - 1];
        assert s[i..][..|n|] == s[i..i + |n|];
      }
    }
  }
}
