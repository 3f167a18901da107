/** The TUI's view of the running kernel (`capture_current_state`) agrees with what setup.c applied. */
module Capture {
  import opened Text
  import opened JsonText
  import opened Grub
  import opened GrubBoot
  import opened GrubRuns
  import opened GrubRestore
  import opened GrubTheorems
  import opened GrubLimits

  // ---- The Rust splitters ----------------------------------------------------

  /** `split_whitespace`, with the current word so far. */
  function Words(current: string, s: string): seq<string>
    decreases |s|
  {
    if s == "" then Optional(current)
    else if IsWhitespace(s[0]) then Optional(current) + Words("", s[1..])
    else Words(current + [s[0]], s[1..])
  }

  /** `filter_map(|s| s.parse().ok())`. */
  function ParseAll(parts: seq<string>): seq<int> {
    if parts == [] then []
    else (match ParseI32(parts[0]) case Some(v) => [v] case None => []) + ParseAll(parts[1..])
  }

  /** `trim_start_matches(p)`: every leading repetition goes. */
  function TrimMatches(s: string, p: string): string
    requires p != ""
    decreases |s|
  {
    if p <= s then TrimMatches(s[|p|..], p) else s
  }

  function FirstStartingWith(words: seq<string>, p: string): Option<string> {
    if words == [] then None else if p <= words[0] then Some(words[0]) else FirstStartingWith(words[1..], p)
  }

  // ---- snapshot_store.rs:317-336 -----------------------------------------------

  datatype Captured = Captured(cores: seq<int>, nohz: bool, rcu: bool)

  function CaptureCmdline(cmdline: string): Captured {
    var words := Words("", cmdline);
    var cores := match FirstStartingWith(words, "isolcpus=")
                 case Some(w) => ParseAll(Split(TrimMatches(w, "isolcpus="), ','))
                 case None => [];
    Captured(cores,
             FirstStartingWith(words, NOHZ_KEY).Some?,
             FirstStartingWith(words, RCU_KEY).Some?)
  }

  // ---- Words of a concatenation -------------------------------------------------

  lemma {:induction false} WordsConcat(current: string, a: string, b: string)
    requires b == "" || IsWhitespace(b[0])
    ensures Words(current, a + b) == Words(current, a) + Words("", b)
    decreases |a|
  {
    if a == "" {
      assert a + b == b;
      if b != "" {
        assert Words("", b) == Words("", b[1..]);
      }
    } else {
      assert (a + b)[0] == a[0] && (a + b)[1..] == a[1..] + b;
      WordsConcat(if IsWhitespace(a[0]) then "" else current + [a[0]], a[1..], b);
    }
  }

  lemma {:induction false} OneWord(current: string, w: string)
    requires forall c :: c in w ==> !IsWhitespace(c)
    requires current + w != ""
    ensures Words(current, w) == [current + w]
    decreases |w|
  {
    if w == "" {
      assert current + w == current;
    } else {
      assert w[0] in w && forall c :: c in w[1..] ==> c in w;
      OneWord(current + [w[0]], w[1..]);
      assert current + [w[0]] + w[1..] == current + w;
    }
  }

  lemma SpacedWord(w: string)
    requires w != "" && forall c :: c in w ==> !IsWhitespace(c)
    ensures Words("", " " + w) == [w]
  {
    assert (" " + w)[1..] == w;
    OneWord("", w);
    assert "" + w == w;
  }

  lemma {:induction false} WordsArePart(current: string, s: string, n: string)
    requires n != "" && !Contains(current + s, n)
    ensures forall w :: w in Words(current, s) ==> !Contains(w, n)
    decreases |s|
  {
    if s == "" {
      assert current + s == current;
    } else {
      var rest := s[1..];
      assert current + s == current + [s[0]] + rest;
      if IsWhitespace(s[0]) {
        assert current + s == "" + current + ([s[0]] + rest);
        if Contains(current, n) { ContainsPart("", current, [s[0]] + rest, n); }
        assert current + s == (current + [s[0]]) + rest + "";
        if Contains(rest, n) { ContainsPart(current + [s[0]], rest, "", n); }
        assert "" + rest == rest;
        WordsArePart("", rest, n);
      } else {
        WordsArePart(current + [s[0]], rest, n);
      }
    }
  }

  lemma {:induction false} FirstInConcat(a: seq<string>, b: seq<string>, p: string)
    requires forall w :: w in a ==> !(p <= w)
    ensures FirstStartingWith(a + b, p) == FirstStartingWith(b, p)
  {
    if a == [] {
      assert a + b == b;
    } else {
      assert a[0] in a && forall w :: w in a[1..] ==> w in a;
      assert (a + b)[1..] == a[1..] + b;
      FirstInConcat(a[1..], b, p);
    }
  }

  lemma PrefixContained(w: string, n: string)
    ensures n <= w ==> Contains(w, n)
  {
  }

  /** Words of a text that does not mention `n` are skipped by the search. */
  lemma SkipWords(x: string, y: string, n: string)
    requires n != "" && !Contains(x, n) && (y == "" || IsWhitespace(y[0]))
    ensures FirstStartingWith(Words("", x + y), n) == FirstStartingWith(Words("", y), n)
  {
    WordsConcat("", x, y);
    assert "" + x == x;
    WordsArePart("", x, n);
    forall w | w in Words("", x) ensures !(n <= w) { PrefixContained(w, n); }
    FirstInConcat(Words("", x), Words("", y), n);
  }

  lemma FoundWord(w: string, y: string, n: string)
    requires n <= w && w != "" && (forall c :: c in w ==> !IsWhitespace(c)) && (y == "" || IsWhitespace(y[0]))
    ensures FirstStartingWith(Words("", " " + w + y), n) == Some(w)
  {
    WordsConcat("", " " + w, y);
    SpacedWord(w);
  }

  // ---- The printed list ------------------------------------------------------------

  lemma {:induction false} ParseAllConcat(a: seq<string>, b: seq<string>)
    ensures ParseAll(a + b) == ParseAll(a) + ParseAll(b)
  {
    if a == [] {
      assert a + b == b;
    } else {
      var head := match ParseI32(a[0]) case Some(v) => [v] case None => [];
      assert (a + b)[0] == a[0] && (a + b)[1..] == a[1..] + b;
      ParseAllConcat(a[1..], b);
      assert ParseAll(a + b) == head + ParseAll(a[1..] + b) && ParseAll(a) == head + ParseAll(a[1..]);
    }
  }

  lemma ParseOne(n: i32)
    ensures ParseAll([Dec(n)]) == [n] && ',' !in Dec(n)
  {
    ParseDec(n);
    DecPlain(n);
    assert ParseI32(Dec(n)) == Some(n);
  }

  lemma AnotherText(text: string, cores: seq<i32>, last: i32)
    requires ParseAll(Split(text, ',')) == cores
    ensures ParseAll(Split(text + ("," + Dec(last)), ',')) == cores + [last]
  {
    ParseOne(last);
    SplitLast(text, Dec(last), ',');
    ParseAllConcat(Split(text, ','), [Dec(last)]);
  }

  /** The C list printer and the Rust list splitter are inverses on every non-empty list of core ids. */
  lemma {:induction false} ListRoundTrip(cores: seq<i32>)
    requires cores != []
    ensures ParseAll(Split(JoinCores(cores), ',')) == cores
  {
    var init, last := cores[..|cores| - 1], cores[|cores| - 1];
    assert cores == init + [last];
    ParseOne(last);
    if init == [] {
      SplitNone(Dec(last), ',');
    } else {
      ListRoundTrip(init);
      JoinMore(init, last);
      AnotherText(JoinCores(init), init, last);
    }
  }

  // ---- The theorem --------------------------------------------------------------------

  /** No `isolcpus=` where the scripts cannot reach it. */
  predicate NoOtherIsolation(root: string, file: File) {
    !Contains(root, "isolcpus=") && forall i :: 0 <= i < |file| ==> !Contains(StripFive(file[i]), "isolcpus=")
  }

  lemma IsolationWord(cores: seq<i32>)
    requires cores != []
    ensures var w := "isolcpus=" + JoinCores(cores);
            TrimMatches(w, "isolcpus=") == JoinCores(cores) && forall c :: c in w ==> !IsWhitespace(c)
  {
    ListChars(cores);
    var list, p := JoinCores(cores), "isolcpus=";
    assert list[0] in list;
    assert (p + list)[|p|..] == list && p <= p + list;
    assert !(p <= list);
  }

  lemma KeyWord(p: string, key: string, cores: string)
    requires p == " " + key && 1 < |p| <= 127
    requires forall c :: c in key || c in cores ==> !IsWhitespace(c)
    ensures var w := Take(p + cores, 127);
            w == " " + w[1..] && key <= w[1..] && w[1..] != "" && forall c :: c in w[1..] ==> !IsWhitespace(c)
  {
    var w := Take(p + cores, 127);
    assert p + cores == " " + (key + cores);
    assert forall i :: 0 <= i < |w[1..]| ==> w[1..][i] == (key + cores)[i];
    assert key == (key + cores)[..|key|] == w[1..][..|key|];
  }

  lemma AbsentWord(s: string, n: string)
    requires n != "" && !Contains(s, n)
    ensures FirstStartingWith(Words("", s), n) == None
  {
    assert "" + s == s;
    WordsArePart("", s, n);
    var ws := Words("", s);
    forall w | w in ws ensures !(n <= w) { PrefixContained(w, n); }
    FirstInConcat(ws, [], n);
    assert ws + [] == ws;
  }

  predicate OneWordText(w: string) {
    w != "" && forall c :: c in w ==> !IsWhitespace(c)
  }

  lemma {:induction false} FirstOfMore(ws: seq<string>, w: string, p: string)
    ensures FirstStartingWith(ws + [w], p).Some? <==> FirstStartingWith(ws, p).Some? || p <= w
  {
    if ws == [] {
      assert ws + [w] == [w];
    } else {
      assert (ws + [w])[1..] == ws[1..] + [w];
      FirstOfMore(ws[1..], w, p);
    }
  }

  /** One word more at the end of the command line: it sets the flags it starts with, and leaves the others. */
  lemma CaptureMore(cmdline: string, w: string)
    requires OneWordText(w)
    ensures CaptureCmdline(cmdline + " " + w).nohz == (CaptureCmdline(cmdline).nohz || "nohz_full=" <= w)
    ensures CaptureCmdline(cmdline + " " + w).rcu == (CaptureCmdline(cmdline).rcu || "rcu_nocbs=" <= w)
  {
    assert cmdline + " " + w == cmdline + (" " + w);
    WordsConcat("", cmdline, " " + w);
    SpacedWord(w);
    FirstOfMore(Words("", cmdline), w, "nohz_full=");
    FirstOfMore(Words("", cmdline), w, "rcu_nocbs=");
  }

  /** The command line with this core list in its first isolcpus word. */
  function Isolating(x: string, list: string, y: string): string {
    x + (" isolcpus=" + list + y)
  }

  lemma TrimRepeated(p: string, list: string)
    requires p != "" && !(p <= list)
    ensures TrimMatches(p + list, p) == TrimMatches(p + (p + list), p) == list
  {
    assert (p + list)[..|p|] == p && (p + list)[|p|..] == list;
    assert (p + (p + list))[..|p|] == p && (p + (p + list))[|p|..] == p + list;
  }

  lemma WordBehind(x: string, p: string, list: string, y: string)
    requires p != "" && !Contains(x, p) && (y == "" || IsWhitespace(y[0]))
    requires forall c :: c in p + list ==> !IsWhitespace(c)
    ensures FirstStartingWith(Words("", x + (" " + p + list + y)), p) == Some(p + list)
  {
    var w := p + list;
    assert w[..|p|] == p;
    assert " " + p + list + y == " " + w + y;
    SkipWords(x, " " + w + y, p);
    FoundWord(w, y, p);
  }

  lemma CaptureList(x: string, list: string, y: string)
    requires !Contains(x, "isolcpus=") && (y == "" || IsWhitespace(y[0]))
    requires (forall c :: c in list ==> !IsWhitespace(c)) && !("isolcpus=" <= list)
    ensures CaptureCmdline(Isolating(x, list, y)).cores == ParseAll(Split(list, ','))
  {
    TrimRepeated("isolcpus=", list);
    assert " isolcpus=" == " " + "isolcpus=";
    WordBehind(x, "isolcpus=", list, y);
  }

  lemma PrefixOfMore(p: string, a: string, b: string)
    ensures p <= a ==> p <= a + b
  {
    if p <= a {
      assert (a + b)[..|p|] == a[..|p|];
    }
  }

  lemma OneItemMore(list: string, item: string)
    requires ',' !in item
    ensures ParseAll(Split(list + "," + item, ',')) == ParseAll(Split(list, ',')) + Ids(item)
  {
    assert list + "," + item == list + ([','] + item);
    SplitLast(list, item, ',');
    ParseAllConcat(Split(list, ','), [item]);
  }

  /** What one item of the list adds: its number, and nothing when it is none, as in a range. */
  function Ids(item: string): seq<int> {
    match ParseI32(item) case Some(v) => [v] case None => []
  }

  /**
   The cores come from the first isolcpus word, whatever follows it, and from its items one by one; a name
   that is repeated in the word does not count.
   */
  lemma CaptureItems(x: string, list: string, item: string, y: string)
    requires !Contains(x, "isolcpus=") && (y == "" || IsWhitespace(y[0]))
    requires (forall c :: c in list + item ==> !IsWhitespace(c)) && ',' !in item
    requires !("isolcpus=" <= list + ("," + item)) && !("isolcpus=" <= item)
    ensures CaptureCmdline(Isolating(x, item, y)).cores == Ids(item)
    ensures CaptureCmdline(Isolating(x, list + "," + item, y)).cores ==
            CaptureCmdline(Isolating(x, list, y)).cores + Ids(item)
    ensures CaptureCmdline(Isolating(x, "isolcpus=" + item, y)).cores == Ids(item)
  {
    assert forall c :: c in list || c in item ==> c in list + item;
    CaptureList(x, item, y);
    SplitNone(item, ',');
    PrefixOfMore("isolcpus=", list, "," + item);
    CaptureList(x, list, y);
    assert list + "," + item == list + ("," + item);
    CaptureList(x, list + "," + item, y);
    OneItemMore(list, item);
    CaptureRepeated(x, item, y);
  }

  lemma CaptureRepeated(x: string, list: string, y: string)
    requires !Contains(x, "isolcpus=") && (y == "" || IsWhitespace(y[0]))
    requires (forall c :: c in list ==> !IsWhitespace(c)) && !("isolcpus=" <= list)
    ensures CaptureCmdline(Isolating(x, "isolcpus=" + list, y)).cores == ParseAll(Split(list, ','))
  {
    TrimRepeated("isolcpus=", list);
    assert " isolcpus=" == " " + "isolcpus=";
    WordBehind(x, "isolcpus=", "isolcpus=" + list, y);
  }

  /** A command line without a parameter is captured as having no isolated cores, or the flag off. */
  lemma CaptureWithout(cmdline: string)
    ensures !Contains(cmdline, "isolcpus=") ==> CaptureCmdline(cmdline).cores == []
    ensures !Contains(cmdline, "nohz_full=") ==> !CaptureCmdline(cmdline).nohz
    ensures !Contains(cmdline, "rcu_nocbs=") ==> !CaptureCmdline(cmdline).rcu
  {
    if !Contains(cmdline, "isolcpus=") {
      AbsentWord(cmdline, "isolcpus=");
    }
    if !Contains(cmdline, "nohz_full=") {
      AbsentWord(cmdline, "nohz_full=");
    }
    if !Contains(cmdline, "rcu_nocbs=") {
      AbsentWord(cmdline, "rcu_nocbs=");
    }
  }

  lemma OtherPart(p: string, key: string, cores: string, other: string)
    requires p == " " + key && Key(other) && !Contains(key + cores, other)
    ensures !Contains(Take(p + cores, 127), other)
  {
    var s, t := p + cores, Take(p + cores, 127);
    assert s == " " + (key + cores);
    SkipForeign(" ", key + cores, other);
    assert s == t + s[|t|..];
    if Contains(t, other) { ContainsPrefix(t, s[|t|..], other); }
  }

  lemma Printable()
    ensures forall c :: c in NOHZ_KEY || c in RCU_KEY ==> !IsWhitespace(c)
  {
  }

  lemma ListPrintable(cores: seq<i32>)
    ensures forall c :: c in CoreList(cores) ==> !IsWhitespace(c)
  {
    ListChars(cores);
    assert forall c :: c in CoreList(cores) ==> c in JoinCores(cores);
  }

  /** A key is found among the words exactly when its optional part was written. */
  lemma FlagSeen(x: string, p: string, key: string, part: string, cores: string, on: bool, rest: string)
    requires p == " " + key && Key(key) && 1 < |p| <= 127 && part == if on then Take(p + cores, 127) else ""
    requires forall c :: c in key || c in cores ==> !IsWhitespace(c)
    requires !Contains(x, key) && !Contains(rest, key) && rest != "" && rest[0] == ' '
    ensures FirstStartingWith(Words("", x + part + rest), key).Some? == on
  {
    Assoc3(x, part, rest);
    if on {
      KeyWord(p, key, cores);
      var w := part[1..];
      SkipWords(x, part + rest, key);
      FoundWord(w, rest, key);
    } else {
      assert part + rest == rest;
      SkipWords(x, rest, key);
      AbsentWord(rest, key);
    }
  }

  lemma IsolationSeen(x: string, cores: seq<i32>, rest: string)
    requires cores != [] && |JoinCores(cores)| <= 255
    requires !Contains(x, "isolcpus=") && rest != "" && rest[0] == ' '
    ensures FirstStartingWith(Words("", x + (ISOL + CoreList(cores)) + rest), "isolcpus=") ==
            Some("isolcpus=" + JoinCores(cores))
  {
    var w := "isolcpus=" + JoinCores(cores);
    IsolationPattern();
    IsolationWord(cores);
    Assoc3(" ", "isolcpus=", JoinCores(cores));
    Assoc3(x, " " + w, rest);
    SkipWords(x, " " + w + rest, "isolcpus=");
    FoundWord(w, rest, "isolcpus=");
  }

  /** The text behind the optional parts: no key occurs in it. */
  lemma TailClean(c: string, d: string)
    requires Clean(c) && Clean(d) && c != "" && c[0] == ' '
    ensures var rest := c + SOFT + (" " + d) + "\n"; Clean(rest) && rest[0] == ' '
  {
    KeyFacts();
    CleanRest(c, d);
    var t := c + SOFT + (" " + d);
    assert '\n' !in NOHZ_KEY && '\n' !in RCU_KEY;
    SkipWord(t, "\n", NOHZ_KEY, '\n');
    SkipWord(t, "\n", RCU_KEY, '\n');
    SkipForeign("\n", "", NOHZ_KEY);
    SkipForeign("\n", "", RCU_KEY);
    assert "\n" + "" == "\n";
  }

  lemma CaptureOf(x: string, cfg: GrubConfig, rest: string)
    requires cfg.cores != [] && |JoinCores(cfg.cores)| <= 255
    requires Clean(x) && !Contains(x, "isolcpus=") && Clean(rest) && rest != "" && rest[0] == ' '
    ensures CaptureCmdline(x + (ISOL + CoreList(cfg.cores)) + NohzPart(cfg) + RcuPart(cfg) + rest) ==
            Captured(cfg.cores, cfg.nohz, cfg.rcu)
  {
    var cores := CoreList(cfg.cores);
    var i, n, r := ISOL + cores, NohzPart(cfg), RcuPart(cfg);
    KeyFacts();
    Printable();
    ListPrintable(cfg.cores);
    NoEquals(cfg.cores);
    OtherBoot(cores);
    OtherPart(NOHZ, NOHZ_KEY, cores, RCU_KEY);
    OtherPart(RCU, RCU_KEY, cores, NOHZ_KEY);
    CleanHead(x, cores);
    PartStart(n, r, rest);
    Assoc3(x + i, n, r + rest);
    Assoc3(x + i + n, r, rest);
    IsolationSeen(x, cfg.cores, n + (r + rest));
    ListRoundTrip(cfg.cores);
    IsolationWord(cfg.cores);
    JoinPart(r, rest, NOHZ_KEY);
    FlagSeen(x + i, NOHZ, NOHZ_KEY, n, cores, cfg.nohz, r + rest);
    JoinPart2(x + i, n, RCU_KEY);
    FlagSeen(x + i + n, RCU, RCU_KEY, r, cores, cfg.rcu, rest);
  }

  lemma PartStart(n: string, r: string, rest: string)
    requires (n == "" || n[0] == ' ') && (r == "" || r[0] == ' ') && rest != "" && rest[0] == ' '
    ensures r + rest != "" && (r + rest)[0] == ' ' && n + (r + rest) != "" && (n + (r + rest))[0] == ' '
  {
  }

  lemma JoinPart(a: string, b: string, key: string)
    requires Key(key) && !Contains(a, key) && !Contains(b, key) && b != "" && b[0] == ' '
    ensures !Contains(a + b, key)
  {
    SkipWord(a, b, key, ' ');
  }

  lemma JoinPart2(a: string, b: string, key: string)
    requires Key(key) && !Contains(a, key) && !Contains(b, key) && (b == "" || b[0] == ' ')
    ensures !Contains(a + b, key)
  {
    if b == "" {
      assert a + b == a;
    } else {
      JoinPart(a, b, key);
    }
  }

  /**
   Apply, boot, capture: after an apply that rewrites the file and a reboot, the TUI reads from the kernel
   command line exactly the applied core list and the two flags.
   */
  lemma CaptureAgrees(root: string, file: File, cfg: GrubConfig)
    requires FileOk(file) && Clean(root) && Intact(cfg) && NoOtherIsolation(root, file)
    requires cfg.cores != [] && |JoinCores(cfg.cores)| <= 255
    ensures CaptureCmdline(BootArgs(root, ApplyText(file, cfg)) + "\n") == Captured(cfg.cores, cfg.nohz, cfg.rcu)
  {
    var k := AppliedLinux(file, cfg);
    var body := AppliedDefault(file, cfg);
    var b, d := StripAll(BodyOf(file[k], ASSIGN)), StripAll(body);
    var x, i, c := root + (" " + b), ISOL + CoreList(cfg.cores), CstatePart(cfg);
    var rest := c + SOFT + (" " + d);
    KeyFacts();
    JoinTail(root, b, NOHZ_KEY);
    JoinTail(root, b, RCU_KEY);
    NoIsolationInBody(file[k]);
    JoinIsolation(root, b);
    ParamParts(cfg);
    BootText(root, b, Params(cfg), d, i, NohzPart(cfg), RcuPart(cfg), c, SOFT);
    DecPlain(if cfg.maxCstate >= 0 then cfg.maxCstate else 0);
    OtherCstate(Dec(if cfg.maxCstate >= 0 then cfg.maxCstate else 0));
    TailClean(c, d);
    Assoc3(x + i + NohzPart(cfg) + RcuPart(cfg), rest, "\n");
    CaptureOf(x, cfg, rest + "\n");
  }

  lemma NoIsolationInBody(line: string)
    requires LineOk(line) && ASSIGN <= line && !Contains(StripFive(line), "isolcpus=")
    ensures !Contains(StripAll(BodyOf(line, ASSIGN)), "isolcpus=")
  {
    Names();
    var body, tail := BodyOf(line, ASSIGN), TailOf(line, ASSIGN);
    StripAllQuoted(line, ASSIGN, body, tail);
    Assoc3(ASSIGN, "\"", StripAll(body));
    if Contains(StripAll(body), "isolcpus=") {
      ContainsPart(ASSIGN + "\"", StripAll(body), "\"" + StripAll(tail), "isolcpus=");
    }
  }

  lemma JoinIsolation(root: string, b: string)
    requires !Contains(root, "isolcpus=") && !Contains(b, "isolcpus=")
    ensures !Contains(root + (" " + b), "isolcpus=")
  {
    assert ' ' !in "isolcpus=";
    NoOccurrenceJoin(root, b, "isolcpus=", ' ');
    assert root + [' '] + b == root + (" " + b);
  }
}
