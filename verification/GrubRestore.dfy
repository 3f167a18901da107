/** What teardown makes of a GRUB file, line by line, and what the next boot shows of it. */
module GrubRestore {
  import opened Text
  import opened JsonText
  import opened SedScripts
  import opened Grub
  import opened GrubEdits
  import opened GrubBoot
  import opened GrubBaseline
  import opened GrubMachine
  import opened GrubRuns

  // ---- One restored line -----------------------------------------------------

  lemma KeyFacts()
    ensures Key(NOHZ_KEY) && Key(RCU_KEY) && NOHZ == " " + NOHZ_KEY && RCU == " " + RCU_KEY
  {
    Keys();
  }

  lemma SafeWord(v: string)
    requires SafeValue(v)
    ensures QuoteFree(v) && '=' !in v && '\n' !in v && ' ' !in v
  {
    assert forall i :: 0 <= i < |v| ==> !Sep(v[i]);
  }

  lemma SavedTokenOk(key: string, v: string)
    requires key == NOHZ_KEY || key == RCU_KEY
    requires SafeValue(v)
    ensures QuoteFree(key + v)
    ensures forall c :: c in Chunks(" " + (key + v)) ==> TokenOk(c)
  {
    KeyFacts();
    SafeWord(v);
    var p := " " + key;
    Patterns();
    assert " " + (key + v) == p + v;
    OneToken(p, v);
    KeepsApart(SOFT, p, v, |p + v|, if key == NOHZ_KEY then 3 else 1);
    assert forall i :: 0 <= i < |key| ==> !Sep(key[i]);
  }

  lemma InjectSavedEdits(line: string, key: string, v: string)
    requires key == NOHZ_KEY || key == RCU_KEY
    requires LineOk(line) && SafeValue(v)
    ensures Edited(line, InjectSaved(line, key, v))
  {
    if v != "" {
      SavedTokenOk(key, v);
      InjectEdits(line, key + v);
    }
  }

  lemma RestoreEdits(line: string, b: Baseline)
    requires LineOk(line) && SafeBaseline(b)
    ensures Edited(line, RestoreLine(line, b))
  {
    StripBootEdits(line);
    var l1 := InjectSaved(StripBoot(line), NOHZ_KEY, b.nohz);
    InjectSavedEdits(StripBoot(line), NOHZ_KEY, b.nohz);
    InjectSavedEdits(l1, RCU_KEY, b.rcu);
  }

  lemma InjectSavedQuoted(line: string, body: string, tail: string, key: string, v: string)
    requires key == NOHZ_KEY || key == RCU_KEY
    requires Assigns(line, ASSIGN, body, tail) && SafeValue(v)
    ensures Assigns(InjectSaved(line, key, v), ASSIGN, body + Written(" " + key, v), tail)
    ensures QuoteFree(body) ==> QuoteFree(body + Written(" " + key, v))
  {
    if v == "" {
      assert body + "" == body;
    } else {
      SavedTokenOk(key, v);
      InjectQuoted(line, body, tail, key + v);
      Assoc3(" ", key, v);
    }
  }

  /** The body teardown leaves: stripped, then the saved parameters that were present. */
  function RestoredBody(body: string, b: Baseline): string {
    StripBoot(body) + Written(NOHZ, b.nohz) + Written(RCU, b.rcu)
  }

  lemma RestoreQuoted(line: string, body: string, tail: string, b: Baseline)
    requires Assigns(line, ASSIGN, body, tail) && SafeBaseline(b)
    ensures Assigns(RestoreLine(line, b), ASSIGN, RestoredBody(body, b), StripBoot(tail))
    ensures QuoteFree(body) ==> QuoteFree(RestoredBody(body, b))
  {
    KeyFacts();
    Names();
    StripBootQuoted(line, ASSIGN, body, tail);
    var l1 := InjectSaved(StripBoot(line), NOHZ_KEY, b.nohz);
    InjectSavedQuoted(StripBoot(line), StripBoot(body), StripBoot(tail), NOHZ_KEY, b.nohz);
    InjectSavedQuoted(l1, StripBoot(body) + Written(NOHZ, b.nohz), StripBoot(tail), RCU_KEY, b.rcu);
  }

  lemma RestoreElsewhere(line: string, b: Baseline)
    requires LineOk(line) && !(ASSIGN <= line)
    ensures RestoreLine(line, b) == StripBoot(line)
  {
    StripBootEdits(line);
    InjectElsewhere(StripBoot(line), NOHZ_KEY + b.nohz);
    InjectElsewhere(StripBoot(line), RCU_KEY + b.rcu);
  }

  lemma CleanBody(line: string, assign: string, body: string, tail: string)
    requires Splits(line, assign, body, tail) && Name(assign) && CleanChunks(Chunks(line))
    ensures Clean(StripBoot(body))
  {
    KeyFacts();
    CleanByChunks(line);
    StripBootQuoted(line, assign, body, tail);
    var pre, post := assign + "\"", "\"" + StripBoot(tail);
    Assoc3(assign, "\"", StripBoot(body));
    assert StripBoot(line) == pre + StripBoot(body) + post;
    if Contains(StripBoot(body), NOHZ_KEY) { ContainsPart(pre, StripBoot(body), post, NOHZ_KEY); }
    if Contains(StripBoot(body), RCU_KEY) { ContainsPart(pre, StripBoot(body), post, RCU_KEY); }
  }

  // ---- The restored file -------------------------------------------------------

  lemma LinuxLine(file: File) returns (k: nat)
    requires FileOk(file)
    ensures k < |file| && ASSIGN <= file[k] && ValueIn(file, ASSIGN) == BodyOf(file[k], ASSIGN)
  {
    k :| 0 <= k < |file| && ASSIGN <= file[k];
    ValueAt(file, ASSIGN, k);
  }

  /** The value of a variable is the body of its only line, or empty. */
  lemma DefaultValue(file: File)
    requires FileOk(file)
    ensures (exists k :: 0 <= k < |file| && DEFAULT_ASSIGN <= file[k] &&
                         ValueIn(file, DEFAULT_ASSIGN) == BodyOf(file[k], DEFAULT_ASSIGN)) ||
            ((forall k :: 0 <= k < |file| ==> !(DEFAULT_ASSIGN <= file[k])) && ValueIn(file, DEFAULT_ASSIGN) == "")
  {
    if k :| 0 <= k < |file| && DEFAULT_ASSIGN <= file[k] {
      ValueAt(file, DEFAULT_ASSIGN, k);
    } else {
      ValueNowhere(file, DEFAULT_ASSIGN);
    }
  }

  lemma RestoredOk(file: File, b: Baseline)
    requires FileOk(file) && SafeBaseline(b)
    ensures FileOk(Restored(file, b))
  {
    forall i | 0 <= i < |file| ensures Edited(file[i], Restored(file, b)[i]) {
      RestoreEdits(file[i], b);
    }
    EditedFile(file, Restored(file, b));
  }

  lemma RestoredLinux(file: File, b: Baseline) returns (body: string)
    requires FileOk(file) && SafeBaseline(b)
    ensures ValueIn(Restored(file, b), ASSIGN) == RestoredBody(body, b) && Clean(StripBoot(body))
  {
    Names();
    RestoredOk(file, b);
    var k := LinuxLine(Restored(file, b));
    RestoreEdits(file[k], b);
    var tail := TailOf(file[k], ASSIGN);
    body := BodyOf(file[k], ASSIGN);
    RestoreQuoted(file[k], body, tail, b);
    SplitIsUnique(RestoreLine(file[k], b), ASSIGN, RestoredBody(body, b), StripBoot(tail));
    CleanBody(file[k], ASSIGN, body, tail);
  }

  lemma RestoredDefault(file: File, b: Baseline)
    requires FileOk(file) && SafeBaseline(b)
    ensures Clean(ValueIn(Restored(file, b), DEFAULT_ASSIGN))
  {
    Names();
    RestoredOk(file, b);
    DefaultValue(Restored(file, b));
    if k :| 0 <= k < |file| && DEFAULT_ASSIGN <= Restored(file, b)[k] &&
            ValueIn(Restored(file, b), DEFAULT_ASSIGN) == BodyOf(Restored(file, b)[k], DEFAULT_ASSIGN) {
      var line := file[k];
      RestoreEdits(line, b);
      assert Restored(file, b)[k] == RestoreLine(line, b);
      NotBoth(line);
      RestoreElsewhere(line, b);
      var body, tail := BodyOf(line, DEFAULT_ASSIGN), TailOf(line, DEFAULT_ASSIGN);
      StripBootQuoted(line, DEFAULT_ASSIGN, body, tail);
      SplitIsUnique(StripBoot(line), DEFAULT_ASSIGN, StripBoot(body), StripBoot(tail));
      CleanBody(line, DEFAULT_ASSIGN, body, tail);
    }
  }

  lemma NotBoth(line: string)
    ensures !(ASSIGN <= line && DEFAULT_ASSIGN <= line)
  {
    assert ASSIGN[18] == '=' && DEFAULT_ASSIGN[18] == '_';
  }

  /**
   After teardown the next boot shows exactly the saved values: each present parameter once and with its
   value, each absent parameter not at all, whatever benchmon or others had written before.
   */
  lemma RestoredBoot(root: string, file: File, b: Baseline)
    requires FileOk(file) && SafeBaseline(b) && Clean(root)
    ensures ShowsOnly(BootArgs(root, Restored(file, b)), b)
  {
    var body := RestoredLinux(file, b);
    RestoredDefault(file, b);
    RestoredArgs(root, StripBoot(body), ValueIn(Restored(file, b), DEFAULT_ASSIGN), b);
  }

  lemma RestoredArgs(root: string, body: string, d: string, b: Baseline)
    requires Clean(root) && Clean(body) && Clean(d) && SafeBaseline(b)
    ensures ShowsOnly(root + (" " + (body + Written(NOHZ, b.nohz) + Written(RCU, b.rcu))) + (" " + d), b)
  {
    KeyFacts();
    var n, r, e := Written(NOHZ, b.nohz), Written(RCU, b.rcu), " " + d;
    var x := root + [' '] + body;
    NoOccurrenceJoin(root, body, NOHZ_KEY, ' ');
    NoOccurrenceJoin(root, body, RCU_KEY, ' ');
    SafeWord(b.nohz);
    SafeWord(b.rcu);
    OtherBoot(b.rcu);
    OtherBoot(b.nohz);
    WrittenClean(x, RCU_KEY, NOHZ_KEY, b.nohz);
    WrittenClean("", NOHZ_KEY, RCU_KEY, b.rcu);
    assert "" + r == r;
    JoinTail(r, d, NOHZ_KEY);
    JoinTail("", d, RCU_KEY);
    assert "" + e == e;
    ShownValue(x, NOHZ_KEY, b.nohz, r + e);
    ShownValue(x + n, RCU_KEY, b.rcu, e);
    ArgsText(root, " ", body, n, r, e);
    assert x == root + " " + body;
    Assoc3(x + n, r, e);
  }

  lemma ArgsText(root: string, sp: string, body: string, n: string, r: string, e: string)
    ensures root + (sp + (body + n + r)) + e == root + sp + body + n + r + e
  {
    Assoc3(sp, body + n, r);
    Assoc3(sp, body, n);
    Assoc3(root, sp + body + n, r);
    Assoc3(root, sp + body, n);
    Assoc3(root, sp, body);
  }

  /** Writing another parameter adds no occurrence of a key. */
  lemma WrittenClean(x: string, key: string, other: string, v: string)
    requires Key(key) && !Contains(x, key) && !Contains(other + v, key)
    ensures !Contains(x + Written(" " + other, v), key)
  {
    if v == "" {
      assert x + "" == x;
    } else {
      Assoc3(" ", other, v);
      NoOccurrenceJoin(x, other + v, key, ' ');
      Assoc3(x, " ", other + v);
    }
  }

  lemma JoinTail(x: string, d: string, key: string)
    requires Key(key) && !Contains(x, key) && !Contains(d, key)
    ensures !Contains(x + (" " + d), key)
  {
    NoOccurrenceJoin(x, d, key, ' ');
    Assoc3(x, " ", d);
  }
}
