/** The saved GRUB baseline: the JSON text setup.c prints into a 512-byte buffer and reads back. */
module GrubBaseline {
  import opened Text
  import opened JsonText

  /** The values of nohz_full= and rcu_nocbs= before benchmon touched GRUB; empty means absent. */
  datatype Baseline = Baseline(nohz: string, rcu: string)

  const NOHZ_FIELD := "nohz_full_cores"
  const RCU_FIELD := "rcu_nocbs_cores"

  function Entries(b: Baseline): seq<Entry> {
    [Entry(NOHZ_FIELD, Quoted(b.nohz)), Entry(RCU_FIELD, Quoted(b.rcu))]
  }

  /** `snprintf(json, 512, ...)` and `fputs`: the text of grub_preconfig.json. */
  function BaselineText(b: Baseline): string {
    Take(Object(Entries(b), "  ", "}\n"), 511)
  }

  /** `fread(buf, 1, 511)` and `read_json_str` into a zeroed `char[256]`. */
  function ReadField(file: string, field: string): string {
    match CString(Take(file, 511), field)
    case None => ""
    case Some(v) => Take(v, 255)
  }

  function ReadBaseline(file: string): Baseline {
    Baseline(ReadField(file, NOHZ_FIELD), ReadField(file, RCU_FIELD))
  }

  /** The printed object, line by line. */
  lemma BaselineByName(b: Baseline)
    ensures BaselineText(b) ==
            Take(Object([Entry("nohz_full_cores", Quoted(b.nohz)), Entry("rcu_nocbs_cores", Quoted(b.rcu))],
                        "  ", "}\n"), 511)
  {
  }

  // ---- The text in front of the second value -------------------------------

  lemma Fields()
    ensures GoodKey(NOHZ_FIELD) && GoodKey(RCU_FIELD) && NOHZ_FIELD != RCU_FIELD
    ensures |NOHZ_FIELD| == 15 && |RCU_FIELD| == 15
  {
  }

  function FirstLine(nohz: string): string {
    Line(Entry(NOHZ_FIELD, Quoted(nohz)), "  ", ",\n")
  }

  /** The text around an arbitrary rest behind the opening quote of the second value. */
  function Around(nohz: string, rest: string): string {
    "{\n" + (FirstLine(nohz) + SecondLine(rest))
  }

  lemma QuotedIsGood(v: string)
    requires QuoteFree(v)
    ensures GoodValue(Quoted(v))
  {
    assert Quoted(v)[1..|Quoted(v)| - 1] == v;
  }

  function SecondLine(rest: string): string {
    "  " + ("\"" + (RCU_FIELD + ("\"" + (": \"" + rest))))
  }

  lemma FirstLineRead(nohz: string, second: string, key: string)
    requires QuoteFree(nohz) && GoodKey(key)
    ensures key == NOHZ_FIELD ==> CString("{\n" + (FirstLine(nohz) + second), key) == Some(nohz)
    ensures key != NOHZ_FIELD ==> CString("{\n" + (FirstLine(nohz) + second), key) == CString(second, key)
  {
    Fields();
    QuotedIsGood(nohz);
    var e := Entry(NOHZ_FIELD, Quoted(nohz));
    SkipQuoteFree("{\n", FirstLine(nohz) + second, key);
    OneLine(e, "  ", ",\n", second, key);
    ReadFirst(nohz, ",\n" + second);
  }

  lemma SecondLineRead(rest: string)
    ensures CString(SecondLine(rest), RCU_FIELD) == ToQuote(rest)
  {
    Fields();
    var y := ": \"" + rest;
    SkipQuoteFree("  ", "\"" + (RCU_FIELD + ("\"" + y)), RCU_FIELD);
    QuotedText(RCU_FIELD, y, RCU_FIELD);
    ReadSecond(y[1..], rest);
  }

  /** Both readers work on whatever follows the opening quote of the second value. */
  lemma ReadAround(text: string, nohz: string, rest: string)
    requires QuoteFree(nohz) && text == Around(nohz, rest)
    ensures CString(text, NOHZ_FIELD) == Some(nohz)
    ensures CString(text, RCU_FIELD) == ToQuote(rest)
  {
    Fields();
    var second := SecondLine(rest);
    FirstLineRead(nohz, second, NOHZ_FIELD);
    FirstLineRead(nohz, second, RCU_FIELD);
    SecondLineRead(rest);
  }

  /** What the buffers of the reader take of any file: 511 characters of it, and 255 of a value. */
  lemma ReadLimits(file: string, more: string, nohz: string, rest: string)
    ensures |file| == 511 ==> ReadBaseline(file + more) == ReadBaseline(file)
    ensures QuoteFree(nohz) && |Around(nohz, rest)| <= 511 ==>
              ReadBaseline(Around(nohz, rest)).nohz == if |nohz| <= 255 then nohz else nohz[..255]
  {
    if |file| == 511 {
      assert Take(file + more, 511) == file;
    }
    if QuoteFree(nohz) {
      ReadAround(Around(nohz, rest), nohz, rest);
    }
  }

  lemma ReadFirst(v: string, tail: string)
    requires QuoteFree(v)
    ensures LeadingString(SkipBlanks(" " + Quoted(v) + tail)) == Some(v)
  {
    var s := " " + Quoted(v) + tail;
    assert s[1..] == Quoted(v) + tail && s[1] == '"';
    LeadingQuoted(v, tail);
  }

  lemma ReadSecond(s: string, rest: string)
    requires s == " \"" + rest
    ensures LeadingString(SkipBlanks(s)) == ToQuote(rest)
  {
    assert s[1..][1..] == rest && s[1] == '"';
    assert SkipBlanks(s) == s[1..];
  }

  // ---- The cut -------------------------------------------------------------

  lemma TextIsAround(b: Baseline)
    ensures Object(Entries(b), "  ", "}\n") == Around(b.nohz, b.rcu + "\"\n}\n")
  {
    var es := Entries(b);
    assert es[1..] == [es[1]];
    assert Lines(es[1..][1..], "  ") == "";
    var last := Line(es[1], "  ", "\n");
    assert Lines(es[1..], "  ") == last + "";
    assert Lines(es, "  ") == FirstLine(b.nohz) + last;
    LastLine(b.rcu);
    AssocFour("{\n", FirstLine(b.nohz), last, "}\n");
  }

  lemma AssocFour(a: string, b: string, c: string, d: string)
    ensures a + (b + c) + d == a + (b + (c + d))
  {
  }

  lemma LastLine(rcu: string)
    ensures Line(Entry(RCU_FIELD, Quoted(rcu)), "  ", "\n") + "}\n" ==
            "  " + ("\"" + (RCU_FIELD + ("\"" + (": \"" + (rcu + "\"\n}\n")))))
  {
    assert ": " + (Quoted(rcu) + "\n") + "}\n" == ": \"" + (rcu + "\"\n}\n");
    var t := ": " + (Quoted(rcu) + "\n");
    assert "  " + ("\"" + (RCU_FIELD + ("\"" + t))) + "}\n" == "  " + ("\"" + (RCU_FIELD + ("\"" + (t + "}\n"))));
  }

  lemma AroundLength(nohz: string, rest: string)
    ensures |Around(nohz, rest)| == 49 + |nohz| + |rest|
  {
    Fields();
  }

  lemma CutAround(nohz: string, rest: string, n: nat)
    requires 49 + |nohz| <= n
    ensures Take(Around(nohz, rest), n) == Around(nohz, Take(rest, n - 49 - |nohz|))
  {
    AroundLength(nohz, rest);
    var m := n - 49 - |nohz|;
    if |rest| > m {
      assert rest == rest[..m] + rest[m..];
      AppendAround(nohz, rest[..m], rest[m..]);
      AroundLength(nohz, rest[..m]);
    }
  }

  lemma AppendAround(nohz: string, a: string, b: string)
    ensures Around(nohz, a + b) == Around(nohz, a) + b
  {
    var f := FirstLine(nohz);
    AppendNested(f, RCU_FIELD, a, b);
  }

  lemma AppendNested(f: string, k: string, a: string, b: string)
    ensures "{\n" + (f + ("  " + ("\"" + (k + ("\"" + (": \"" + (a + b))))))) ==
            "{\n" + (f + ("  " + ("\"" + (k + ("\"" + (": \"" + a)))))) + b
  {
    var t1, t2, t3 := ": \"" + a, "\"" + (": \"" + a), k + ("\"" + (": \"" + a));
    assert ": \"" + (a + b) == t1 + b;
    assert "\"" + (t1 + b) == t2 + b;
    assert k + (t2 + b) == t3 + b;
    assert "  " + ("\"" + (t3 + b)) == "  " + ("\"" + t3) + b;
  }

  lemma ToQuoteCut(v: string, end: string, n: nat)
    requires QuoteFree(v) && end != "" && end[0] == '"'
    ensures ToQuote(Take(v + end, n)) == if |v| < n then Some(v) else None
  {
    var t := Take(v + end, n);
    if |v| < n {
      var e := t[|v|..];
      assert t == v + e && e[0] == '"';
      UpToStops(v, e, {'"'});
      assert |t| > |v|;
    } else {
      assert t == v[..n] == v[..n] + "";
      UpToStops(v[..n], "", {'"'});
    }
  }

  /** Both values fit the 512-byte JSON buffer together with the text around them. */
  predicate FitsBuffer(b: Baseline) {
    |b.nohz| + |b.rcu| <= 461
  }

  /**
   The baseline that teardown reads is the baseline that was saved if and only if the two values together
   have at most 461 characters. Beyond that the closing quote of the second value is cut off and teardown
   takes rcu_nocbs for absent.
   */
  lemma BaselineRoundTrip(b: Baseline)
    requires QuoteFree(b.nohz) && QuoteFree(b.rcu) && |b.nohz| <= 255 && |b.rcu| <= 255
    ensures ReadBaseline(BaselineText(b)) == b <==> FitsBuffer(b)
    ensures ReadBaseline(BaselineText(b)).nohz == b.nohz
    ensures !FitsBuffer(b) ==> ReadBaseline(BaselineText(b)).rcu == ""
  {
    var text := BaselineText(b);
    ReadBack(b, text);
    assert Take(text, 511) == text;
  }

  /** The two `char[256]` of the extractor. */
  function Cut(b: Baseline): Baseline {
    Baseline(Take(b.nohz, 255), Take(b.rcu, 255))
  }

  /**
   What a saved baseline holds of two values: the first 255 characters of each, and without the second
   value when the two together do not fit even so.
   */
  function Kept(b: Baseline): Baseline {
    if FitsBuffer(Cut(b)) then Cut(b) else Baseline(Cut(b).nohz, "")
  }

  /** Nothing is lost on the way into the file. */
  predicate FitsFile(b: Baseline) {
    |b.nohz| <= 255 && |b.rcu| <= 255 && FitsBuffer(b)
  }

  lemma KeptIsRead(b: Baseline)
    requires QuoteFree(b.nohz) && QuoteFree(b.rcu)
    ensures ReadBaseline(BaselineText(Cut(b))) == Kept(b) == Kept(Kept(b))
    ensures Kept(b) == b <==> FitsFile(b)
  {
    BaselineRoundTrip(Cut(b));
  }

  const TAIL := "\"\n}\n"

  lemma SavedText(b: Baseline)
    requires |b.nohz| <= 255
    ensures BaselineText(b) == Around(b.nohz, Take(b.rcu + TAIL, 462 - |b.nohz|))
  {
    TextIsAround(b);
    CutAround(b.nohz, b.rcu + TAIL, 511);
  }

  lemma ReadBack(b: Baseline, text: string)
    requires QuoteFree(b.nohz) && QuoteFree(b.rcu) && |b.nohz| <= 255 && text == BaselineText(b)
    ensures CString(text, NOHZ_FIELD) == Some(b.nohz)
    ensures CString(text, RCU_FIELD) == if FitsBuffer(b) then Some(b.rcu) else None
  {
    var rest := Take(b.rcu + TAIL, 462 - |b.nohz|);
    SavedText(b);
    CutValue(b.rcu, 462 - |b.nohz|);
    ReadAround(text, b.nohz, rest);
  }

  lemma CutValue(v: string, n: nat)
    requires QuoteFree(v)
    ensures ToQuote(Take(v + TAIL, n)) == if |v| < n then Some(v) else None
  {
    ToQuoteCut(v, TAIL, n);
  }
}
