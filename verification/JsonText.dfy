/**
 The flat JSON texts benchmon prints by hand (one `"key": value` line per entry, no escaping) and the
 way all its readers find a value: the first occurrence of `"key":` as a substring.
 */
module JsonText {
  import opened Text

  /** One printed line: the key and the text of its value. */
  datatype Entry = Entry(key: string, value: string)

  predicate QuoteFree(s: string) {
    '"' !in s
  }

  /** A printed string, without escaping. */
  function Quoted(s: string): string {
    "\"" + s + "\""
  }

  /** A key does not start with a character that can follow a quote in the printed text. */
  predicate GoodKey(k: string) {
    QuoteFree(k) && k != "" && k[0] != ':' && k[0] != ',' && k[0] != '\n'
  }

  /** Names of small letters and underscores are good keys. */
  lemma GoodName(s: string)
    requires s != "" && forall i :: 0 <= i < |s| ==> 'a' <= s[i] <= 'z' || s[i] == '_'
    ensures GoodKey(s)
  {
  }

  /** A printed value: a number, a truth value or a list without quotes, or a quoted quote-free string. */
  predicate GoodValue(v: string) {
    QuoteFree(v) || (|v| >= 2 && v == Quoted(v[1..|v| - 1]) && QuoteFree(v[1..|v| - 1]))
  }

  predicate GoodEntry(e: Entry) {
    GoodKey(e.key) && GoodValue(e.value)
  }

  function Needle(key: string): string {
    "\"" + key + "\":"
  }

  function Line(e: Entry, indent: string, end: string): string {
    indent + ("\"" + (e.key + ("\"" + (": " + (e.value + end)))))
  }

  /** The lines of an object: every line but the last ends with a comma. */
  function Lines(es: seq<Entry>, indent: string): string {
    if es == [] then ""
    else Line(es[0], indent, if |es| == 1 then "\n" else ",\n") + Lines(es[1..], indent)
  }

  function Object(es: seq<Entry>, indent: string, close: string): string {
    "{\n" + Lines(es, indent) + close
  }

  /** The value under a key, read off the entries: the first one wins. */
  function FirstWith(es: seq<Entry>, key: string): Option<string> {
    if es == [] then None
    else if es[0].key == key then Some(es[0].value)
    else FirstWith(es[1..], key)
  }

  // ---- The printed object, line by line ------------------------------------------

  lemma SplitFirst(a: string, b: string, c: char)
    requires c !in a
    ensures Split(a + ([c] + b), c) == [a] + Split(b, c)
  {
    UpToStops(a, [c] + b, {c});
    assert (a + ([c] + b))[|a| + 1..] == b;
  }

  predicate Unbroken(e: Entry) {
    '\n' !in e.key && '\n' !in e.value
  }

  function Row(e: Entry, indent: string, comma: string): string {
    indent + "\"" + e.key + "\": " + e.value + comma
  }

  /** The rows of a JSON object. */
  function Rows(es: seq<Entry>, indent: string): seq<string> {
    seq(|es|, i requires 0 <= i < |es| => Row(es[i], indent, if i == |es| - 1 then "" else ","))
  }

  lemma RowsFrom(es: seq<Entry>, indent: string)
    requires es != []
    ensures Rows(es, indent) == [Row(es[0], indent, if |es| == 1 then "" else ",")] + Rows(es[1..], indent)
  {
  }

  lemma LineIsRow(e: Entry, indent: string, comma: string, rest: string)
    requires Unbroken(e) && '\n' !in indent && '\n' !in comma
    ensures Split(Line(e, indent, comma + "\n") + rest, '\n') == [Row(e, indent, comma)] + Split(rest, '\n')
  {
    var row := Row(e, indent, comma);
    assert Line(e, indent, comma + "\n") + rest == row + (['\n'] + rest);
    SplitFirst(row, rest, '\n');
  }

  lemma FirstLine(es: seq<Entry>, indent: string, close: string, comma: string)
    requires es != [] && comma == if |es| == 1 then "" else ","
    ensures Lines(es, indent) + close == Line(es[0], indent, comma + "\n") + (Lines(es[1..], indent) + close)
  {
    assert comma + "\n" == if |es| == 1 then "\n" else ",\n";
  }

  lemma RowAndRest(es: seq<Entry>, indent: string, close: string)
    requires '\n' !in indent && es != [] && Unbroken(es[0])
    requires Split(Lines(es[1..], indent) + close, '\n') == Rows(es[1..], indent) + Split(close, '\n')
    ensures Split(Lines(es, indent) + close, '\n') == Rows(es, indent) + Split(close, '\n')
  {
    var comma := if |es| == 1 then "" else ",";
    var row, tail := Row(es[0], indent, comma), Split(close, '\n');
    FirstLine(es, indent, close, comma);
    LineIsRow(es[0], indent, comma, Lines(es[1..], indent) + close);
    RowsFrom(es, indent);
    assert [row] + (Rows(es[1..], indent) + tail) == [row] + Rows(es[1..], indent) + tail;
  }

  lemma {:induction false} LinesAreRows(es: seq<Entry>, indent: string, close: string)
    requires '\n' !in indent && forall i :: 0 <= i < |es| ==> Unbroken(es[i])
    ensures Split(Lines(es, indent) + close, '\n') == Rows(es, indent) + Split(close, '\n')
  {
    if es == [] {
      assert "" + close == close;
    } else {
      LinesAreRows(es[1..], indent, close);
      RowAndRest(es, indent, close);
    }
  }

  /** A printed object is its brace, one row per entry with a comma behind all but the last, and the end. */
  lemma ObjectRows(es: seq<Entry>, indent: string, close: string)
    requires '\n' !in indent && forall i :: 0 <= i < |es| ==> Unbroken(es[i])
    ensures Split(Object(es, indent, close), '\n') == ["{"] + Rows(es, indent) + Split(close, '\n')
  {
    LinesAreRows(es, indent, close);
    assert Object(es, indent, close) == "{" + (['\n'] + (Lines(es, indent) + close));
    SplitFirst("{", Lines(es, indent) + close, '\n');
  }

  // ---- Where `"key":` can occur ------------------------------------------

  /** Quote-free text holds no occurrence. */
  lemma SkipQuoteFree(x: string, y: string, key: string)
    requires QuoteFree(x)
    ensures After(x + y, Needle(key)) == After(y, Needle(key))
  {
    assert Needle(key)[0] == '"';
    SkipForeign(x, y, Needle(key));
  }

  /** A quote that is not followed by the key is no occurrence. */
  lemma SkipQuote(y: string, key: string)
    requires GoodKey(key)
    requires y == "" || y[0] == ':' || y[0] == ',' || y[0] == '\n'
    ensures After("\"" + y, Needle(key)) == After(y, Needle(key))
  {
    var s := "\"" + y;
    assert Needle(key)[1] == key[0];
    assert y != "" ==> s[1] == y[0];
    assert s[1..] == y;
    SkipOne(s, Needle(key));
  }

  /** Quoted text is an occurrence only if it is the key and a colon follows it. */
  lemma QuotedText(x: string, y: string, key: string)
    requires GoodKey(key) && QuoteFree(x)
    requires y != "" && (y[0] == ':' || y[0] == ',' || y[0] == '\n')
    ensures x == key && y[0] == ':' ==> After("\"" + (x + ("\"" + y)), Needle(key)) == Some(y[1..])
    ensures !(x == key && y[0] == ':') ==>
              After("\"" + (x + ("\"" + y)), Needle(key)) == After(y, Needle(key))
  {
    var s := "\"" + (x + ("\"" + y));
    var n := Needle(key);
    assert s[1..] == x + ("\"" + y);
    assert s[|x| + 1] == '"' && s[|x| + 2] == y[0] && s[1..|x| + 1] == x;
    assert n[|key| + 1] == '"' && n[|key| + 2] == ':' && n[1..|key| + 1] == key;
    if x == key && y[0] == ':' {
      assert n == s[..|n|];
      assert s[|n|..] == y[1..];
    } else {
      NotAnOccurrence(x, y, key);
      SkipOne(s, n);
      SkipQuoteFree(x, "\"" + y, key);
      SkipQuote(y, key);
    }
  }

  lemma NotAnOccurrence(x: string, y: string, key: string)
    requires GoodKey(key) && QuoteFree(x) && y != "" && !(x == key && y[0] == ':')
    ensures !(Needle(key) <= "\"" + (x + ("\"" + y)))
  {
    var s := "\"" + (x + ("\"" + y));
    var n := Needle(key);
    assert |n| == |key| + 3 && n[0] == '"' && n[|key| + 1] == '"' && n[|key| + 2] == ':';
    assert forall i :: 0 <= i < |key| ==> n[i + 1] == key[i] && key[i] in key;
    assert forall i :: 0 <= i < |x| ==> s[i + 1] == x[i] && x[i] in x;
    assert s[|x| + 1] == '"' && s[|x| + 2] == y[0];
  }

  /** The value text itself, even one that spells a key, is never taken for the key. */
  lemma SkipValue(v: string, y: string, key: string)
    requires GoodKey(key) && GoodValue(v) && y != "" && (y[0] == ',' || y[0] == '\n')
    ensures After(v + y, Needle(key)) == After(y, Needle(key))
  {
    if QuoteFree(v) {
      SkipQuoteFree(v, y, key);
    } else {
      var x := v[1..|v| - 1];
      assert v + y == "\"" + (x + ("\"" + y));
      QuotedText(x, y, key);
    }
  }

  /** Reading one line: either it is the line of the key, or the search goes on behind it. */
  lemma OneLine(e: Entry, indent: string, end: string, rest: string, key: string)
    requires GoodEntry(e) && GoodKey(key) && QuoteFree(indent)
    requires QuoteFree(end) && end != "" && (end[0] == ',' || end[0] == '\n')
    ensures After(Line(e, indent, end) + rest, Needle(key)) ==
            if e.key == key then Some(" " + e.value + (end + rest)) else After(rest, Needle(key))
  {
    var y := ": " + (e.value + end) + rest;
    var tail := end + rest;
    assert Line(e, indent, end) + rest == indent + ("\"" + (e.key + ("\"" + y)));
    SkipQuoteFree(indent, "\"" + (e.key + ("\"" + y)), key);
    QuotedText(e.key, y, key);
    assert y == ": " + (e.value + tail);
    if e.key == key {
      assert y[1..] == " " + e.value + tail;
    } else {
      OtherValue(e.value, end, rest, key);
    }
  }

  lemma OtherValue(v: string, end: string, rest: string, key: string)
    requires GoodValue(v) && GoodKey(key) && QuoteFree(end) && end != "" && (end[0] == ',' || end[0] == '\n')
    ensures After(": " + (v + (end + rest)), Needle(key)) == After(rest, Needle(key))
  {
    SkipQuoteFree(": ", v + (end + rest), key);
    SkipValue(v, end + rest, key);
    SkipQuoteFree(end, rest, key);
  }

  /** The line of the key is found whatever its value is. */
  lemma OwnLine(e: Entry, indent: string, end: string, rest: string)
    requires GoodKey(e.key) && QuoteFree(indent)
    ensures After(Line(e, indent, end) + rest, Needle(e.key)) == Some(" " + e.value + (end + rest))
  {
    var y := ": " + (e.value + end) + rest;
    assert Line(e, indent, end) + rest == indent + ("\"" + (e.key + ("\"" + y)));
    SkipQuoteFree(indent, "\"" + (e.key + ("\"" + y)), e.key);
    QuotedText(e.key, y, e.key);
    assert y[1..] == " " + e.value + (end + rest);
  }

  lemma {:induction false} AfterInLines(es: seq<Entry>, indent: string, close: string, key: string)
    returns (tail: string)
    requires forall i :: 0 <= i < |es| ==> GoodEntry(es[i])
    requires GoodKey(key) && QuoteFree(indent) && QuoteFree(close)
    ensures FirstWith(es, key).None? ==> After(Lines(es, indent) + close, Needle(key)).None?
    ensures FirstWith(es, key).Some? ==>
              After(Lines(es, indent) + close, Needle(key)) == Some(" " + FirstWith(es, key).value + tail) &&
              tail != "" && (tail[0] == ',' || tail[0] == '\n')
  {
    if es == [] {
      tail := "";
      assert Lines(es, indent) + close == close + "";
      SkipQuoteFree(close, "", key);
    } else {
      var end := if |es| == 1 then "\n" else ",\n";
      var rest := Lines(es[1..], indent) + close;
      assert Lines(es, indent) + close == Line(es[0], indent, end) + rest;
      OneLine(es[0], indent, end, rest, key);
      if es[0].key == key {
        tail := end + rest;
      } else {
        tail := AfterInLines(es[1..], indent, close, key);
      }
    }
  }

  /**
   The first `"key":` of a printed object is the line of that key: what follows it is one space and the
   printed value; and there is no occurrence when no line has the key.
   */
  lemma AfterInObject(es: seq<Entry>, indent: string, close: string, key: string) returns (tail: string)
    requires forall i :: 0 <= i < |es| ==> GoodEntry(es[i])
    requires GoodKey(key) && QuoteFree(indent) && QuoteFree(close)
    ensures FirstWith(es, key).None? ==> After(Object(es, indent, close), Needle(key)).None?
    ensures FirstWith(es, key).Some? ==>
              After(Object(es, indent, close), Needle(key)) == Some(" " + FirstWith(es, key).value + tail) &&
              tail != "" && (tail[0] == ',' || tail[0] == '\n')
  {
    assert Object(es, indent, close) == "{\n" + (Lines(es, indent) + close);
    SkipQuoteFree("{\n", Lines(es, indent) + close, key);
    tail := AfterInLines(es, indent, close, key);
  }

  /** The search reaches the line of a key past any well-formed lines of other keys, whatever follows. */
  lemma {:induction false} ReachEntry(es: seq<Entry>, i: nat, indent: string, close: string) returns (tail: string)
    requires i < |es| && GoodKey(es[i].key) && QuoteFree(indent)
    requires forall j :: 0 <= j < i ==> GoodEntry(es[j]) && es[j].key != es[i].key
    ensures After(Lines(es, indent) + close, Needle(es[i].key)) == Some(" " + es[i].value + tail)
  {
    var end := if |es| == 1 then "\n" else ",\n";
    var rest := Lines(es[1..], indent) + close;
    assert Lines(es, indent) + close == Line(es[0], indent, end) + rest;
    if i == 0 {
      OwnLine(es[0], indent, end, rest);
      tail := end + rest;
    } else {
      OneLine(es[0], indent, end, rest, es[i].key);
      tail := ReachEntry(es[1..], i - 1, indent, close);
    }
  }

  // ---- The readers of a string value --------------------------------------

  /** The text up to the next quote; there has to be one (`strchr`, `find('"')`). */
  function ToQuote(s: string): Option<string> {
    if UpTo(s, {'"'}) == s then None else Some(UpTo(s, {'"'}))
  }

  function SkipBlanks(s: string): string {
    if s != "" && (s[0] == ' ' || s[0] == '\t') then SkipBlanks(s[1..]) else s
  }

  /** Rust's `char::is_whitespace` (the Unicode White_Space property). */
  predicate IsWhitespace(c: char) {
    var u := c as int;
    9 <= u <= 13 || u == 0x20 || u == 0x85 || u == 0xA0 || u == 0x1680 || 0x2000 <= u <= 0x200A ||
    u == 0x2028 || u == 0x2029 || u == 0x202F || u == 0x205F || u == 0x3000
  }

  function TrimStart(s: string): string {
    if s != "" && IsWhitespace(s[0]) then TrimStart(s[1..]) else s
  }

  /** The string value at the front of `s`. */
  function LeadingString(s: string): Option<string> {
    if s == "" || s[0] != '"' then None else ToQuote(s[1..])
  }

  /** `read_json_str`, `read_cfg_str`, `read_active_cfg_str`: what the C readers find in a text. */
  function CString(text: string, key: string): Option<string> {
    match After(text, Needle(key))
    case None => None
    case Some(rest) => LeadingString(SkipBlanks(rest))
  }

  /** `json_str`: what the Rust reader finds. */
  function RustString(text: string, key: string): Option<string> {
    match After(text, Needle(key))
    case None => None
    case Some(rest) => LeadingString(TrimStart(rest))
  }

  lemma {:induction false} TrimBeyondBlanks(s: string)
    ensures TrimStart(s) == TrimStart(SkipBlanks(s))
  {
    if s == "" || (s[0] != ' ' && s[0] != '\t') {
    } else {
      TrimBeyondBlanks(s[1..]);
    }
  }

  /**
   On every text: whatever a C reader finds, the Rust reader finds too; they disagree exactly when the
   blanks behind the colon contain white space other than space and tab and a string follows it.
   */
  lemma ReadersAgree(text: string, key: string)
    ensures CString(text, key).Some? ==> RustString(text, key) == CString(text, key)
    ensures CString(text, key) == RustString(text, key) <==>
            RustString(text, key).None? || var rest := After(text, Needle(key)).value;
                                           SkipBlanks(rest) == TrimStart(rest)
  {
    match After(text, Needle(key))
    case None =>
    case Some(rest) =>
      TrimBeyondBlanks(rest);
      var b := SkipBlanks(rest);
      assert b != "" && !IsWhitespace(b[0]) ==> TrimStart(rest) == b;
  }

  lemma LeadingQuoted(v: string, tail: string)
    requires QuoteFree(v)
    ensures LeadingString(Quoted(v) + tail) == Some(v)
  {
    var s := Quoted(v) + tail;
    assert s[1..] == v + ("\"" + tail);
    UpToStops(v, "\"" + tail, {'"'});
    assert |v + ("\"" + tail)| > |v|;
  }

  /** On a printed object, C and Rust both read back the string printed under the key. */
  lemma StringReadBack(es: seq<Entry>, indent: string, close: string, key: string, v: string)
    requires forall i :: 0 <= i < |es| ==> GoodEntry(es[i])
    requires GoodKey(key) && QuoteFree(indent) && QuoteFree(close) && QuoteFree(v)
    requires FirstWith(es, key) == Some(Quoted(v))
    ensures CString(Object(es, indent, close), key) == Some(v)
    ensures RustString(Object(es, indent, close), key) == Some(v)
  {
    var tail := AfterInObject(es, indent, close, key);
    StringAt(Object(es, indent, close), key, v, tail);
  }

  lemma StringAt(text: string, key: string, v: string, tail: string)
    requires After(text, Needle(key)) == Some(" " + Quoted(v) + tail) && QuoteFree(v)
    ensures CString(text, key) == Some(v) && RustString(text, key) == Some(v)
  {
    var rest := " " + Quoted(v) + tail;
    assert rest[1..] == Quoted(v) + tail && rest[1] == '"';
    assert SkipBlanks(rest) == rest[1..];
    assert TrimStart(rest) == rest[1..];
    LeadingQuoted(v, tail);
  }
}
