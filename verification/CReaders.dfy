/** The C readers of the JSON files, on NUL-terminated buffers. */
module CReaders {
  import opened Text
  import opened JsonText
  import opened ConfigStore
  import opened ConfigRoundTrip

  const NUL: char := '\0'

  /** `buf` holds a C string of length `n`. */
  predicate CStringIn(buf: array<char>, n: nat)
    reads buf
  {
    n < buf.Length && buf[n] == NUL && forall i :: 0 <= i < n ==> buf[i] != NUL
  }

  /** The C string at the front of a buffer. */
  function CText(s: seq<char>): string {
    UpTo(s, {NUL})
  }

  lemma CTextOf(s: seq<char>, n: nat)
    requires n < |s| && s[n] == NUL && forall i :: 0 <= i < n ==> s[i] != NUL
    ensures CText(s) == s[..n]
  {
    UpToStops(s[..n], s[n..], {NUL});
    assert s[..n] + s[n..] == s;
  }

  lemma Mismatch(rest: string, needle: string, j: nat)
    requires j < |needle| && (j < |rest| ==> rest[j] != needle[j])
    ensures !(needle <= rest)
  {
  }

  /** `strncmp(p, needle, strlen(needle)) == 0`: it never looks past the terminator. */
  method StartsWith(buf: array<char>, ghost n: nat, p: nat, needle: string) returns (r: bool)
    requires CStringIn(buf, n) && p <= n && NUL !in needle
    ensures r == (needle <= buf[p..n])
  {
    var j := 0;
    while j < |needle| && buf[p + j] == needle[j]
      invariant 0 <= j <= |needle| && p + j <= n
      invariant buf[p..p + j] == needle[..j]
    {
      assert needle[j] in needle;
      j := j + 1;
    }
    r := j == |needle|;
    ghost var rest := buf[p..n];
    if r {
      assert rest[..j] == buf[p..p + j] == needle;
    } else {
      Mismatch(rest, needle, j);
    }
  }

  /** `strstr`: the position of the first occurrence, or -1. */
  method StrStr(buf: array<char>, ghost n: nat, needle: string) returns (p: int)
    requires CStringIn(buf, n) && needle != "" && NUL !in needle
    ensures p < 0 ==> After(buf[..n], needle) == None
    ensures p >= 0 ==> p + |needle| <= n && After(buf[..n], needle) == Some(buf[p + |needle|..n])
  {
    var i := 0;
    assert buf[0..n] == buf[..n];
    while buf[i] != NUL
      invariant 0 <= i <= n
      invariant After(buf[..n], needle) == After(buf[i..n], needle)
      decreases n - i
    {
      var here := StartsWith(buf, n, i, needle);
      ghost var rest := buf[i..n];
      if here {
        assert rest[|needle|..] == buf[i + |needle|..n];
        return i;
      }
      assert rest[1..] == buf[i + 1..n];
      i := i + 1;
    }
    assert buf[i..n] == [];
    return -1;
  }

  /** `strchr(p, '"')`: the position of the next quote, or -1. */
  method StrChrQuote(buf: array<char>, ghost n: nat, p: nat) returns (e: int)
    requires CStringIn(buf, n) && p <= n
    ensures e < 0 ==> ToQuote(buf[p..n]) == None
    ensures e >= 0 ==> p <= e < n && ToQuote(buf[p..n]) == Some(buf[p..e])
  {
    var i := p;
    while buf[i] != NUL && buf[i] != '"'
      invariant p <= i <= n
      invariant forall k :: p <= k < i ==> buf[k] != '"'
      decreases n - i
    {
      i := i + 1;
    }
    assert buf[p..n] == buf[p..i] + buf[i..n];
    UpToStops(buf[p..i], buf[i..n], {'"'});
    e := if buf[i] == NUL then -1 else i;
  }

  /** What a reader leaves in `out`: nothing new on failure, else the value cut to the buffer and terminated. */
  twostate predicate Delivered(status: int, found: Option<string>, out: array<char>)
    requires out.Length > 0
    reads out
  {
    match found
    case None => status == -1 && out[..] == old(out[..])
    case Some(v) =>
      status == 0 &&
      var len := |Take(v, out.Length - 1)|;
      out[..len] == Take(v, out.Length - 1) && out[len] == NUL && out[len + 1..] == old(out[len + 1..])
  }

  /** `while (*p == ' ' || *p == '\t') p++`. */
  method SkipBlanksAt(buf: array<char>, ghost n: nat, p: nat) returns (q: nat)
    requires CStringIn(buf, n) && p <= n
    ensures p <= q <= n && SkipBlanks(buf[p..n]) == buf[q..n]
  {
    q := p;
    while buf[q] == ' ' || buf[q] == '\t'
      invariant p <= q <= n
      invariant SkipBlanks(buf[p..n]) == SkipBlanks(buf[q..n])
      decreases n - q
    {
      assert buf[q..n][1..] == buf[q + 1..n];
      q := q + 1;
    }
  }

  /** The cut to `out_len - 1` characters, `memcpy` and the terminator. */
  method CopyOut(buf: array<char>, p: nat, e: nat, out: array<char>)
    requires p <= e < buf.Length && out.Length > 0 && out != buf
    modifies out
    ensures Delivered(0, Some(buf[p..e]), out)
  {
    ghost var v := buf[p..e];
    var len := e - p;
    if len >= out.Length {
      len := out.Length - 1;
    }
    var i := 0;
    while i < len
      invariant 0 <= i <= len
      invariant forall k :: 0 <= k < i ==> out[k] == v[k]
      invariant forall k :: i <= k < out.Length ==> out[k] == old(out[k])
    {
      assert v[i] == buf[p + i];
      out[i] := buf[p + i];
      i := i + 1;
    }
    out[len] := NUL;
    assert out[..len] == v[..len] == Take(v, out.Length - 1);
  }

  /** The part behind the blanks: an opening quote, the text up to the next one, the copy. */
  method ReadStringAt(buf: array<char>, ghost n: nat, p: nat, out: array<char>) returns (status: int)
    requires CStringIn(buf, n) && p <= n && out.Length > 0 && out != buf
    modifies out
    ensures Delivered(status, LeadingString(buf[p..n]), out)
  {
    if buf[p] != '"' {
      return -1;
    }
    assert buf[p..n][1..] == buf[p + 1..n];
    var e := StrChrQuote(buf, n, p + 1);
    if e < 0 {
      return -1;
    }
    CopyOut(buf, p + 1, e, out);
    return 0;
  }

  /** `read_json_str` on a buffer, for the keys that fit `char needle[64]`; the other C readers have the same body. */
  method ReadJsonStr(buf: array<char>, ghost n: nat, key: string, out: array<char>) returns (status: int)
    requires CStringIn(buf, n) && NUL !in key && |Needle(key)| <= 63 && out.Length > 0 && out != buf
    modifies out
    ensures Delivered(status, CString(buf[..n], key), out)
  {
    var found := StrStr(buf, n, Needle(key));
    if found < 0 {
      return -1;
    }
    var p := SkipBlanksAt(buf, n, found + |Needle(key)|);
    assert CString(buf[..n], key) == LeadingString(buf[p..n]);
    status := ReadStringAt(buf, n, p, out);
  }

  /** What a C reader sees of a file: as much as fits its buffer, up to the first NUL. */
  function FileText(file: string, capacity: nat): string
    requires capacity > 0
  {
    CText(Take(file, capacity - 1))
  }

  /** `fread(buf, 1, sizeof(buf) - 1, fp)` and the terminator behind what was read. */
  method ReadFile(file: string, capacity: nat) returns (buf: array<char>, ghost n: nat)
    requires capacity > 0
    ensures fresh(buf) && CStringIn(buf, n) && buf[..n] == FileText(file, capacity)
  {
    var content := Take(file, capacity - 1);
    buf := new char[capacity](_ => NUL);
    var i := 0;
    while i < |content|
      invariant 0 <= i <= |content| < buf.Length == capacity
      invariant forall k :: 0 <= k < i ==> buf[k] == content[k]
    {
      buf[i] := content[i];
      i := i + 1;
    }
    buf[i] := NUL;
    n := |CText(content)|;
    UpToAll(content, {NUL});
    assert forall k :: 0 <= k < n ==> content[k] in CText(content);
    assert buf[..n] == CText(content);
  }

  /** `read_cfg_str` and `read_active_cfg_str`: open, read into `char buf[4096]`, extract. */
  method ReadCfgStr(file: Option<string>, key: string, out: array<char>) returns (status: int)
    requires NUL !in key && |Needle(key)| <= 63 && out.Length > 0
    modifies out
    ensures Delivered(status, if file.Some? then CString(FileText(file.value, 4096), key) else None, out)
  {
    if file.None? {
      return -1;
    }
    var buf, n := ReadFile(file.value, 4096);
    status := ReadJsonStr(buf, n, key, out);
  }

  // ---- Agreement with the TUI ------------------------------------------------------

  predicate NulFree(s: string) {
    NUL !in s
  }

  /** A NUL in the file ends the string. */
  lemma TextEndsAtNul(x: string, y: string, capacity: nat)
    requires '\0' !in x && |x| + 1 < capacity
    ensures FileText(x + (['\0'] + y), capacity) == x
  {
    var rest := Take(y, capacity - 2 - |x|);
    assert Take(x + (['\0'] + y), capacity - 1) == x + (['\0'] + rest);
    UpToStops(x, ['\0'] + rest, {NUL});
  }

  lemma WholeFile(file: string, capacity: nat)
    requires capacity > 0 && |file| < capacity && NulFree(file)
    ensures FileText(file, capacity) == file
  {
    UpToStops(file, "", {NUL});
    assert file + "" == file;
  }

  /**
   Cross-language agreement: on every printed configuration that fits the 4096-byte buffer, the C readers
   find for every string key exactly what the Rust reader finds, which is the printed string.
   */
  lemma CReadersAgree(c: SetupConfig, k: Key)
    requires Printable(c) && KindOf(k) == Str && |ToJson(c)| < 4096 && NulFree(ToJson(c))
    ensures CString(FileText(ToJson(c), 4096), Name(k)) == RustString(ToJson(c), Name(k)) == Some(StrField(c, k))
  {
    WholeFile(ToJson(c), 4096);
    ReadersAgreeOnConfig(c, k);
  }
}
