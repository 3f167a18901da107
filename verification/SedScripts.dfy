/**
 The `sed` scripts that rewrite /etc/default/grub, as character scanners over one line, and what they
 mean for the tokens of the line.
 */
module SedScripts {

  /** The two characters the class `[^ "]` excludes. */
  predicate Sep(c: char) {
    c == ' ' || c == '"'
  }

  predicate Plain(s: string) {
    forall i :: 0 <= i < |s| ==> !Sep(s[i])
  }

  // The literal part of a script such as `s/ key=[^ "]*//g`: one leading space, then a word.
  predicate Pattern(p: string) {
    p != "" && p[0] == ' ' && Plain(p[1..])
  }

  // ---- The scanners -----------------------------------------------------

  // The text left after `[^ "]*` has matched as much as it can.
  function DropValue(s: string): (r: string)
    ensures |r| <= |s|
  {
    if s == "" || Sep(s[0]) then s else DropValue(s[1..])
  }

  // `s/<p>[^ "]*//g`: scan left to right, deleting each match and going on behind it.
  function StripParam(s: string, p: string): string
    requires p != ""
    decreases |s|
  {
    if s == "" then ""
    else if p <= s then StripParam(DropValue(s[|p|..]), p)
    else [s[0]] + StripParam(s[1..], p)
  }

  /** `s/<p>//g`: as above, but only the literal text goes. */
  function StripLiteral(s: string, p: string): string
    requires p != ""
    decreases |s|
  {
    if s == "" then ""
    else if p <= s then StripLiteral(s[|p|..], p)
    else [s[0]] + StripLiteral(s[1..], p)
  }

  // ---- The tokens of a line ---------------------------------------------

  function PlainLength(s: string): (n: nat)
    ensures n <= |s| && Plain(s[..n]) && (n < |s| ==> Sep(s[n]))
  {
    if s == "" || Sep(s[0]) then 0 else 1 + PlainLength(s[1..])
  }

  /**
   The line cut in front of every separator: the first chunk is the text before the first separator,
   every other chunk is one separator and the token behind it. A token that follows a space is a chunk
   starting with a space; the first token inside quotes is a chunk starting with the quote.
   */
  function Chunks(s: string): seq<string>
    decreases |s|
  {
    if s == "" then []
    else
      var n := 1 + PlainLength(s[1..]);
      [s[..n]] + Chunks(s[n..])
  }

  function Flatten(cs: seq<string>): string {
    if cs == [] then "" else cs[0] + Flatten(cs[1..])
  }

  predicate Chunk(c: string) {
    c != "" && Plain(c[1..])
  }

  predicate Chunked(cs: seq<string>) {
    && (forall i :: 0 <= i < |cs| ==> Chunk(cs[i]))
    && (forall i :: 1 <= i < |cs| ==> Sep(cs[i][0]))
  }

  /** The token of a chunk, without the separator in front of it. */
  function Word(c: string): string {
    if c != "" && Sep(c[0]) then c[1..] else c
  }

  /** Token deletion: drop every chunk that starts with `p`. */
  function Without(cs: seq<string>, p: string): seq<string> {
    if cs == [] then []
    else (if p <= cs[0] then [] else [cs[0]]) + Without(cs[1..], p)
  }

  /** The chunks that start with `p`: the values a line gives to one parameter. */
  function Matching(cs: seq<string>, p: string): seq<string> {
    if cs == [] then []
    else (if p <= cs[0] then [cs[0]] else []) + Matching(cs[1..], p)
  }

  // ---- Chunks and text are the same thing --------------------------------

  /** The cut in front of the second separator. */
  lemma FirstCut(s: string, n: nat)
    requires s != "" && n == 1 + PlainLength(s[1..])
    ensures n <= |s| && Chunk(s[..n]) && s == s[..n] + s[n..] && s[..n][0] == s[0]
    ensures s[n..] == "" || Sep(s[n..][0])
  {
    assert s[..n][1..] == s[1..][..n - 1];
    assert n < |s| ==> s[n..][0] == s[1..][n - 1];
  }

  lemma ChunkedCons(c: string, rest: seq<string>)
    requires Chunk(c) && Chunked(rest) && (rest == [] || Sep(rest[0][0]))
    ensures Chunked([c] + rest) && Flatten([c] + rest) == c + Flatten(rest)
  {
    assert ([c] + rest)[1..] == rest;
  }

  lemma {:induction false} ChunksOfText(s: string)
    ensures Chunked(Chunks(s)) && Flatten(Chunks(s)) == s
    ensures s != "" ==> Chunks(s) != [] && Chunks(s)[0][0] == s[0]
    decreases |s|
  {
    if s == "" {
    } else {
      var n := 1 + PlainLength(s[1..]);
      FirstCut(s, n);
      ChunksOfText(s[n..]);
      ChunkedCons(s[..n], Chunks(s[n..]));
    }
  }

  lemma {:induction false} PlainLengthAt(x: string, y: string)
    requires Plain(x) && (y == "" || Sep(y[0]))
    ensures PlainLength(x + y) == |x|
  {
    if x == "" {
      assert x + y == y;
    } else {
      assert (x + y)[1..] == x[1..] + y;
      PlainLengthAt(x[1..], y);
    }
  }

  /** A text that begins with a chunk has that chunk first. */
  lemma FirstChunk(c: string, rest: string)
    requires Chunk(c) && (rest == "" || Sep(rest[0]))
    ensures Chunks(c + rest) == [c] + Chunks(rest)
  {
    assert (c + rest)[1..] == c[1..] + rest;
    PlainLengthAt(c[1..], rest);
    assert (c + rest)[..|c|] == c && (c + rest)[|c|..] == rest;
  }

  lemma {:induction false} ChunksOfFlatten(cs: seq<string>)
    requires Chunked(cs)
    ensures Chunks(Flatten(cs)) == cs
  {
    if cs == [] {
    } else {
      ChunksOfFlatten(cs[1..]);
      var rest := Flatten(cs[1..]);
      if |cs| > 1 {
        assert cs[1..][0] == cs[1] && rest == cs[1] + Flatten(cs[1..][1..]);
      }
      FirstChunk(cs[0], rest);
      assert cs == [cs[0]] + cs[1..];
    }
  }

  lemma {:induction false} FlattenConcat(a: seq<string>, b: seq<string>)
    ensures Flatten(a + b) == Flatten(a) + Flatten(b)
  {
    if a == [] {
      assert a + b == b;
    } else {
      assert (a + b)[1..] == a[1..] + b;
      FlattenConcat(a[1..], b);
    }
  }

  /** Cutting in front of a separator cuts the chunks in two as well. */
  lemma ChunksConcat(x: string, y: string)
    requires y == "" || Sep(y[0])
    ensures Chunks(x + y) == Chunks(x) + Chunks(y)
  {
    ChunksOfText(x);
    ChunksOfText(y);
    FlattenConcat(Chunks(x), Chunks(y));
    ChunksOfFlatten(Chunks(x) + Chunks(y));
  }

  lemma ConsConcat(c: string, a: seq<string>, b: seq<string>, p: string)
    ensures Without([c] + a + b, p) == (if p <= c then [] else [c]) + Without(a + b, p)
    ensures Matching([c] + a + b, p) == (if p <= c then [c] else []) + Matching(a + b, p)
  {
    assert ([c] + a + b)[0] == c && ([c] + a + b)[1..] == a + b;
  }

  lemma RegroupSeq(x: seq<string>, y: seq<string>, z: seq<string>)
    ensures x + (y + z) == x + y + z
  {
  }

  lemma {:induction false} WithoutConcat(a: seq<string>, b: seq<string>, p: string)
    ensures Without(a + b, p) == Without(a, p) + Without(b, p)
    ensures Matching(a + b, p) == Matching(a, p) + Matching(b, p)
  {
    if a == [] {
      assert a + b == b;
    } else {
      var c, rest := a[0], a[1..];
      assert a == [c] + rest;
      ConsConcat(c, rest, b, p);
      WithoutConcat(rest, b, p);
      RegroupSeq(if p <= c then [] else [c], Without(rest, p), Without(b, p));
      RegroupSeq(if p <= c then [c] else [], Matching(rest, p), Matching(b, p));
    }
  }

  lemma {:induction false} WithoutMember(cs: seq<string>, p: string)
    ensures forall c :: c in Without(cs, p) <==> c in cs && !(p <= c)
    ensures forall c :: c in Matching(cs, p) <==> c in cs && p <= c
  {
    if cs == [] {
    } else {
      WithoutMember(cs[1..], p);
      assert cs == [cs[0]] + cs[1..];
    }
  }

  lemma {:induction false} WithoutChunked(cs: seq<string>, p: string)
    requires Chunked(cs)
    ensures Chunked(Without(cs, p))
  {
    if cs == [] {
    } else {
      assert forall i :: 0 <= i < |cs[1..]| ==> cs[1..][i] == cs[i + 1];
      WithoutChunked(cs[1..], p);
      WithoutMember(cs[1..], p);
      var w := Without(cs[1..], p);
      forall i | 0 <= i < |w| ensures Sep(w[i][0]) {
        assert w[i] in cs[1..];
      }
    }
  }

  lemma {:induction false} WithoutCommutes(cs: seq<string>, p: string, q: string)
    ensures Without(Without(cs, p), q) == Without(Without(cs, q), p)
  {
    if cs == [] {
    } else {
      var c, rest := cs[0], cs[1..];
      WithoutCommutes(rest, p, q);
      KeepOne(c, Without(rest, p), p, q);
      KeepOne(c, Without(rest, q), q, p);
    }
  }

  lemma KeepOne(c: string, tail: seq<string>, p: string, q: string)
    ensures Without((if p <= c then [] else [c]) + tail, q) ==
            (if p <= c || q <= c then [] else [c]) + Without(tail, q)
  {
    assert [c] + tail != [] && ([c] + tail)[1..] == tail;
    assert [] + tail == tail;
  }

  lemma {:induction false} WithoutNothing(cs: seq<string>, p: string)
    requires forall c :: c in cs ==> !(p <= c)
    ensures Without(cs, p) == cs && Matching(cs, p) == []
  {
    if cs == [] {
    } else {
      assert cs[0] in cs && forall c :: c in cs[1..] ==> c in cs;
      WithoutNothing(cs[1..], p);
    }
  }

  // ---- The scanners delete tokens ----------------------------------------

  lemma {:induction false} DropValueAt(x: string, y: string)
    requires Plain(x) && (y == "" || Sep(y[0]))
    ensures DropValue(x + y) == y
  {
    if x == "" {
      assert x + y == y;
    } else {
      assert (x + y)[1..] == x[1..] + y;
      DropValueAt(x[1..], y);
    }
  }

  /** A pattern can only match where a chunk starts, and then inside that chunk. */
  lemma MatchesInsideChunk(c: string, rest: string, p: string)
    requires Chunk(c) && Pattern(p) && (rest == "" || Sep(rest[0]))
    ensures p <= c + rest <==> p <= c
  {
    assert forall i :: 1 <= i < |p| ==> p[i] == p[1..][i - 1];
    assert rest != "" ==> (c + rest)[|c|] == rest[0];
    assert c == (c + rest)[..|c|];
  }

  lemma Cons(x: string, y: string)
    requires x != ""
    ensures [x[0]] + (x[1..] + y) == x + y
    ensures (x + y)[0] == x[0] && (x + y)[1..] == x[1..] + y
  {
  }

  lemma NoMatchStep(s: string, p: string)
    requires Pattern(p) && s != "" && !(p <= s)
    ensures StripParam(s, p) == [s[0]] + StripParam(s[1..], p)
    ensures StripLiteral(s, p) == [s[0]] + StripLiteral(s[1..], p)
  {
  }

  lemma {:induction false} StripInsideChunk(x: string, rest: string, p: string)
    requires Plain(x) && Pattern(p)
    ensures StripParam(x + rest, p) == x + StripParam(rest, p)
    ensures StripLiteral(x + rest, p) == x + StripLiteral(rest, p)
  {
    if x == "" {
      assert x + rest == rest;
    } else {
      StripInsideChunk(x[1..], rest, p);
      Cons(x, rest);
      NoMatchStep(x + rest, p);
      Cons(x, StripParam(rest, p));
      Cons(x, StripLiteral(rest, p));
    }
  }

  lemma StripMatchingChunk(c: string, rest: string, p: string)
    requires Chunk(c) && Pattern(p) && (rest == "" || Sep(rest[0])) && p <= c
    ensures StripParam(c + rest, p) == StripParam(rest, p)
    ensures StripLiteral(c + rest, p) == c[|p|..] + StripLiteral(rest, p)
  {
    var value := c[|p|..];
    assert p <= c + rest && (c + rest)[|p|..] == value + rest;
    assert forall i :: 0 <= i < |value| ==> value[i] == c[1..][|p| - 1 + i];
    DropValueAt(value, rest);
    StripInsideChunk(value, rest, p);
  }

  lemma StripOtherChunk(c: string, rest: string, p: string)
    requires Chunk(c) && Pattern(p) && (rest == "" || Sep(rest[0])) && !(p <= c)
    ensures StripParam(c + rest, p) == c + StripParam(rest, p)
    ensures StripLiteral(c + rest, p) == c + StripLiteral(rest, p)
  {
    MatchesInsideChunk(c, rest, p);
    StripInsideChunk(c[1..], rest, p);
    Cons(c, rest);
    NoMatchStep(c + rest, p);
    Cons(c, StripParam(rest, p));
    Cons(c, StripLiteral(rest, p));
  }

  lemma StripFirstChunk(c: string, rest: string, p: string)
    requires Chunk(c) && Pattern(p) && (rest == "" || Sep(rest[0]))
    ensures StripParam(c + rest, p) == (if p <= c then "" else c) + StripParam(rest, p)
    ensures StripLiteral(c + rest, p) == (if p <= c then c[|p|..] else c) + StripLiteral(rest, p)
  {
    if p <= c {
      StripMatchingChunk(c, rest, p);
    } else {
      StripOtherChunk(c, rest, p);
    }
  }

  lemma {:induction false} StripChunks(cs: seq<string>, p: string)
    requires Chunked(cs) && Pattern(p)
    ensures StripParam(Flatten(cs), p) == Flatten(Without(cs, p))
  {
    if cs == [] {
    } else {
      assert forall i :: 0 <= i < |cs[1..]| ==> cs[1..][i] == cs[i + 1];
      StripChunks(cs[1..], p);
      StripFirstChunk(cs[0], Flatten(cs[1..]), p);
      FlattenConcat(if p <= cs[0] then [] else [cs[0]], Without(cs[1..], p));
    }
  }

  // `s/ key=[^ "]*//g` is token deletion: on every line it removes exactly the tokens that follow a
  // space and start with the pattern, and leaves all other text where it was.
  lemma StripIsTokenDeletion(s: string, p: string)
    requires Pattern(p)
    ensures StripParam(s, p) == Flatten(Without(Chunks(s), p))
    ensures Chunks(StripParam(s, p)) == Without(Chunks(s), p)
  {
    ChunksOfText(s);
    StripChunks(Chunks(s), p);
    WithoutChunked(Chunks(s), p);
    ChunksOfFlatten(Without(Chunks(s), p));
  }

  /** The scripts are idempotent and can run in any order. */
  lemma StripIdempotentAndCommutes(s: string, p: string, q: string)
    requires Pattern(p) && Pattern(q)
    ensures StripParam(StripParam(s, p), p) == StripParam(s, p)
    ensures StripParam(StripParam(s, p), q) == StripParam(StripParam(s, q), p)
  {
    StripIsTokenDeletion(s, p);
    StripIsTokenDeletion(s, q);
    StripIsTokenDeletion(StripParam(s, p), p);
    StripIsTokenDeletion(StripParam(s, p), q);
    StripIsTokenDeletion(StripParam(s, q), p);
    WithoutMember(Chunks(s), p);
    WithoutNothing(Without(Chunks(s), p), p);
    WithoutCommutes(Chunks(s), p, q);
  }

  lemma StripConcat(x: string, y: string, p: string)
    requires Pattern(p) && (y == "" || Sep(y[0]))
    ensures StripParam(x + y, p) == StripParam(x, p) + StripParam(y, p)
  {
    StripIsTokenDeletion(x, p);
    StripIsTokenDeletion(y, p);
    StripIsTokenDeletion(x + y, p);
    ChunksConcat(x, y);
    WithoutConcat(Chunks(x), Chunks(y), p);
    FlattenConcat(Without(Chunks(x), p), Without(Chunks(y), p));
  }

  /**
   What the scripts miss: a `key=` token that follows a quote (or starts the line) survives, so the
   stripped line is free of such tokens exactly when every one of them follows a space.
   */
  lemma StripMissesFirstTokens(s: string, p: string)
    requires Pattern(p)
    ensures (forall c :: c in Chunks(StripParam(s, p)) ==> !(p[1..] <= Word(c))) <==>
            (forall c :: c in Chunks(s) && p[1..] <= Word(c) ==> p <= c)
  {
    StripIsTokenDeletion(s, p);
    WithoutMember(Chunks(s), p);
  }

  // ---- ` nosoftlockup` ---------------------------------------------------

  /** Every space-preceded token that starts with the word of `p` is that word and no more. */
  predicate Whole(s: string, p: string) {
    forall c :: c in Chunks(s) && p <= c ==> c == p
  }

  lemma {:induction false} LiteralWhole(cs: seq<string>, p: string)
    requires Chunked(cs) && Pattern(p) && forall c :: c in cs && p <= c ==> c == p
    ensures StripLiteral(Flatten(cs), p) == Flatten(Without(cs, p))
  {
    if cs == [] {
    } else {
      var c, rest := cs[0], cs[1..];
      assert c in cs && forall d :: d in rest ==> d in cs;
      assert forall i :: 0 <= i < |rest| ==> rest[i] == cs[i + 1];
      LiteralWhole(rest, p);
      StripFirstChunk(c, Flatten(rest), p);
      FlattenConcat(if p <= c then [] else [c], Without(rest, p));
      assert p <= c ==> c[|p|..] == "";
    }
  }

  lemma {:induction false} LiteralKeepsTails(cs: seq<string>, p: string)
    requires Chunked(cs) && Pattern(p)
    ensures |StripLiteral(Flatten(cs), p)| >= |Flatten(Without(cs, p))|
    ensures !(forall c :: c in cs && p <= c ==> c == p) ==>
              |StripLiteral(Flatten(cs), p)| > |Flatten(Without(cs, p))|
  {
    if cs == [] {
    } else {
      var c, rest := cs[0], cs[1..];
      assert forall d :: d in cs ==> d == c || d in rest;
      assert forall i :: 0 <= i < |rest| ==> rest[i] == cs[i + 1];
      LiteralKeepsTails(rest, p);
      StripFirstChunk(c, Flatten(rest), p);
      FlattenConcat(if p <= c then [] else [c], Without(rest, p));
      assert p <= c && |c| == |p| ==> c == p;
    }
  }

  /**
   `s/ nosoftlockup//g` deletes whole tokens, as the `key=` scripts do, if and only if every match is a
   whole token; otherwise it glues the tail of the token to the text in front of it.
   */
  lemma LiteralIsTokenDeletion(s: string, p: string)
    requires Pattern(p)
    ensures StripLiteral(s, p) == StripParam(s, p) <==> Whole(s, p)
  {
    ChunksOfText(s);
    LiteralKeepsTails(Chunks(s), p);
    if Whole(s, p) {
      LiteralWhole(Chunks(s), p);
    }
    StripIsTokenDeletion(s, p);
  }
}
