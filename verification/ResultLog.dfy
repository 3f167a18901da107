/** The 512-byte message of a setup result, filled line by line. */
module ResultLog {
  import opened Text
  import opened CReaders

  /** What one `result_append` makes of the message. */
  function Appended(m: string, text: string): string {
    if |m| >= 510 then m
    else
      var grown := m + Take(text, 511 - |m|);
      if text != "" && |m| + |text| < 510 then grown + "\n" else grown
  }

  class SetupResult {
    const message: array<char>

    constructor ()
      ensures Valid() && fresh(message) && Log() == ""
    {
      message := new char[512](_ => NUL);
      new;
      assert message[..][0] == NUL;
      CTextOf(message[..], 0);
    }

    ghost predicate Valid()
      reads message
    {
      message.Length == 512 && NUL in message[..]
    }

    /** The C string in the message. */
    ghost function Log(): string
      reads message
    {
      CText(message[..])
    }

    /** `strlen(r->message)`. */
    method StrLen() returns (len: nat)
      requires Valid()
      ensures CStringIn(message, len) && Log() == message[..len]
    {
      len := 0;
      while message[len] != NUL
        invariant len < 512 && forall i :: 0 <= i < len ==> message[i] != NUL
        invariant NUL in message[len..]
        decreases 512 - len
      {
        assert message[len..][0] == message[len] && message[len..][1..] == message[len + 1..];
        len := len + 1;
      }
      CTextOf(message[..], len);
      assert message[..][..len] == message[..len];
    }

    /** `vsnprintf(message + len, 512 - len, ...)`. */
    method Format(len: nat, text: string)
      requires message.Length == 512 && len < 512 && NulFree(text) && CStringIn(message, len)
      modifies message
      ensures var end := len + |Take(text, 511 - len)|;
              CStringIn(message, end) && message[..end] == old(message[..len]) + Take(text, 511 - len)
    {
      var cut := Take(text, 511 - len);
      var i := 0;
      while i < |cut|
        invariant 0 <= i <= |cut| <= 511 - len
        invariant forall k :: 0 <= k < len ==> message[k] == old(message[k])
        invariant forall k :: 0 <= k < i ==> message[len + k] == cut[k]
      {
        message[len + i] := cut[i];
        i := i + 1;
      }
      message[len + i] := NUL;
      assert forall k :: 0 <= k < |cut| ==> cut[k] in text && message[len + k] == cut[k];
      assert message[..len + i] == old(message[..len]) + cut;
      assert forall k :: len <= k < len + i ==> message[k] == cut[k - len];
    }

    /** `result_append`. */
    method Append(text: string)
      requires Valid() && NulFree(text)
      modifies message
      ensures Valid() && Log() == Appended(old(Log()), text)
    {
      var len := StrLen();
      if len >= 510 {
        return;
      }
      ghost var m := message[..len];
      Format(len, text);
      var end := len + |Take(text, 511 - len)|;
      var n := |text|;
      if n > 0 {
        if len + n < 510 {
          message[len + n] := '\n';
          message[len + n + 1] := NUL;
          end := end + 1;
          assert message[..end] == m + text + "\n";
        }
      }
      CTextOf(message[..], end);
      assert message[..][..end] == message[..end];
      assert message[end] in message[..];
    }
  }

  // ---- The log over any number of calls ---------------------------------------------------

  function Logged(texts: seq<string>): string {
    if texts == [] then "" else Appended(Logged(texts[..|texts| - 1]), texts[|texts| - 1])
  }

  /** The unbounded log: every non-empty text and a newline. */
  function Ideal(texts: seq<string>): string {
    if texts == [] then ""
    else
      var last := texts[|texts| - 1];
      Ideal(texts[..|texts| - 1]) + if last == "" then "" else last + "\n"
  }

  lemma AppendPrefix(m: string, ideal: string, text: string)
    requires m <= ideal && |m| <= 511
    requires m == ideal <==> |ideal| <= 510
    requires |ideal| > 510 ==> |m| >= 510
    ensures var m', ideal' := Appended(m, text), ideal + if text == "" then "" else text + "\n";
            m' <= ideal' && |m'| <= 511 && (m' == ideal' <==> |ideal'| <= 510) && (|ideal'| > 510 ==> |m'| >= 510)
  {
    if |m| < 510 {
      var cut := Take(text, 511 - |m|);
      assert cut <= text;
      assert ideal + (text + "\n") == ideal + text + "\n";
      assert ideal + text == ideal + cut + text[|cut|..];
    }
  }

  /**
   After every sequence of appends the message is a prefix of the unbounded log; it is the whole log iff
   that has at most 510 characters, and otherwise the message holds its first 510 or 511 characters.
   */
  lemma {:induction false} LogIsPrefix(texts: seq<string>)
    ensures Logged(texts) <= Ideal(texts) && |Logged(texts)| <= 511
    ensures Logged(texts) == Ideal(texts) <==> |Ideal(texts)| <= 510
    ensures |Ideal(texts)| > 510 ==> |Logged(texts)| >= 510
  {
    if texts == [] {
    } else {
      var init, last := texts[..|texts| - 1], texts[|texts| - 1];
      LogIsPrefix(init);
      AppendPrefix(Logged(init), Ideal(init), last);
    }
  }

  /** The calls of a whole setup run on a fresh result. */
  method AppendAll(texts: seq<string>) returns (r: SetupResult)
    requires forall t :: t in texts ==> NulFree(t)
    ensures fresh(r) && fresh(r.message) && r.Valid() && r.Log() == Logged(texts)
  {
    r := new SetupResult();
    var i := 0;
    while i < |texts|
      invariant 0 <= i <= |texts|
      invariant fresh(r.message) && r.Valid() && r.Log() == Logged(texts[..i])
    {
      assert texts[..i + 1][..i] == texts[..i] && texts[i] in texts;
      r.Append(texts[i]);
      i := i + 1;
    }
    assert texts[..i] == texts;
  }
}
