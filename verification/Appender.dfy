/** The append-only writer of export.c: text goes to a caller's buffer with the truncation
    rule of snprintf, while the length the whole text needs keeps being counted. */
module Appending {

  function Min(a: nat, b: nat): nat {
    if a <= b then a else b
  }

  /** A buffer after snprintf(buf, size, "%s", text): the first min(|text|, size - 1)
      characters and a NUL; everything behind stays; size 0 touches nothing. */
  function Snprintf(before: string, size: nat, text: string): (after: string)
    requires size <= |before|
    ensures |after| == |before|
  {
    if size == 0 then before
    else
      var n := Min(|text|, size - 1);
      text[..n] + ['\0'] + before[n + 1..]
  }

  lemma Rewritten(text: string, behind: string, more: string)
    requires |more| <= |behind|
    ensures (text + ['\0'] + behind)[..|text|] == text
    ensures (text + ['\0'] + behind)[|text|..][|more| + 1..] == behind[|more|..]
    ensures text + (more + ['\0'] + behind[|more|..]) == (text + more) + ['\0'] + behind[|more|..]
  {
  }

  /** Writing at the end of what is already there is writing the longer text at once. */
  lemma {:induction false} SnprintfAppend(before: string, size: nat, text: string, more: string)
    requires size <= |before| && |text| < size
    ensures
      var now := Snprintf(before, size, text);
      Snprintf(before, size, text + more) == now[..|text|] + Snprintf(now[|text|..], size - |text|, more)
  {
    hide Snprintf;
    var now := Snprintf(before, size, text);
    var k := Min(|more|, size - |text| - 1);
    var room := before[|text| + 1..];
    SnprintfIs(before, size, text, text);
    assert now == text + ['\0'] + room;
    Rewritten(text, room, more[..k]);
    SnprintfIs(now[|text|..], size - |text|, more, more[..k]);
    SnprintfIs(before, size, text + more, text + more[..k]);
    assert room[k..] == before[|text| + k + 1..];
  }

  lemma SnprintfIs(before: string, size: nat, text: string, kept: string)
    requires 0 < size <= |before| && kept <= text && |kept| == Min(|text|, size - 1)
    ensures Snprintf(before, size, text) == kept + ['\0'] + before[|kept| + 1..]
  {
  }

  /** Text added past the room for it changes nothing. */
  lemma {:induction false} SnprintfFull(before: string, size: nat, text: string, more: string)
    requires size <= |before| && |text| >= size
    ensures Snprintf(before, size, text + more) == Snprintf(before, size, text)
  {
    if size > 0 {
      assert (text + more)[..size - 1] == text[..size - 1];
    }
  }

  /** vsnprintf on the tail of buf that starts at `at`, once the format is expanded. */
  method Vsnprintf(buf: array<char>, at: nat, size: nat, text: string) returns (n: nat)
    requires size > 0 && at + size <= buf.Length
    modifies buf
    ensures n == |text|
    ensures buf[..] == old(buf[..at]) + Snprintf(old(buf[at..]), size, text)
  {
    hide Snprintf;
    n := |text|;
    var k := Min(n, size - 1);
    ghost var before := buf[..];
    forall i | 0 <= i < k {
      buf[at + i] := text[i];
    }
    buf[at + k] := '\0';
    Pieces(before, at, text[..k], buf[..]);
    SnprintfIs(before[at..], size, text, text[..k]);
    assert before[..at] == old(buf[..at]) && before[at..] == old(buf[at..]);
  }

  lemma Pieces(before: string, at: nat, t: string, after: string)
    requires |after| == |before| && at + |t| < |before|
    requires forall i :: 0 <= i < at ==> after[i] == before[i]
    requires forall i :: 0 <= i < |t| ==> after[at + i] == t[i]
    requires after[at + |t|] == '\0'
    requires forall i :: at + |t| < i < |before| ==> after[i] == before[i]
    ensures after == before[..at] + (t + ['\0'] + before[at..][|t| + 1..])
  {
  }

  lemma SnprintfNone(before: string, text: string)
    ensures Snprintf(before, 0, text) == before
  {
  }

  lemma SnprintfFirst(before: string, size: nat, text: string)
    requires size <= |before|
    ensures before[..0] + Snprintf(before[0..], size, text) == Snprintf(before, size, "" + text)
  {
    assert before[0..] == before && "" + text == text;
  }

  class Appender {
    var buf: array?<char>
    var size: nat
    var needed: nat
    ghost var text: string     // everything appended so far
    ghost var initial: string  // the buffer before the first append
    ghost var started: bool    // an append has happened, so a NUL is in place

    ghost predicate Valid()
      reads this, buf
    {
      && needed == |text|
      && (started || text == "")
      && (buf == null ==> size == 0 && initial == "")
      && (buf != null ==>
            && size <= buf.Length == |initial|
            && buf[..] == if started then Snprintf(initial, size, text) else initial)
    }

    constructor (buf: array?<char>, size: nat)
      requires buf == null ==> size == 0
      requires buf != null ==> size <= buf.Length
      ensures Valid() && this.buf == buf && this.size == size && text == ""
      ensures buf != null ==> initial == buf[..]
    {
      this.buf := buf;
      this.size := size;
      needed := 0;
      text := "";
      started := false;
      initial := if buf == null then "" else buf[..];
    }

    method Append(s: string)
      requires Valid()
      modifies this, buf
      ensures Valid() && started
      ensures buf == old(buf) && size == old(size) && initial == old(initial)
      ensures text == old(text) + s
    {
      hide Snprintf;
      var remaining := if needed < size then size - needed else 0;
      ghost var before := text;
      var n := |s|;
      if remaining > 0 {
        if started {
          SnprintfAppend(initial, size, text, s);
        } else {
          SnprintfFirst(initial, size, s);
        }
        n := Vsnprintf(buf, needed, remaining, s);
      } else if started {
        SnprintfFull(initial, size, text, s);
      } else {
        SnprintfNone(initial, before + s);
      }
      if n > 0 {
        needed := needed + n;
      }
      text := before + s;
      started := true;
    }
  }
}
