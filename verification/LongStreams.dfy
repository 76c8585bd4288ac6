/** For streams longer than the buffer an early oversize header need not show: here is a stream that has
    one, and whose frames and residue are nevertheless the same for every way of reading it. */
module LongStreams {
  import opened Wire
  import opened Framing

  /** An oversize header without a second '$'. */
  function Huge(): (h: seq<byte>)
    ensures |h| == MSG_HEADER
  {
    Header(0, 0, MAX_PAYLOAD + 1)
  }

  /** The header, more '$'-free bytes than the buffer holds, the header again. */
  function Stream(z: seq<byte>): (s: seq<byte>) {
    Huge() + z + Huge()
  }

  predicate LongAndFree(z: seq<byte>) {
    DOLLAR !in z && |z| >= MAX_BUF
  }

  /** Without '$' before its last ten bytes a buffer is cut down to them. */
  lemma {:induction false} DownToTen(b: seq<byte>)
    requires forall i :: 0 <= i < |b| - 10 ==> b[i] != DOLLAR
    ensures Frames(Parse(b).events) == []
    ensures Parse(b).rest == if |b| <= 10 then b else b[|b| - 10..]
    decreases |b|
  {
    if |b| > 10 {
      var p := Parse(b[1..]);
      DownToTen(b[1..]);
      assert Inspect(b).Resync?;
      assert ([Skipped(b[0])] + p.events)[1..] == p.events;
      assert b[1..][|b[1..]| - 10..] == b[|b| - 10..] || |b| == 11;
    }
  }

  /** What the buffer holds once `m` bytes of the stream have been read, in any fitting reads. */
  predicate BufferIs(z: seq<byte>, m: nat, rest: seq<byte>) {
    var s := Stream(z);
    m <= |s| &&
    if m < MSG_HEADER then rest == s[..m]
    else if m == |s| then rest == []
    else
      && |rest| <= 10 && MSG_HEADER <= m - |rest| && rest == s[m - |rest|..m]
      && (|rest| == 10 || m - |rest| <= MAX_BUF)
  }

  lemma {:induction false} MiddleRead(z: seq<byte>, a: nat, m: nat)
    requires LongAndFree(z) && MSG_HEADER <= a <= m < |Stream(z)|
    ensures var b := Stream(z)[a..m];
            && Frames(Parse(b).events) == []
            && Parse(b).rest == if |b| <= 10 then b else Stream(z)[m - 10..m]
  {
    var s, b := Stream(z), Stream(z)[a..m];
    forall i | 0 <= i < |b| - 10 ensures b[i] != DOLLAR {
      assert b[i] == s[a + i] == z[a + i - MSG_HEADER];
    }
    DownToTen(b);
    if |b| > 10 {
      assert b[|b| - 10..] == s[m - 10..m];
    }
  }

  lemma {:induction false} LastFlush(z: seq<byte>, a: nat)
    requires LongAndFree(z) && MSG_HEADER <= a <= MSG_HEADER + |z|
    ensures Frames(Parse(Stream(z)[a..]).events) == [] && Parse(Stream(z)[a..]).rest == []
  {
    var g := z[a - MSG_HEADER..];
    assert Stream(z)[a..] == g + Huge();
    GarbageIsSkipped(g, Huge());
    FramesAppend(AllSkipped(g), Parse(Huge()).events);
    FramesOfSkipped(g);
    assert Frames([Flushed(Huge())]) == [];
  }

  /** One read of `n` bytes into a buffer that holds the stream from `a` to `m`. */
  predicate ReadGives(z: seq<byte>, a: nat, m: nat, n: nat)
    requires a <= m && m + n <= |Stream(z)|
  {
    var p := Parse(Stream(z)[a..m + n]);
    Frames(p.events) == [] && BufferIs(z, m + n, p.rest)
  }

  lemma {:induction false} FirstRead(z: seq<byte>, m: nat, n: nat)
    requires LongAndFree(z) && m < MSG_HEADER && m + n <= MAX_BUF
    ensures ReadGives(z, 0, m, n)
  {
    if m + n >= MSG_HEADER {
      WholeIsFlushed(z, m + n);
      assert Frames([Flushed(Stream(z)[..m + n])]) == [];
      assert Stream(z)[0..m + n] == Stream(z)[..m + n];
    } else {
      assert Stream(z)[0..m + n] == Stream(z)[..m + n];
    }
  }

  lemma {:induction false} LaterRead(z: seq<byte>, a: nat, m: nat, n: nat)
    requires LongAndFree(z) && MSG_HEADER <= a <= m < |Stream(z)| && m + n <= |Stream(z)|
    requires m - a == 10 || (m - a < 10 && a <= MAX_BUF)
    ensures ReadGives(z, a, m, n)
  {
    if m + n == |Stream(z)| {
      assert Stream(z)[a..m + n] == Stream(z)[a..];
      LastFlush(z, a);
    } else {
      MiddleRead(z, a, m + n);
    }
  }

  lemma {:induction false} OneRead(z: seq<byte>, m: nat, rest: seq<byte>, n: nat)
    requires LongAndFree(z) && BufferIs(z, m, rest) && m + n <= |Stream(z)| && |rest| + n <= MAX_BUF
    ensures var p := Parse(rest + Stream(z)[m..m + n]);
            Frames(p.events) == [] && BufferIs(z, m + n, p.rest)
  {
    if m == |Stream(z)| {
      assert rest + Stream(z)[m..m + n] == [];
    } else {
      var a := m - |rest|;
      Joined(Stream(z), a, m, n, rest);
      if m < MSG_HEADER {
        FirstRead(z, m, n);
      } else {
        LaterRead(z, a, m, n);
      }
    }
  }

  lemma Joined(s: seq<byte>, a: nat, m: nat, n: nat, rest: seq<byte>)
    requires a <= m && m + n <= |s| && rest == s[a..m]
    ensures rest + s[m..m + n] == s[a..m + n]
  {
  }

  lemma Parted(s: seq<byte>, a: seq<byte>, b: seq<byte>)
    requires |a + b| <= |s| && a + b == s[..|a + b|]
    ensures a == s[..|a|] && b == s[|a|..|a| + |b|]
  {
    assert a == (a + b)[..|a|] && b == (a + b)[|a|..];
  }

  /** After any fitting reads of a part of the stream. */
  predicate ReadsGive(z: seq<byte>, chunks: seq<seq<byte>>) {
    Frames(ReceiveAll(chunks).events) == [] && BufferIs(z, |Concat(chunks)|, ReceiveAll(chunks).rest)
  }

  lemma {:induction false} AllReads(z: seq<byte>, chunks: seq<seq<byte>>)
    requires LongAndFree(z) && Fits(chunks)
    requires |Concat(chunks)| <= |Stream(z)| && Concat(chunks) == Stream(z)[..|Concat(chunks)|]
    ensures ReadsGive(z, chunks)
    decreases |chunks|
  {
    if chunks != [] {
      var older, c := chunks[..|chunks| - 1], chunks[|chunks| - 1];
      Parted(Stream(z), Concat(older), c);
      AllReads(z, older);
      OneRead(z, |Concat(older)|, ReceiveAll(older).rest, |c|);
      NoNewFrames(ReceiveAll(older), c);
    }
  }

  lemma {:induction false} NoNewFrames(p: Parsed, c: seq<byte>)
    requires Frames(p.events) == [] && Frames(Parse(p.rest + c).events) == []
    ensures Frames(Receive(p, c).events) == []
  {
    FramesAppend(p.events, Parse(p.rest + c).events);
  }

  /** The flush is early, and yet no fitting reads show it in the frames or the residue. */
  lemma {:induction false} EarlyFlushUnseen(z: seq<byte>, chunks: seq<seq<byte>>)
    requires LongAndFree(z) && Fits(chunks) && Concat(chunks) == Stream(z)
    ensures !NoEarlyFlush(Stream(z))
    ensures Frames(ReceiveAll(chunks).events) == Frames(Parse(Stream(z)).events) == []
    ensures ReceiveAll(chunks).rest == Parse(Stream(z)).rest == []
  {
    var s := Stream(z);
    AllReads(z, chunks) by { assert s[..|s|] == s; }
    WholeIsFlushed(z, |s|);
    WholeIsFlushed(z, |s| - 1);
    assert s[..|s|] == s;
    assert Frames([Flushed(s)]) == [];
  }

  lemma {:induction false} WholeIsFlushed(z: seq<byte>, m: nat)
    requires MSG_HEADER <= m <= |Stream(z)|
    ensures Parse(Stream(z)[..m]) == Parsed([Flushed(Stream(z)[..m])], [])
  {
    assert Stream(z)[..m] == Huge() + Stream(z)[MSG_HEADER..m];
    InspectStable(Huge(), Stream(z)[MSG_HEADER..m]);
  }
}
