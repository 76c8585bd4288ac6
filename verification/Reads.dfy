/** When the client's result depends on its reads at all. After an early oversize header it does, unless
    the buffer is full to the last byte when the header is recognised: then no read can reach beyond that
    byte, and the same question arises for the rest of the stream. */
module Reads {
  import opened Wire
  import opened Framing

  /** The first flush happens at byte `k`, before the last byte. */
  predicate FlushesAt(s: seq<byte>, k: nat) {
    0 < k < |s| && Overran(Parse(s[..k])) && NoEarlyFlush(s[..k]) && !Overran(Parse(s[..k - 1]))
  }

  function FlushPoint(s: seq<byte>): (k: nat)
    requires !NoEarlyFlush(s)
    ensures FlushesAt(s, k)
    decreases |s|
  {
    var a := s[..|s| - 1];
    if NoEarlyFlush(a) then
      assert a[..|a| - 1] == s[..|s| - 2];
      assert a != [] by { assert Parse([]).events == []; }
      |s| - 1
    else
      var k := FlushPoint(a);
      assert a[..k] == s[..k] && a[..k - 1] == s[..k - 1];
      k
  }

  /** The buffer is full when the header that causes the flush is recognised. */
  predicate FullAt(s: seq<byte>, k: nat)
    requires 0 < k <= |s|
  {
    |Parse(s[..k - 1]).rest| == MAX_BUF - 1
  }

  /** Each early flush finds the buffer full. */
  predicate Decided(s: seq<byte>)
    decreases |s|
  {
    NoEarlyFlush(s) || (FullAt(s, FlushPoint(s)) && Decided(s[FlushPoint(s)..]))
  }

  ghost predicate Agree(s: seq<byte>) {
    forall c, d :: Fits(c) && Fits(d) && Concat(c) == s && Concat(d) == s ==> ReceiveAll(c) == ReceiveAll(d)
  }

  // ---------------------------------------------------------------------------------------
  // An empty buffer is a new beginning
  // ---------------------------------------------------------------------------------------

  function Behind(p: Parsed, q: Parsed): (r: Parsed) {
    Parsed(p.events + q.events, q.rest)
  }

  lemma {:induction false} Restart(a: seq<seq<byte>>, b: seq<seq<byte>>)
    requires ReceiveAll(a).rest == []
    ensures Concat(a + b) == Concat(a) + Concat(b)
    ensures ReceiveAll(a + b) == Behind(ReceiveAll(a), ReceiveAll(b))
    ensures Fits(a + b) <==> Fits(a) && Fits(b)
    decreases |b|
  {
    if b == [] {
      assert a + b == a;
      assert Concat(a) + [] == Concat(a);
      assert ReceiveAll(a).events + [] == ReceiveAll(a).events;
    } else {
      var older, c := b[..|b| - 1], b[|b| - 1];
      Restart(a, older);
      assert a + b == (a + older) + [c] && b == older + [c];
      Snoc(a + older, c);
      Snoc(older, c);
      Assoc(Concat(a), Concat(older), c);
      Assoc(ReceiveAll(a).events, ReceiveAll(older).events, Parse(ReceiveAll(older).rest + c).events);
    }
  }

  /** The flush empties the buffer, however the bytes up to it were read. */
  lemma {:induction false} EmptyAtFlush(s: seq<byte>, k: nat, c: seq<seq<byte>>)
    requires k <= |s| && Overran(Parse(s[..k])) && NoEarlyFlush(s[..k]) && Concat(c) == s[..k]
    ensures ReceiveAll(c) == Parse(s[..k]) && ReceiveAll(c).rest == []
  {
    ChunksAgree(c);
    FlushIsLast(s[..k]);
  }

  // ---------------------------------------------------------------------------------------
  // A full buffer forces the cut
  // ---------------------------------------------------------------------------------------

  /** The last cut that is not behind byte `k`. */
  lemma {:induction false} LastCut(c: seq<seq<byte>>, k: nat) returns (j: nat)
    requires k <= |Concat(c)|
    ensures j <= |c| && |Concat(c[..j])| <= k
    ensures j < |c| ==> k < |Concat(c[..j + 1])|
    ensures j == |c| ==> k == |Concat(c)|
    ensures Concat(c[..j]) == Concat(c)[..|Concat(c[..j])|]
    decreases |c|
  {
    if k == |Concat(c)| {
      j := |c|;
      assert c[..j] == c;
    } else {
      var older := c[..|c| - 1];
      if k >= |Concat(older)| {
        j := |c| - 1;
        assert c[..j + 1] == c;
      } else {
        j := LastCut(older, k);
        assert older[..j] == c[..j];
        assert j < |older| && older[..j + 1] == c[..j + 1];
      }
    }
  }

  lemma {:induction false} FitsFront(c: seq<seq<byte>>, j: nat)
    requires Fits(c) && j <= |c|
    ensures Fits(c[..j])
    ensures j < |c| ==> |ReceiveAll(c[..j]).rest| + |c[j]| <= MAX_BUF
    decreases |c|
  {
    if j == |c| {
      assert c[..j] == c;
    } else if j < |c| - 1 {
      FitsFront(c[..|c| - 1], j);
      assert c[..|c| - 1][..j] == c[..j];
    }
  }

  /** What is left of a longer stream is no longer than what was left before and what came. */
  lemma {:induction false} RestGrows(a: seq<byte>, b: seq<byte>)
    requires !Overran(Parse(a))
    ensures |Parse(a + b).rest| <= |Parse(a).rest| + |b|
  {
    ParseExtends(a, b);
    ParseConserves(Parse(a).rest + b);
  }

  lemma {:induction false} CutsAtFlush(s: seq<byte>, k: nat, c: seq<seq<byte>>) returns (j: nat)
    requires FlushesAt(s, k) && FullAt(s, k) && Fits(c) && Concat(c) == s
    ensures j <= |c| && Concat(c[..j]) == s[..k]
  {
    j := LastCut(c, k);
    var a := Concat(c[..j]);
    if |a| < k {
      assert c[..j + 1] == c[..j] + [c[j]];
      Snoc(c[..j], c[j]);
      FitsFront(c, j);
      var b := s[|a|..k - 1];
      assert a + b == s[..k - 1];
      NoFlushInPrefix(a, b);
      NotOverrunWhole(a);
      ChunksAgree(c[..j]);
      RestGrows(a, b);
      assert false;
    }
  }

  /** Reads cut at the flush go on as reads of the rest. */
  lemma {:induction false} GoesOn(s: seq<byte>, k: nat, c: seq<seq<byte>>, j: nat)
    requires FlushesAt(s, k) && Fits(c) && Concat(c) == s && j <= |c| && Concat(c[..j]) == s[..k]
    ensures Fits(c[j..]) && Concat(c[j..]) == s[k..]
    ensures ReceiveAll(c) == Behind(Parse(s[..k]), ReceiveAll(c[j..]))
  {
    EmptyAtFlush(s, k, c[..j]);
    assert c == c[..j] + c[j..];
    Restart(c[..j], c[j..]);
    assert s[..k] + Concat(c[j..]) == s;
  }

  lemma {:induction false} DecidedAgrees(s: seq<byte>, c: seq<seq<byte>>, d: seq<seq<byte>>)
    requires Decided(s) && Fits(c) && Fits(d) && Concat(c) == s && Concat(d) == s
    ensures ReceiveAll(c) == ReceiveAll(d)
    decreases |s|
  {
    if NoEarlyFlush(s) {
      ChunksAgree(c);
      ChunksAgree(d);
    } else {
      var k := FlushPoint(s);
      var i := CutsAtFlush(s, k, c);
      var j := CutsAtFlush(s, k, d);
      GoesOn(s, k, c, i);
      GoesOn(s, k, d, j);
      DecidedAgrees(s[k..], c[i..], d[j..]);
    }
  }

  // ---------------------------------------------------------------------------------------
  // Otherwise two reads differ
  // ---------------------------------------------------------------------------------------

  lemma {:induction false} PutTogether(s: seq<byte>, k: nat, front: seq<seq<byte>>, later: seq<seq<byte>>)
    requires k <= |s| && Fits(front) && Concat(front) == s[..k] && ReceiveAll(front).rest == []
    requires Fits(later) && Concat(later) == s[k..]
    ensures Fits(front + later) && Concat(front + later) == s
    ensures ReceiveAll(front + later) == Behind(ReceiveAll(front), ReceiveAll(later))
  {
    Restart(front, later);
    assert s[..k] + s[k..] == s;
  }

  /** The flush happens at byte `k`, or one byte later and takes that byte along. */
  lemma {:induction false} TwoWays(s: seq<byte>, k: nat) returns (c: seq<seq<byte>>, d: seq<seq<byte>>)
    requires FlushesAt(s, k) && !FullAt(s, k)
    ensures Fits(c) && Fits(d) && Concat(c) == s && Concat(d) == s && ReceiveAll(c) != ReceiveAll(d)
  {
    var p, q, q';
    c, p := AtOnce(s, k);
    d, q, q' := Later(s, k);
    SizesDiffer(Parse(s[..k]), p, q, q', s[k..k + 1]);
  }

  lemma {:induction false} AtOnce(s: seq<byte>, k: nat) returns (c: seq<seq<byte>>, p: Parsed)
    requires FlushesAt(s, k)
    ensures Fits(c) && Concat(c) == s && ReceiveAll(c) == Behind(Parse(s[..k]), p)
  {
    var front, later := Singles(s[..k]), Singles(s[k..]);
    SinglesFit(s[..k]);
    SinglesFit(s[k..]);
    EmptyAtFlush(s, k, front);
    PutTogether(s, k, front, later);
    c, p := front + later, ReceiveAll(later);
  }

  /** The flush of `p` with one more part. */
  predicate TookAlong(p: Parsed, q: Parsed, b: seq<byte>) {
    var i := |p.events| - 1;
    Overran(p) && |q.events| == i + 1 && q.events[i] == Flushed(p.events[i].bytes + b) && q.rest == []
  }

  lemma {:induction false} Later(s: seq<byte>, k: nat) returns (d: seq<seq<byte>>, q: Parsed, q': Parsed)
    requires FlushesAt(s, k) && !FullAt(s, k)
    ensures Fits(d) && Concat(d) == s && ReceiveAll(d) == Behind(q, q')
    ensures TookAlong(Parse(s[..k]), q, s[k..k + 1])
  {
    var e := OneLater(s, k);
    var rest := Singles(s[k + 1..]);
    SinglesFit(s[k + 1..]);
    PutTogether(s, k + 1, e, rest);
    d, q, q' := e + rest, ReceiveAll(e), ReceiveAll(rest);
  }

  lemma {:induction false} SizesDiffer(p: Parsed, p': Parsed, q: Parsed, q': Parsed, b: seq<byte>)
    requires TookAlong(p, q, b) && |b| == 1
    ensures Behind(p, p') != Behind(q, q')
  {
    var i := |p.events| - 1;
    assert Behind(p, p').events[i] == p.events[i] && Behind(q, q').events[i] == q.events[i];
    assert |q.events[i].bytes| == |p.events[i].bytes| + 1;
  }

  lemma {:induction false} OneLater(s: seq<byte>, k: nat) returns (e: seq<seq<byte>>)
    requires FlushesAt(s, k) && !FullAt(s, k)
    ensures Fits(e) && Concat(e) == s[..k + 1] && TookAlong(Parse(s[..k]), ReceiveAll(e), s[k..k + 1])
  {
    var a, two := s[..k - 1], s[k - 1..k + 1];
    assert a + two == s[..k + 1];
    e := TwoAtOnce(a, two);
    assert s[..k] + s[k..k + 1] == s[..k + 1];
    ParseExtends(s[..k], s[k..k + 1]);
  }

  lemma {:induction false} TwoAtOnce(a: seq<byte>, two: seq<byte>) returns (e: seq<seq<byte>>)
    requires !Overran(Parse(a)) && |two| == 2 && |Parse(a).rest| != MAX_BUF - 1
    ensures Fits(e) && Concat(e) == a + two && ReceiveAll(e) == Parse(a + two)
  {
    SinglesFit(a);
    NotOverrunWhole(a);
    ChunksAgree(Singles(a));
    ParseLeavesRoom(a);
    e := Singles(a) + [two];
    Snoc(Singles(a), two);
    ParseExtends(a, two);
  }

  lemma {:induction false} UndecidedDiffers(s: seq<byte>) returns (c: seq<seq<byte>>, d: seq<seq<byte>>)
    requires !Decided(s)
    ensures Fits(c) && Fits(d) && Concat(c) == s && Concat(d) == s && ReceiveAll(c) != ReceiveAll(d)
    decreases |s|
  {
    var k := FlushPoint(s);
    if !FullAt(s, k) {
      c, d := TwoWays(s, k);
    } else {
      var x, y := UndecidedDiffers(s[k..]);
      var front := Singles(s[..k]);
      SinglesFit(s[..k]);
      EmptyAtFlush(s, k, front);
      PutTogether(s, k, front, x);
      PutTogether(s, k, front, y);
      SameFront(ReceiveAll(front), ReceiveAll(x), ReceiveAll(y));
      c, d := front + x, front + y;
    }
  }

  lemma SameFront(p: Parsed, q: Parsed, r: Parsed)
    requires q != r
    ensures Behind(p, q) != Behind(p, r)
  {
    assert q.events == (p.events + q.events)[|p.events|..];
    assert r.events == (p.events + r.events)[|p.events|..];
  }

  /** The exact condition, about reads a client can make alone: any two of them give the same events and
      residue if and only if each early flush of the stream finds the buffer full. */
  lemma {:induction false} ReadsAgree(s: seq<byte>)
    ensures Agree(s) <==> Decided(s)
  {
    if Decided(s) {
      forall c, d | Fits(c) && Fits(d) && Concat(c) == s && Concat(d) == s ensures ReceiveAll(c) == ReceiveAll(d) {
        DecidedAgrees(s, c, d);
      }
    } else {
      var c, d := UndecidedDiffers(s);
    }
  }
}
