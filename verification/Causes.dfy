/** Why the client's parser drops what it drops, for every way of reading. */
module Causes {
  import opened Wire
  import opened Framing

  /** What stands where a byte was skipped: no '$', or a header whose frame has arrived and does not end in
      '#'. */
  predicate NoFrameHere(b: seq<byte>) {
    && |b| >= MSG_HEADER
    && (b[0] != DOLLAR ||
        (SizeField(b) <= MAX_PAYLOAD && MSG_HEADER + SizeField(b) < |b| && b[MSG_HEADER + SizeField(b)] != HASH))
  }

  /** What stands where the buffer was flushed: a header that announces too much. */
  predicate TooLongHere(b: seq<byte>) {
    |b| >= MSG_HEADER && b[0] == DOLLAR && SizeField(b) > MAX_PAYLOAD
  }

  /** The event has its reason in the bytes from its place on. */
  predicate Caused(e: Event, b: seq<byte>) {
    match e
    case Skipped(x) => NoFrameHere(b)
    case Flushed(x) => TooLongHere(b) && TooLongHere(x)
    case Delivered(f) => Encode(f) <= b && |f.payload| <= MAX_PAYLOAD
  }

  /** The bytes from the place of the i-th event on. */
  function From(p: Parsed, i: nat): (b: seq<byte>)
    requires i <= |p.events|
  {
    Bytes(p.events[i..]) + p.rest
  }

  ghost predicate AllCaused(p: Parsed) {
    forall i :: 0 <= i < |p.events| ==> Caused(p.events[i], From(p, i))
  }

  /** Later bytes take no reason away. */
  lemma {:induction false} CausedLonger(e: Event, b: seq<byte>, more: seq<byte>)
    requires Caused(e, b)
    ensures Caused(e, b + more)
  {
    if |b| >= MSG_HEADER {
      assert SizeField(b + more) == SizeField(b);
    }
  }

  lemma {:induction false} CausedCons(e: Event, p: Parsed, b: seq<byte>)
    requires AllCaused(p) && Caused(e, b) && b == EventBytes(e) + (Bytes(p.events) + p.rest)
    ensures AllCaused(Parsed([e] + p.events, p.rest))
  {
    var q := Parsed([e] + p.events, p.rest);
    forall i | 0 <= i < |q.events| ensures Caused(q.events[i], From(q, i)) {
      if i == 0 {
        assert q.events[0..] == q.events && q.events[1..] == p.events;
        Assoc(EventBytes(e), Bytes(p.events), p.rest);
      } else {
        assert q.events[i..] == p.events[i - 1..];
        assert Caused(p.events[i - 1], From(p, i - 1));
      }
    }
  }

  lemma {:induction false} ParseCaused(b: seq<byte>)
    ensures AllCaused(Parse(b))
    decreases |b|
  {
    match Inspect(b)
    case NeedMore =>
    case Oversize => OnlyFlushed(b);
    case Resync =>
      ParseCaused(b[1..]);
      ByteSkipped(b);
    case Whole(f) =>
      ParseCaused(b[MSG_HEADER + |f.payload| + 1..]);
      FrameDelivered(b, f);
  }

  lemma {:induction false} ByteSkipped(b: seq<byte>)
    requires Inspect(b).Resync? && AllCaused(Parse(b[1..]))
    ensures AllCaused(Parse(b))
  {
    ParseConserves(b[1..]);
    assert b == [b[0]] + b[1..];
    CausedCons(Skipped(b[0]), Parse(b[1..]), b);
  }

  lemma {:induction false} FrameDelivered(b: seq<byte>, f: Frame)
    requires Inspect(b) == Whole(f) && AllCaused(Parse(b[MSG_HEADER + |f.payload| + 1..]))
    ensures AllCaused(Parse(b))
  {
    var n := MSG_HEADER + |f.payload| + 1;
    ParseConserves(b[n..]);
    FrameAtEncodes(b);
    assert b == Encode(f) + b[n..];
    CausedCons(Delivered(f), Parse(b[n..]), b);
  }

  lemma {:induction false} OnlyFlushed(b: seq<byte>)
    requires Inspect(b).Oversize?
    ensures AllCaused(Parse(b))
  {
    var p := Parsed([], []);
    assert b + [] == b && Bytes([]) + p.rest == [];
    CausedCons(Flushed(b), p, b);
    assert [Flushed(b)] + [] == [Flushed(b)];
  }

  lemma {:induction false} ReceiveCaused(p: Parsed, c: seq<byte>)
    requires AllCaused(p)
    ensures AllCaused(Receive(p, c))
  {
    var r, q := Parse(p.rest + c), Receive(p, c);
    ParseCaused(p.rest + c);
    ParseConserves(p.rest + c);
    forall i | 0 <= i < |q.events| ensures Caused(q.events[i], From(q, i)) {
      if i < |p.events| {
        assert q.events[i..] == p.events[i..] + r.events;
        BytesAppend(p.events[i..], r.events);
        Assoc(Bytes(p.events[i..]), Bytes(r.events), r.rest);
        Assoc(Bytes(p.events[i..]), p.rest, c);
        CausedLonger(p.events[i], From(p, i), c);
      } else {
        assert q.events[i..] == r.events[i - |p.events|..];
        assert Caused(r.events[i - |p.events|], From(r, i - |p.events|));
      }
    }
  }

  /** For every way of reading any stream: a byte is skipped only where no frame stands, the buffer is
      flushed only where a header announces more than the client accepts, and a frame is delivered only
      where its encoding stands. */
  lemma {:induction false} EverythingHasACause(chunks: seq<seq<byte>>)
    ensures var p := ReceiveAll(chunks);
            && From(p, 0) == Concat(chunks)
            && forall i :: 0 <= i < |p.events| ==> Caused(p.events[i], From(p, i))
  {
    ReceiveAllConserves(chunks);
    assert ReceiveAll(chunks).events[0..] == ReceiveAll(chunks).events;
    CausedAll(chunks);
  }

  lemma {:induction false} CausedAll(chunks: seq<seq<byte>>)
    ensures AllCaused(ReceiveAll(chunks))
  {
    if chunks != [] {
      CausedAll(chunks[..|chunks| - 1]);
      ReceiveCaused(ReceiveAll(chunks[..|chunks| - 1]), chunks[|chunks| - 1]);
    }
  }
}
