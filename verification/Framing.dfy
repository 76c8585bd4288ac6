/** The client's incremental frame parser, as a function of the bytes received.

    `Parse` is the frame loop of MyTcpSocket::recvFromSocket run on a whole buffer. Every byte
    that leaves the buffer is put into an event, so nothing is lost from the account. */
module Framing {
  import opened Wire

  datatype Verdict = NeedMore | Resync | Oversize | Whole(frame: Frame)

  /** What the frame loop decides about the front of the buffer. */
  function Inspect(b: seq<byte>): (v: Verdict) {
    if |b| < MSG_HEADER then NeedMore
    else if b[0] != DOLLAR then Resync
    else if SizeField(b) > MAX_PAYLOAD then Oversize
    else if SizeField(b) + 1 + MSG_HEADER > |b| then NeedMore
    else if b[MSG_HEADER + SizeField(b)] != HASH then Resync
    else Whole(FrameAt(b))
  }

  datatype Event =
    | Skipped(b: byte)            // one byte dropped to find the next '$'
    | Delivered(frame: Frame)     // one frame handed on
    | Flushed(bytes: seq<byte>)   // the whole buffer dropped at an oversize header

  datatype Parsed = Parsed(events: seq<Event>, rest: seq<byte>)

  function Parse(b: seq<byte>): (p: Parsed)
    decreases |b|
  {
    match Inspect(b)
    case NeedMore => Parsed([], b)
    case Oversize => Parsed([Flushed(b)], [])
    case Resync =>
      var p := Parse(b[1..]);
      Parsed([Skipped(b[0])] + p.events, p.rest)
    case Whole(f) =>
      var p := Parse(b[MSG_HEADER + |f.payload| + 1..]);
      Parsed([Delivered(f)] + p.events, p.rest)
  }

  /** One call of recvFromSocket: the new bytes go behind the residue and the loop runs. */
  function Receive(p: Parsed, chunk: seq<byte>): (q: Parsed) {
    var r := Parse(p.rest + chunk);
    Parsed(p.events + r.events, r.rest)
  }

  /** A whole history of calls, oldest chunk first. */
  function ReceiveAll(chunks: seq<seq<byte>>): (p: Parsed) {
    if chunks == [] then Parsed([], [])
    else Receive(ReceiveAll(chunks[..|chunks| - 1]), chunks[|chunks| - 1])
  }

  function Concat(chunks: seq<seq<byte>>): (b: seq<byte>) {
    if chunks == [] then [] else Concat(chunks[..|chunks| - 1]) + chunks[|chunks| - 1]
  }

  function Frames(es: seq<Event>): (fs: seq<Frame>) {
    if es == [] then []
    else (if es[0].Delivered? then [es[0].frame] else []) + Frames(es[1..])
  }

  lemma {:induction false} FramesAppend(a: seq<Event>, b: seq<Event>)
    ensures Frames(a + b) == Frames(a) + Frames(b)
  {
    if a == [] {
      assert a + b == b;
    } else {
      assert (a + b)[1..] == a[1..] + b;
      FramesAppend(a[1..], b);
      Assoc(if a[0].Delivered? then [a[0].frame] else [], Frames(a[1..]), Frames(b));
    }
  }

  // ---------------------------------------------------------------------------------------
  // Soundness on arbitrary input: the bytes behind the events and the residue are the bytes
  // received, in order, for every stream and every chunking.
  // ---------------------------------------------------------------------------------------

  function EventBytes(e: Event): (b: seq<byte>) {
    match e
    case Skipped(x) => [x]
    case Delivered(f) => Encode(f)
    case Flushed(x) => x
  }

  function Bytes(es: seq<Event>): (b: seq<byte>) {
    if es == [] then [] else EventBytes(es[0]) + Bytes(es[1..])
  }

  lemma {:induction false} BytesAppend(a: seq<Event>, b: seq<Event>)
    ensures Bytes(a + b) == Bytes(a) + Bytes(b)
  {
    if a == [] {
      assert a + b == b;
    } else {
      assert (a + b)[1..] == a[1..] + b;
      BytesAppend(a[1..], b);
      assert EventBytes(a[0]) + (Bytes(a[1..]) + Bytes(b)) == EventBytes(a[0]) + Bytes(a[1..]) + Bytes(b);
    }
  }

  lemma {:induction false} ParseConserves(b: seq<byte>)
    ensures Bytes(Parse(b).events) + Parse(b).rest == b
    decreases |b|
  {
    match Inspect(b)
    case NeedMore =>
      assert [] + b == b;
    case Oversize =>
    case Resync =>
      ParseConserves(b[1..]);
    case Whole(f) =>
      var n := MSG_HEADER + |f.payload| + 1;
      ParseConserves(b[n..]);
      FrameAtEncodes(b);
  }

  /** The loop stops only when it needs more bytes, and then the next read has room for them. */
  lemma {:induction false} ParseLeavesRoom(b: seq<byte>)
    ensures Inspect(Parse(b).rest).NeedMore?
    ensures |Parse(b).rest| < MAX_BUF
    decreases |b|
  {
    match Inspect(b)
    case NeedMore =>
    case Oversize =>
    case Resync => ParseLeavesRoom(b[1..]);
    case Whole(f) => ParseLeavesRoom(b[MSG_HEADER + |f.payload| + 1..]);
  }

  /** For every stream and every chunking, oversize flushes and bad tails included: the events and
      the residue spell the received bytes, each once and in order. A delivered frame is therefore
      a stretch of the stream that starts with '$', ends with '#' and has the length its header
      states, and no two frames share a byte. */
  lemma {:induction false} ReceiveAllConserves(chunks: seq<seq<byte>>)
    ensures Bytes(ReceiveAll(chunks).events) + ReceiveAll(chunks).rest == Concat(chunks)
    ensures |ReceiveAll(chunks).rest| < MAX_BUF
  {
    if chunks != [] {
      var older := chunks[..|chunks| - 1];
      var c := chunks[|chunks| - 1];
      ReceiveAllConserves(older);
      ReceiveConserves(ReceiveAll(older), c);
    }
  }

  lemma ReceiveConserves(p: Parsed, c: seq<byte>)
    ensures var q := Receive(p, c);
            Bytes(q.events) + q.rest == Bytes(p.events) + p.rest + c
            && |q.rest| < MAX_BUF
  {
    ParseConserves(p.rest + c);
    ParseLeavesRoom(p.rest + c);
    var r := Parse(p.rest + c);
    BytesAppend(p.events, r.events);
    Assoc(Bytes(p.events), Bytes(r.events), r.rest);
    Assoc(Bytes(p.events), p.rest, c);
  }

  lemma Assoc<T>(a: seq<T>, b: seq<T>, c: seq<T>)
    ensures a + b + c == a + (b + c)
  {
  }

  // ---------------------------------------------------------------------------------------
  // Chunk independence
  // ---------------------------------------------------------------------------------------

  /** The parse met an oversize header: it then ended there, with the flush as its last event. */
  predicate Overran(p: Parsed) {
    p.events != [] && p.events[|p.events| - 1].Flushed?
  }

  /** A flush is never followed by anything and leaves nothing. */
  lemma {:induction false} FlushIsLast(b: seq<byte>)
    ensures forall i :: 0 <= i < |Parse(b).events| - 1 ==> !Parse(b).events[i].Flushed?
    ensures Overran(Parse(b)) ==> Parse(b).rest == []
    decreases |b|
  {
    match Inspect(b)
    case NeedMore =>
    case Oversize =>
    case Resync => FlushIsLast(b[1..]);
    case Whole(f) => FlushIsLast(b[MSG_HEADER + |f.payload| + 1..]);
  }

  /** A decision other than `NeedMore` is not changed by bytes that arrive later. */
  lemma InspectStable(a: seq<byte>, b: seq<byte>)
    requires !Inspect(a).NeedMore?
    ensures Inspect(a + b) == Inspect(a)
  {
    assert SizeField(a + b) == SizeField(a);
    if Inspect(a).Whole? {
      assert FrameAt(a + b) == FrameAt(a);
    }
  }

  /** What the parse of a longer buffer is, in terms of the parse of its front. */
  function Extended(p: Parsed, b: seq<byte>): (q: Parsed) {
    if Overran(p) then
      var k := |p.events| - 1;
      Parsed(p.events[..k] + [Flushed(p.events[k].bytes + b)], [])
    else
      Receive(p, b)
  }

  lemma {:induction false} ParseExtends(a: seq<byte>, b: seq<byte>)
    ensures Parse(a + b) == Extended(Parse(a), b)
    decreases |a|
  {
    match Inspect(a)
    case NeedMore =>
    case Oversize =>
      InspectStable(a, b);
    case Resync =>
      InspectStable(a, b);
      assert (a + b)[1..] == a[1..] + b;
      ParseExtends(a[1..], b);
      ExtendedCons(Skipped(a[0]), Parse(a[1..]), b);
    case Whole(f) =>
      InspectStable(a, b);
      var n := MSG_HEADER + |f.payload| + 1;
      assert (a + b)[n..] == a[n..] + b;
      ParseExtends(a[n..], b);
      ExtendedCons(Delivered(f), Parse(a[n..]), b);
  }

  lemma ExtendedCons(e: Event, p: Parsed, b: seq<byte>)
    requires !e.Flushed?
    ensures Extended(Parsed([e] + p.events, p.rest), b)
         == Parsed([e] + Extended(p, b).events, Extended(p, b).rest)
  {
    var q := Parsed([e] + p.events, p.rest);
    if Overran(p) {
      var k := |p.events| - 1;
      assert q.events[..k + 1] == [e] + p.events[..k];
      Assoc([e], p.events[..k], [Flushed(p.events[k].bytes + b)]);
    } else {
      Assoc([e], p.events, Parse(p.rest + b).events);
    }
  }

  /** The whole stream meets no oversize header before its last byte has arrived. */
  predicate NoEarlyFlush(s: seq<byte>) {
    s == [] || !Overran(Parse(s[..|s| - 1]))
  }

  lemma NoFlushInPrefix(a: seq<byte>, b: seq<byte>)
    requires !Overran(Parse(a + b))
    ensures !Overran(Parse(a))
  {
    ParseExtends(a, b);
  }

  lemma {:induction false} NoEarlyFlushPrefix(a: seq<byte>, c: seq<byte>)
    requires c != [] && NoEarlyFlush(a + c)
    ensures !Overran(Parse(a)) && NoEarlyFlush(a)
  {
    assert (a + c)[..|a + c| - 1] == a + c[..|c| - 1];
    NoFlushInPrefix(a, c[..|c| - 1]);
    if a != [] {
      assert a == a[..|a| - 1] + a[|a| - 1..];
      NoFlushInPrefix(a[..|a| - 1], a[|a| - 1..]);
    }
  }

  lemma {:induction false} ChunksAgree(chunks: seq<seq<byte>>)
    requires NoEarlyFlush(Concat(chunks))
    ensures ReceiveAll(chunks) == Parse(Concat(chunks))
  {
    if chunks != [] {
      var older := chunks[..|chunks| - 1];
      var c := chunks[|chunks| - 1];
      if c == [] {
        assert Concat(older) + c == Concat(older);
        ChunksAgree(older);
        EmptyRead(Concat(older));
      } else {
        NoEarlyFlushPrefix(Concat(older), c);
        ChunksAgree(older);
        ParseExtends(Concat(older), c);
      }
    }
  }

  lemma EmptyRead(b: seq<byte>)
    ensures Receive(Parse(b), []) == Parse(b)
  {
    var p := Parse(b);
    ParseLeavesRoom(b);
    assert p.rest + [] == p.rest;
    assert p.events + [] == p.events;
  }

  /** Reads a client can make: each is capped by the room its buffer has left. */
  predicate Fits(chunks: seq<seq<byte>>)
    decreases |chunks|
  {
    chunks == [] ||
    (Fits(chunks[..|chunks| - 1])
     && |ReceiveAll(chunks[..|chunks| - 1]).rest| + |chunks[|chunks| - 1]| <= MAX_BUF)
  }

  /** Chunk independence, exactly: every way of cutting the stream into reads that fit gives the
      events and the residue of the whole stream, if and only if the whole stream meets no oversize
      header before its last byte. */
  lemma {:induction false} ChunkIndependence(s: seq<byte>)
    ensures (forall chunks :: Fits(chunks) && Concat(chunks) == s ==> ReceiveAll(chunks) == Parse(s))
            <==> NoEarlyFlush(s)
  {
    if NoEarlyFlush(s) {
      forall chunks | Concat(chunks) == s ensures ReceiveAll(chunks) == Parse(s) {
        ChunksAgree(chunks);
      }
    } else {
      SinglesFit(s);
      FlushedSooner(s);
    }
  }

  /** The stream read byte by byte. */
  function Singles(s: seq<byte>): (chunks: seq<seq<byte>>) {
    if s == [] then [] else Singles(s[..|s| - 1]) + [s[|s| - 1..]]
  }

  lemma {:induction false} SinglesFit(s: seq<byte>)
    ensures Concat(Singles(s)) == s && Fits(Singles(s))
  {
    if s != [] {
      var older := s[..|s| - 1];
      assert older + s[|s| - 1..] == s;
      SinglesFit(older);
      Snoc(Singles(older), s[|s| - 1..]);
      ReceiveAllConserves(Singles(older));
    }
  }

  /** Where the whole-stream parse flushes, the byte-by-byte reads flush too, but fewer bytes. */
  lemma {:induction false} FlushedSooner(s: seq<byte>)
    requires !NoEarlyFlush(s)
    ensures var p, q := Parse(s), ReceiveAll(Singles(s));
            var i := |p.events| - 1;
            && Overran(p) && |q.events| > i && q.events[i].Flushed?
            && |q.events[i].bytes| < |p.events[i].bytes|
  {
    var a, b := s[..|s| - 1], s[|s| - 1..];
    assert a + b == s;
    ParseExtends(a, b);
    Snoc(Singles(a), b);
    if NoEarlyFlush(a) {
      SinglesFit(a);
      ChunksAgree(Singles(a));
    } else {
      FlushedSooner(a);
    }
  }

  /** What a user sees, for a stream no longer than the buffer: every way of cutting it gives the
      same frames and the same residue, under the same condition. */
  lemma {:induction false} ShortStreams(s: seq<byte>)
    requires |s| <= MAX_BUF
    ensures (forall chunks :: Fits(chunks) && Concat(chunks) == s ==>
               Frames(ReceiveAll(chunks).events) == Frames(Parse(s).events) && ReceiveAll(chunks).rest == Parse(s).rest)
            <==> NoEarlyFlush(s)
  {
    if NoEarlyFlush(s) {
      ChunkIndependence(s);
    } else {
      LateByteSurvives(s);
    }
  }

  /** The witness: all but the last byte in one read, then the last byte. The flush happens in the
      first read, so the last byte stays in the buffer, where the whole-stream parse leaves nothing. */
  lemma {:induction false} LateByteSurvives(s: seq<byte>)
    requires !NoEarlyFlush(s)
    ensures var chunks := [s[..|s| - 1], s[|s| - 1..]];
            && Concat(chunks) == s && (Fits(chunks) <==> |s| - 1 <= MAX_BUF)
            && ReceiveAll(chunks).rest == s[|s| - 1..] != [] && Parse(s).rest == []
  {
    var a, b := s[..|s| - 1], s[|s| - 1..];
    assert a + b == s;
    ParseExtends(a, b);
    FlushIsLast(a);
    TwoChunks(a, b);
    assert [] + b == b;
  }

  /** A stream of the failing kind: an oversize header and one byte more. */
  lemma HeaderAndByte(t: u16, ip: u32, x: byte)
    ensures var h := Header(t, ip, MAX_PAYLOAD + 1);
            && !NoEarlyFlush(h + [x]) && Fits([h, [x]])
            && Parse(h + [x]) == Parsed([Flushed(h + [x])], [])
            && ReceiveAll([h, [x]]) == Parsed([Flushed(h)], [x])
  {
    var h := Header(t, ip, MAX_PAYLOAD + 1);
    HeaderFields(t, ip, MAX_PAYLOAD + 1, [x]);
    HeaderFields(t, ip, MAX_PAYLOAD + 1, []);
    assert h + [] == h;
    assert (h + [x])[..|h + [x]| - 1] == h;
    TwoChunks(h, [x]);
    assert [] + [x] == [x];
    assert [Flushed(h)] + [] == [Flushed(h)];
  }

  lemma {:induction false} TwoChunks(a: seq<byte>, b: seq<byte>)
    ensures Concat([a, b]) == a + b
    ensures ReceiveAll([a, b]) == Receive(Parse(a), b)
    ensures Fits([a, b]) <==> |a| <= MAX_BUF && |Parse(a).rest| + |b| <= MAX_BUF
  {
    var none: seq<seq<byte>> := [];
    Snoc(none, a);
    Snoc([a], b);
    assert none + [a] == [a] && [a] + [b] == [a, b];
    assert [] + a == a;
  }

  lemma Snoc(cs: seq<seq<byte>>, c: seq<byte>)
    ensures Concat(cs + [c]) == Concat(cs) + c
    ensures ReceiveAll(cs + [c]) == Receive(ReceiveAll(cs), c)
    ensures Fits(cs + [c]) <==> Fits(cs) && |ReceiveAll(cs).rest| + |c| <= MAX_BUF
  {
    assert (cs + [c])[..|cs|] == cs;
  }

  // ---------------------------------------------------------------------------------------
  // Completeness: whatever the server's encoders produced is found again.
  // ---------------------------------------------------------------------------------------

  function AllDelivered(fs: seq<Frame>): (es: seq<Event>) {
    if fs == [] then [] else [Delivered(fs[0])] + AllDelivered(fs[1..])
  }

  function AllSkipped(g: seq<byte>): (es: seq<Event>) {
    if g == [] then [] else [Skipped(g[0])] + AllSkipped(g[1..])
  }

  /** Any list of frames, with any bytes inside the payloads, is parsed back to exactly those
      frames, in order, and what follows them is parsed as if they had not been there. */
  lemma {:induction false} FramesParseBack(fs: seq<Frame>, post: seq<byte>)
    requires forall f <- fs :: |f.payload| <= MAX_PAYLOAD
    ensures Parse(EncodeAll(fs) + post) == Parsed(AllDelivered(fs) + Parse(post).events, Parse(post).rest)
  {
    if fs == [] {
      assert [] + post == post;
    } else {
      var f, rest := fs[0], EncodeAll(fs[1..]) + post;
      Assoc(Encode(f), EncodeAll(fs[1..]), post);
      EncodeLayout(f, rest);
      FramesParseBack(fs[1..], post);
      Assoc([Delivered(f)], AllDelivered(fs[1..]), Parse(post).events);
    }
  }

  /** '$'-free garbage in front of at least one frame is skipped byte by byte. */
  lemma {:induction false} GarbageIsSkipped(g: seq<byte>, b: seq<byte>)
    requires DOLLAR !in g && |b| >= MSG_HEADER
    ensures Parse(g + b) == Parsed(AllSkipped(g) + Parse(b).events, Parse(b).rest)
  {
    if g == [] {
      assert [] + b == b;
    } else {
      assert (g + b)[1..] == g[1..] + b;
      GarbageIsSkipped(g[1..], b);
      Assoc([Skipped(g[0])], AllSkipped(g[1..]), Parse(b).events);
    }
  }

  lemma {:induction false} FramesOfDelivered(fs: seq<Frame>)
    ensures Frames(AllDelivered(fs)) == fs
  {
    if fs != [] {
      FramesOfDelivered(fs[1..]);
      assert AllDelivered(fs)[1..] == AllDelivered(fs[1..]);
    }
  }

  lemma {:induction false} FramesOfSkipped(g: seq<byte>)
    ensures Frames(AllSkipped(g)) == []
  {
    if g != [] {
      FramesOfSkipped(g[1..]);
      assert AllSkipped(g)[1..] == AllSkipped(g[1..]);
    }
  }

  /** The round trip: garbage, then frames, cut into reads in any way, yields exactly the frames and
      an empty buffer. */
  lemma EncodeParseRoundTrip(g: seq<byte>, fs: seq<Frame>, chunks: seq<seq<byte>>)
    requires DOLLAR !in g && fs != [] && forall f <- fs :: |f.payload| <= MAX_PAYLOAD
    requires Concat(chunks) == g + EncodeAll(fs)
    ensures Frames(ReceiveAll(chunks).events) == fs && ReceiveAll(chunks).rest == []
  {
    WholeRoundTrip(g, fs);
    FramesOfSkipped(g);
    FramesOfDelivered(fs);
    FramesAppend(AllSkipped(g), AllDelivered(fs));
    DeliveredLast(fs);
    NotOverrunWhole(g + EncodeAll(fs));
    ChunksAgree(chunks);
  }

  lemma {:induction false} WholeRoundTrip(g: seq<byte>, fs: seq<Frame>)
    requires DOLLAR !in g && fs != [] && forall f <- fs :: |f.payload| <= MAX_PAYLOAD
    ensures Parse(g + EncodeAll(fs)) == Parsed(AllSkipped(g) + AllDelivered(fs), [])
  {
    var s := EncodeAll(fs);
    assert s + [] == s;
    FramesParseBack(fs, []);
    assert AllDelivered(fs) + [] == AllDelivered(fs);
    GarbageIsSkipped(g, s);
  }

  lemma {:induction false} NotOverrunWhole(s: seq<byte>)
    requires !Overran(Parse(s))
    ensures NoEarlyFlush(s)
  {
    if s != [] {
      assert s == s[..|s| - 1] + s[|s| - 1..];
      NoFlushInPrefix(s[..|s| - 1], s[|s| - 1..]);
    }
  }

  lemma {:induction false} DeliveredLast(fs: seq<Frame>)
    requires fs != []
    ensures AllDelivered(fs) != [] && AllDelivered(fs)[|AllDelivered(fs)| - 1].Delivered?
  {
    if |fs| > 1 {
      DeliveredLast(fs[1..]);
    }
  }

  /** The same without garbage, for any number of frames. */
  lemma FramesRoundTrip(fs: seq<Frame>, chunks: seq<seq<byte>>)
    requires forall f <- fs :: |f.payload| <= MAX_PAYLOAD
    requires Concat(chunks) == EncodeAll(fs)
    ensures Frames(ReceiveAll(chunks).events) == fs && ReceiveAll(chunks).rest == []
  {
    if fs == [] {
      ChunksAgree(chunks);
    } else {
      assert [] + EncodeAll(fs) == EncodeAll(fs);
      EncodeParseRoundTrip([], fs, chunks);
    }
  }

  // ---------------------------------------------------------------------------------------
  // Streams that are cut off, and streams with an oversize header inside, in any reads
  // ---------------------------------------------------------------------------------------

  /** Reading a part of a stream of frames finds the first of them. */
  lemma {:induction false} PrefixParsed(fs: seq<Frame>, chunks: seq<seq<byte>>)
    requires forall f <- fs :: |f.payload| <= MAX_PAYLOAD
    requires Concat(chunks) <= EncodeAll(fs)
    ensures Frames(ReceiveAll(chunks).events) <= fs
  {
    var s, p := EncodeAll(fs), Concat(chunks);
    var later := s[|p|..];
    assert p + later == s && s + [] == s;
    FramesParseBack(fs, []);
    assert AllDelivered(fs) + [] == AllDelivered(fs);
    NothingFlushed(fs);
    NoFlushInPrefix(p, later);
    NotOverrunWhole(p);
    ChunksAgree(chunks);
    ParseExtends(p, later);
    FramesAppend(Parse(p).events, Parse(Parse(p).rest + later).events);
    FramesOfDelivered(fs);
  }

  lemma {:induction false} NothingFlushed(fs: seq<Frame>)
    ensures !Overran(Parsed(AllDelivered(fs), []))
  {
    if fs != [] {
      DeliveredLast(fs);
    }
  }

  /** Frames, an oversize header, anything: no reads get past the header before they flush. */
  lemma {:induction false} StillFrames(fs: seq<Frame>, h: seq<byte>, p: seq<byte>)
    requires forall f <- fs :: |f.payload| <= MAX_PAYLOAD
    requires |h| == MSG_HEADER && p <= EncodeAll(fs) + h && |p| < |EncodeAll(fs) + h|
    ensures !Overran(Parse(p)) && NoEarlyFlush(p)
  {
    var s, g := EncodeAll(fs), h[..MSG_HEADER - 1];
    var later := (s + g)[|p|..];
    assert p + later == s + g;
    FramesParseBack(fs, g);
    assert AllDelivered(fs) + [] == AllDelivered(fs);
    NothingFlushed(fs);
    NoFlushInPrefix(p, later);
    NotOverrunWhole(p);
  }

  /** The events once the header has arrived: the frames, then a flush that begins with it. */
  ghost predicate FlushedBehind(es: seq<Event>, fs: seq<Frame>, h: seq<byte>) {
    && |es| > |fs| && es[..|fs|] == AllDelivered(fs) && es[|fs|].Flushed? && h <= es[|fs|].bytes
  }

  lemma {:induction false} AllDeliveredSize(fs: seq<Frame>)
    ensures |AllDelivered(fs)| == |fs|
  {
    if fs != [] {
      AllDeliveredSize(fs[1..]);
    }
  }

  lemma {:induction false} FlushParsed(fs: seq<Frame>, h: seq<byte>, x: seq<byte>)
    requires forall f <- fs :: |f.payload| <= MAX_PAYLOAD
    requires |h| == MSG_HEADER && Inspect(h).Oversize?
    ensures FlushedBehind(Parse(EncodeAll(fs) + h + x).events, fs, h)
  {
    Assoc(EncodeAll(fs), h, x);
    FramesParseBack(fs, h + x);
    InspectStable(h, x);
    AllDeliveredSize(fs);
  }

  /** For any reads, short or long: the frames in front of an oversize header come out, and then the
      buffer is flushed from that header on. */
  lemma {:induction false} FlushComes(fs: seq<Frame>, h: seq<byte>, x: seq<byte>, chunks: seq<seq<byte>>)
    requires forall f <- fs :: |f.payload| <= MAX_PAYLOAD
    requires |h| == MSG_HEADER && Inspect(h).Oversize?
    requires Concat(chunks) == EncodeAll(fs) + h + x
    ensures FlushedBehind(ReceiveAll(chunks).events, fs, h)
    decreases |chunks|
  {
    var s := EncodeAll(fs) + h;
    var older, c := chunks[..|chunks| - 1], chunks[|chunks| - 1];
    var o := Concat(older);
    if |o| >= |s| {
      assert o == s + o[|s|..] by {
        assert o == (s + x)[..|o|];
      }
      FlushComes(fs, h, o[|s|..], older);
    } else {
      assert o <= s by {
        assert o == (s + x)[..|o|];
      }
      StillFrames(fs, h, o);
      ChunksAgree(older);
      ParseExtends(o, c);
      FlushParsed(fs, h, x);
    }
  }

  /** Frames account for no more bytes than were received, and for all of them only if nothing was
      skipped. */
  lemma {:induction false} FrameBytes(es: seq<Event>)
    ensures |EncodeAll(Frames(es))| <= |Bytes(es)|
    ensures |EncodeAll(Frames(es))| == |Bytes(es)| ==> EncodeAll(Frames(es)) == Bytes(es)
  {
    if es != [] {
      FrameBytes(es[1..]);
      var later := Frames(es[1..]);
      if es[0].Delivered? {
        assert ([es[0].frame] + later)[1..] == later;
      } else {
        assert [] + later == later;
      }
    }
  }
}
