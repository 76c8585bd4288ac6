/** From the bytes on one member's socket to the frames another member's client takes out of its
    buffer, over whole runs of a room. */
module EndToEnd {
  import opened Wire
  import opened NetMsg
  import opened Pool
  import opened Room
  import opened Membership
  import opened NetIo
  import opened FrameReader
  import opened FrameWriter
  import opened Relay
  import opened Delivery
  import Roster
  import Framing

  // ---------------------------------------------------------------------------------------
  // The bytes on a member's socket
  // ---------------------------------------------------------------------------------------

  /** The bytes of a list of messages, as senders write them. */
  function BytesOf(ms: seq<NetMsg>): (b: seq<byte>) {
    if ms == [] then [] else SenderBytes(ms[0]) + BytesOf(ms[1..])
  }

  function FramesOf(ms: seq<NetMsg>): (fs: seq<Frame>)
    ensures |fs| == |ms|
    ensures forall k :: 0 <= k < |ms| ==> fs[k] == FrameOf(ms[k])
  {
    if ms == [] then [] else [FrameOf(ms[0])] + FramesOf(ms[1..])
  }

  predicate Fitting(ms: seq<NetMsg>) {
    forall k :: 0 <= k < |ms| ==> Framed(ms[k]) && |FrameOf(ms[k]).payload| <= MAX_PAYLOAD
  }

  /** No header lied about the length of what it announced. */
  predicate Honest(ms: seq<NetMsg>) {
    forall k :: 0 <= k < |ms| ==> ms[k].len >= 0
  }

  lemma {:induction false} BytesAreFrames(ms: seq<NetMsg>)
    requires Fitting(ms) && Honest(ms)
    ensures BytesOf(ms) == EncodeAll(FramesOf(ms))
  {
    if ms != [] {
      FramedExact(ms[0]);
      BytesAreFrames(ms[1..]);
    }
  }

  lemma {:induction false} SizeOfBytes(ms: seq<NetMsg>)
    requires Fitting(ms)
    ensures |BytesOf(ms)| == |EncodeAll(FramesOf(ms))|
  {
    if ms != [] {
      SizeOfBytes(ms[1..]);
    }
  }

  lemma {:induction false} BytesTell(ms: seq<NetMsg>)
    requires Fitting(ms) && BytesOf(ms) == EncodeAll(FramesOf(ms))
    ensures Honest(ms)
  {
    if ms != [] {
      var a, b := SenderBytes(ms[0]), Encode(FrameOf(ms[0]));
      assert (a + BytesOf(ms[1..]))[..|a|] == a && (b + EncodeAll(FramesOf(ms)[1..]))[..|b|] == b;
      assert (a + BytesOf(ms[1..]))[|a|..] == BytesOf(ms[1..]);
      assert (b + EncodeAll(FramesOf(ms)[1..]))[|b|..] == EncodeAll(FramesOf(ms)[1..]);
      FramedExact(ms[0]);
      BytesTell(ms[1..]);
    }
  }

  /** However the bytes are read, a client takes exactly the messages' frames out of them if and only if
      no message has a negative length. */
  lemma {:induction false} ParsedExactly(ms: seq<NetMsg>, chunks: seq<seq<byte>>)
    requires Fitting(ms) && Framing.Concat(chunks) == BytesOf(ms)
    ensures Framing.Frames(Framing.ReceiveAll(chunks).events) == FramesOf(ms) <==> Honest(ms)
  {
    if Honest(ms) {
      BytesAreFrames(ms);
      Framing.FramesRoundTrip(FramesOf(ms), chunks);
    }
    var p := Framing.ReceiveAll(chunks);
    if Framing.Frames(p.events) == FramesOf(ms) {
      Framing.ReceiveAllConserves(chunks);
      Framing.FrameBytes(p.events);
      SizeOfBytes(ms);
      assert p.rest == [];
      assert Framing.Bytes(p.events) + [] == Framing.Bytes(p.events);
      BytesTell(ms);
    }
  }

  lemma {:induction false} BytesAppend(ms: seq<NetMsg>, ns: seq<NetMsg>)
    ensures BytesOf(ms + ns) == BytesOf(ms) + BytesOf(ns)
  {
    if ms == [] {
      assert ms + ns == ns;
    } else {
      assert (ms + ns)[1..] == ms[1..] + ns;
      BytesAppend(ms[1..], ns);
      Framing.Assoc(SenderBytes(ms[0]), BytesOf(ms[1..]), BytesOf(ns));
    }
  }

  lemma {:induction false} BytesSplit(ms: seq<NetMsg>, k: nat)
    requires k < |ms|
    ensures BytesOf(ms) == BytesOf(ms[..k]) + (SenderBytes(ms[k]) + BytesOf(ms[k + 1..]))
  {
    assert ms == ms[..k] + ms[k..] && ms[k..][1..] == ms[k + 1..];
    BytesAppend(ms[..k], ms[k..]);
  }

  /** The header a message with a negative length is written with. */
  function LyingHeader(m: NetMsg): (h: seq<byte>)
    ensures |h| == MSG_HEADER
  {
    Header(m.msgType, m.ip, AsU32(m.len))
  }

  lemma {:induction false} LyingHeaderIsOversize(m: NetMsg)
    requires Negative(m)
    ensures SenderBytes(m) == LyingHeader(m) + [HASH] && Framing.Inspect(LyingHeader(m)).Oversize?
  {
    HeaderFields(m.msgType, m.ip, AsU32(m.len), []);
    assert LyingHeader(m) + [] == LyingHeader(m);
  }

  /** However the bytes and what follows them are read: the frames in front of the first message with a
      negative length come out, and then the buffer is flushed from that message on. What that takes
      along depends on the reads. */
  lemma {:induction false} LostFrom(ms: seq<NetMsg>, k: nat, post: seq<byte>, chunks: seq<seq<byte>>)
    requires Fitting(ms) && k < |ms| && Honest(ms[..k]) && ms[k].len < 0
    requires Framing.Concat(chunks) == BytesOf(ms) + post
    ensures Framing.FlushedBehind(Framing.ReceiveAll(chunks).events, FramesOf(ms[..k]), LyingHeader(ms[k]))
  {
    var fs, h := FramesOf(ms[..k]), LyingHeader(ms[k]);
    BytesSplit(ms, k);
    BytesAreFrames(ms[..k]);
    LyingHeaderIsOversize(ms[k]);
    var later := BytesOf(ms[k + 1..]);
    Regroup(EncodeAll(fs), h, [HASH], later, post);
    Framing.FlushComes(fs, h, [HASH] + later + post, chunks);
  }

  lemma Regroup(a: seq<byte>, b: seq<byte>, c: seq<byte>, d: seq<byte>, e: seq<byte>)
    ensures a + ((b + c) + d) + e == a + b + (c + d + e)
  {
  }

  /** What depends on the reads: a frame right behind such a message comes out if it is read by itself,
      and not if it is read together with it. */
  lemma {:induction false} CutDecides(m: NetMsg, g: NetMsg)
    requires Negative(m) && Framed(g) && g.len >= 0 && |FrameOf(g).payload| <= MAX_PAYLOAD
    ensures Framing.Fits([SenderBytes(m), SenderBytes(g)])
    ensures Framing.Frames(Framing.ReceiveAll([SenderBytes(m), SenderBytes(g)]).events) == [FrameOf(g)]
    ensures Framing.Frames(Framing.ReceiveAll([SenderBytes(m) + SenderBytes(g)]).events) == []
  {
    ReadApart(m, g);
    OneFlush(m, SenderBytes(g));
    OneChunk(SenderBytes(m) + SenderBytes(g));
    assert Framing.Frames([Framing.Flushed(SenderBytes(m) + SenderBytes(g))]) == [];
  }

  lemma {:induction false} ReadApart(m: NetMsg, g: NetMsg)
    requires Negative(m) && Framed(g) && g.len >= 0 && |FrameOf(g).payload| <= MAX_PAYLOAD
    ensures Framing.Fits([SenderBytes(m), SenderBytes(g)])
    ensures Framing.Frames(Framing.ReceiveAll([SenderBytes(m), SenderBytes(g)]).events) == [FrameOf(g)]
  {
    var a, b := SenderBytes(m), SenderBytes(g);
    NegativeIsOversize(m, []);
    OneFlush(m, []);
    assert a + [] == a && [] + b == b;
    Framing.TwoChunks(a, b);
    GoodAlone(g);
    Framing.FramesAppend([Framing.Flushed(a)], [Framing.Delivered(FrameOf(g))]);
    assert Framing.Frames([Framing.Flushed(a)]) == [];
    assert Framing.Frames([Framing.Delivered(FrameOf(g))]) == [FrameOf(g)];
  }

  lemma {:induction false} OneFlush(m: NetMsg, later: seq<byte>)
    requires Negative(m)
    ensures Framing.Parse(SenderBytes(m) + later) == Framing.Parsed([Framing.Flushed(SenderBytes(m) + later)], [])
  {
    NegativeIsOversize(m, later);
  }

  lemma {:induction false} GoodAlone(g: NetMsg)
    requires Framed(g) && g.len >= 0 && |FrameOf(g).payload| <= MAX_PAYLOAD
    ensures Framing.Parse(SenderBytes(g)) == Framing.Parsed([Framing.Delivered(FrameOf(g))], [])
    ensures |SenderBytes(g)| <= MAX_BUF
  {
    FramedExact(g);
    EncodeLayout(FrameOf(g), []);
    assert Encode(FrameOf(g)) + [] == Encode(FrameOf(g));
    assert [Framing.Delivered(FrameOf(g))] + [] == [Framing.Delivered(FrameOf(g))];
  }

  lemma {:induction false} OneChunk(b: seq<byte>)
    ensures Framing.ReceiveAll([b]) == Framing.Parse(b)
  {
    var none: seq<seq<byte>> := [];
    Framing.Snoc(none, b);
    assert none + [b] == [b] && [] + b == b;
  }

  /** What a member's client makes of what a room's senders wrote to it in a run, as far as it has
      arrived, in any chunks: the frames of the messages written, in the order of the writes; all of them
      once all the bytes have arrived. */
  lemma {:induction false} OutputIsParsed(roomId: u32, ls: seq<Label>, a: Fd, chunks: seq<seq<byte>>)
    requires Legal(Start(roomId), ls)
    requires var out := Output([], Start(roomId), ls, a);
             && (forall k :: 0 <= k < |out| ==> |FrameOf(out[k]).payload| <= MAX_PAYLOAD) && Honest(out)
             && Framing.Concat(chunks) <= BytesOf(out)
    ensures var out := Output([], Start(roomId), ls, a);
            var p := Framing.ReceiveAll(chunks);
            && Framing.Frames(p.events) <= FramesOf(out)
            && (Framing.Concat(chunks) == BytesOf(out) ==> Framing.Frames(p.events) == FramesOf(out) && p.rest == [])
  {
    var out := Output([], Start(roomId), ls, a);
    OutputCounted(roomId, ls, a, 0);
    BytesAreFrames(out);
    Framing.PrefixParsed(FramesOf(out), chunks);
    if Framing.Concat(chunks) == BytesOf(out) {
      Framing.FramesRoundTrip(FramesOf(out), chunks);
    }
  }

  // ---------------------------------------------------------------------------------------
  // A run that reads one socket's stream
  // ---------------------------------------------------------------------------------------

  // What is left of the stream on a socket, and what was read last.
  datatype Reader = Reader(tape: Tape, last: Served)

  /** The step reads a frame, or the beginning of one, from `fd`. */
  predicate ReadsFrom(s: Room, l: Label, fd: Fd)
    requires Enabled(s, l)
  {
    && l.RoomThread? && (l.r.ReadShort? || l.r.ReadBad? || l.r.ReadCamera? || l.r.ReadHeader?)
    && s.room.pass.todo[0] == fd && fd !in s.net.closed
  }

  /** The room thread does with `fd` what the stream on it makes it do. */
  predicate Obeys(rd: Reader, s: Room, l: Label, fd: Fd, stale: byte)
    requires Enabled(s, l)
  {
    && (ReadsFrom(s, l, fd) ==> l == StepsFor(ReadFrame(rd.tape, stale).0)[0])
    && (l == RoomThread(PayloadGood) && s.room.fd == fd ==> rd.last.Media?)
    && (l == RoomThread(PayloadBad) && s.room.fd == fd ==> rd.last.BadMedia?)
  }

  function Advance(rd: Reader, s: Room, l: Label, fd: Fd, stale: byte): (next: Reader)
    requires Enabled(s, l)
  {
    if ReadsFrom(s, l, fd) then Reader(ReadFrame(rd.tape, stale).1, ReadFrame(rd.tape, stale).0) else rd
  }

  predicate Follows(rd: Reader, s: Room, ls: seq<Label>, fd: Fd, stale: byte)
    requires Legal(s, ls)
    decreases |ls|
  {
    ls == [] ||
    (Obeys(rd, s, ls[0], fd, stale) && Follows(Advance(rd, s, ls[0], fd, stale), Step(s, ls[0]), ls[1..], fd, stale))
  }

  /** The message a step makes of a media header read from `fd`. */
  function Taken(s: Room, l: Label, fd: Fd): (ms: seq<NetMsg>)
    requires Enabled(s, l)
  {
    if ReadsFrom(s, l, fd) && l.r.ReadHeader? then [RoomNext(s, l.r).room.msg] else []
  }

  function TakenFrom(got: seq<NetMsg>, s: Room, ls: seq<Label>, fd: Fd): (more: seq<NetMsg>)
    requires Legal(s, ls)
    decreases |ls|
  {
    if ls == [] then got else TakenFrom(got + Taken(s, ls[0], fd), Step(s, ls[0]), ls[1..], fd)
  }

  /** The message the server makes of a frame that it reads from `fd`. */
  predicate MadeOf(m: NetMsg, f: Frame, fd: Fd) {
    && IsMediaSend(f.msgType) && m.msgType == f.msgType + 1 && m.targetfd == fd
    && m.len == |f.payload| && m.data.Some? && m.data.value.bytes == f.payload
  }

  /** The messages so far are those of the first frames, in order; the rest of the stream is the rest of
      the frames. */
  ghost predicate ReadSoFar(rd: Reader, got: seq<NetMsg>, fs: seq<Frame>, fd: Fd) {
    && |got| <= |fs|
    && rd.tape.bytes == EncodeAll(fs[|got|..])
    && forall i :: 0 <= i < |got| ==> MadeOf(got[i], fs[i], fd)
  }

  lemma {:induction false} ReadSoFarStep(rd: Reader, s: Room, l: Label, got: seq<NetMsg>, fs: seq<Frame>, fd: Fd,
                                         stale: byte)
    requires MediaFrames(fs) && ReadSoFar(rd, got, fs, fd) && Enabled(s, l) && Obeys(rd, s, l, fd, stale)
    ensures ReadSoFar(Advance(rd, s, l, fd, stale), got + Taken(s, l, fd), fs, fd)
  {
    if ReadsFrom(s, l, fd) {
      var o := ReadFrame(rd.tape, stale);
      if |got| < |fs| {
        NextOnTape(rd.tape, fs, |got|, stale);
        OneMoreTaken(s, l, got, fs, fd, o);
      }
    } else {
      assert got + [] == got;
    }
  }

  lemma {:induction false} NextOnTape(t: Tape, fs: seq<Frame>, k: nat, stale: byte)
    requires MediaFrames(fs) && k < |fs| && t.bytes == EncodeAll(fs[k..])
    ensures ReadFrame(t, stale)
         == (Media(fs[k].msgType + 1, |fs[k].payload|, fs[k].payload), Tape(EncodeAll(fs[k + 1..]), t.broken))
  {
    assert fs[k..][1..] == fs[k + 1..];
    MediaIsRead(fs[k], EncodeAll(fs[k + 1..]), t.broken, stale);
  }

  lemma {:induction false} OneMoreTaken(s: Room, l: Label, got: seq<NetMsg>, fs: seq<Frame>, fd: Fd, o: (Served, Tape))
    requires Enabled(s, l) && ReadsFrom(s, l, fd) && l == StepsFor(o.0)[0] && |got| < |fs| && MediaFrames(fs)
    requires var f := fs[|got|];
             o.0 == Media(f.msgType + 1, |f.payload|, f.payload) && o.1.bytes == EncodeAll(fs[|got| + 1..])
    requires forall i :: 0 <= i < |got| ==> MadeOf(got[i], fs[i], fd)
    ensures ReadSoFar(Reader(o.1, o.0), got + Taken(s, l, fd), fs, fd)
  {
    var m := TakenMedia(s, l, fs[|got|], fd);
  }

  lemma {:induction false} TakenMedia(s: Room, l: Label, f: Frame, fd: Fd) returns (m: NetMsg)
    requires Enabled(s, l) && ReadsFrom(s, l, fd) && IsMediaSend(f.msgType)
    requires l == StepsFor(Media(f.msgType + 1, |f.payload|, f.payload))[0]
    ensures Taken(s, l, fd) == [m] && MadeOf(m, f, fd)
  {
    m := RoomNext(s, l.r).room.msg;
  }

  lemma {:induction false} ReadSoFarRun(rd: Reader, s: Room, ls: seq<Label>, got: seq<NetMsg>, fs: seq<Frame>, fd: Fd,
                                        stale: byte)
    requires MediaFrames(fs) && ReadSoFar(rd, got, fs, fd) && Legal(s, ls) && Follows(rd, s, ls, fd, stale)
    ensures var all := TakenFrom(got, s, ls, fd);
            |all| <= |fs| && forall i :: 0 <= i < |all| ==> MadeOf(all[i], fs[i], fd)
    decreases |ls|
  {
    if ls != [] {
      ReadSoFarStep(rd, s, ls[0], got, fs, fd, stale);
      ReadSoFarRun(Advance(rd, s, ls[0], fd, stale), Step(s, ls[0]), ls[1..], got + Taken(s, ls[0], fd), fs, fd, stale);
    }
  }

  /** Each message taken from `fd` carries the address recorded for it and is the one made with its
      payload; payload ids grow. */
  ghost predicate TakenKnown(s: Room, h: seq<NetMsg>, got: seq<NetMsg>, fd: Fd) {
    && (forall i :: 0 <= i < |got| ==> Known(got[i], h) && fd in s.net.peer && got[i].ip == s.net.peer[fd])
    && (forall i, j :: 0 <= i < j < |got| && got[i].data.Some? && got[j].data.Some? ==>
          got[i].data.value.id < got[j].data.value.id)
  }

  lemma {:induction false} TakenKnownStep(s: Room, h: seq<NetMsg>, got: seq<NetMsg>, l: Label, fd: Fd)
    requires Inv(s) && AllKnown(s, h) && TakenKnown(s, h, got, fd) && Enabled(s, l)
    ensures TakenKnown(Step(s, l), h + NewMsgs(s, l), got + Taken(s, l, fd), fd)
  {
    Roster.NetGrows(s, l);
    if ReadsFrom(s, l, fd) && l.r.ReadHeader? {
      assert fd in s.room.pass.todo;
      assert Live(fd, s.pool, s.net);
      ReadMakes(s, h, l.r);
    }
  }

  lemma {:induction false} ReadMakes(s: Room, h: seq<NetMsg>, r: RoomStep)
    requires AllKnown(s, h) && RoomEnabled(s, r) && r.ReadHeader?
    ensures var m := RoomNext(s, r).room.msg;
            && m.ip == IpOf(s.pool, s.room.pass.todo[0]) && Known(m, h + NewMsgs(s, RoomThread(r)))
            && (m.data.Some? ==> m.data.value.id == |h|)
  {
  }

  lemma {:induction false} TakenKnownRun(s: Room, h: seq<NetMsg>, got: seq<NetMsg>, ls: seq<Label>, fd: Fd)
    requires Inv(s) && AllKnown(s, h) && TakenKnown(s, h, got, fd) && Legal(s, ls)
    ensures TakenKnown(After(s, ls), Made(h, s, ls), TakenFrom(got, s, ls, fd), fd)
    decreases |ls|
  {
    if ls != [] {
      var l := ls[0];
      TakenKnownStep(s, h, got, l, fd);
      InvStep(s, l);
      KnownStep(s, h, l);
      TakenKnownRun(Step(s, l), h + NewMsgs(s, l), got + Taken(s, l, fd), ls[1..], fd);
    }
  }

  /** What becomes of one message on its way to `a`. */
  ghost predicate Arrives(roomId: u32, ls: seq<Label>, a: Fd, m: NetMsg)
    requires Legal(Start(roomId), ls) && m.data.Some?
  {
    var id := m.data.value.id;
    var x := Count(NOTHING, Start(roomId), ls, a, id);
    var out := Output([], Start(roomId), ls, a);
    && x.hits <= x.aims <= 1
    && (x.releases > 0 ==> x.hits == x.aims)
    && (a == m.targetfd ==> x.aims == 0)
    && Copies(out, id) <= x.hits && (a !in After(Start(roomId), ls).net.closed ==> Copies(out, id) == x.hits)
    && (forall k :: 0 <= k < |out| && Drain.InMsg(out[k], id) == 1 ==> out[k] == m)
  }

  /** End-to-end relay. A member's socket `fd` carries the encoding of media frames, in any fragmentation
      (`es`), and the room runs in any interleaving of all its threads. The messages it takes from `fd`
      are those frames, in order and whole, with type + 1 and the address recorded for `fd`. Each is
      written to a connection `a` at most once: exactly once, when a sender has dealt with it and `a` was
      a member other than `fd` when that sender found the targets, and not at all otherwise. What is
      written is the frame with the same payload. */
  lemma {:induction false} RelayEndToEnd(roomId: u32, ls: seq<Label>, fd: Fd, fs: seq<Frame>, es: seq<RecvEvent>,
                                         stale: byte, a: Fd, i: nat)
    requires Legal(Start(roomId), ls) && MediaFrames(fs) && TapeOf(es).bytes == EncodeAll(fs)
    requires Follows(Reader(TapeOf(es), Short), Start(roomId), ls, fd, stale)
    requires i < |TakenFrom([], Start(roomId), ls, fd)|
    ensures var got := TakenFrom([], Start(roomId), ls, fd);
            var m := got[i];
            && |got| <= |fs| && MadeOf(m, fs[i], fd)
            && FrameOf(m) == Frame(fs[i].msgType + 1, Peer(After(Start(roomId), ls), fd), fs[i].payload)
            && (forall j :: 0 <= j < |got| && got[j].data == m.data ==> j == i)
            && Arrives(roomId, ls, a, m)
  {
    var s := Start(roomId);
    var got := TakenFrom([], s, ls, fd);
    assert fs[0..] == fs;
    ReadSoFarRun(Reader(TapeOf(es), Short), s, ls, [], fs, fd, stale);
    TakenKnownRun(s, [], [], ls, fd);
    forall j | 0 <= j < |got| && got[j].data == got[i].data ensures j == i {
      assert MadeOf(got[j], fs[j], fd) && MadeOf(got[i], fs[i], fd);
    }
    MessageArrives(roomId, ls, a, got[i]);
  }

  lemma {:induction false} MessageArrives(roomId: u32, ls: seq<Label>, a: Fd, m: NetMsg)
    requires Legal(Start(roomId), ls) && m.data.Some? && Known(m, Made([], Start(roomId), ls)) && IsBroadcast(m.msgType)
    ensures Arrives(roomId, ls, a, m)
  {
    WrittenOnce(roomId, ls, a, m.data.value.id);
    OutputCounted(roomId, ls, a, m.data.value.id);
  }
}
