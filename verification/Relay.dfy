/** What a room reads from its members' sockets and what its senders write to them. */
module Relay {
  import opened Wire
  import opened NetMsg
  import opened Pool
  import opened Room
  import opened Membership
  import opened NetIo
  import opened FrameReader
  import opened FrameWriter
  import Framing

  // ---------------------------------------------------------------------------------------
  // Every queued message is written as a proper frame
  // ---------------------------------------------------------------------------------------

  predicate IsMediaRecv(kind: u16) {
    kind == IMG_RECV || kind == AUDIO_RECV || kind == TEXT_RECV
  }

  /** A media message whose header announced a negative length carries no payload. */
  predicate Negative(m: NetMsg) {
    -0x8000_0000 <= m.len < 0 && m.data.None? && IsMediaRecv(m.msgType)
  }

  predicate Framed(m: NetMsg) {
    RoomType(m.msgType) && (Measured(m) || Negative(m))
  }

  predicate FramedOrPill(m: NetMsg) {
    Framed(m) || m == PILL
  }

  ghost predicate AllFramed(s: Room) {
    && (forall k :: 0 <= k < |s.queue| ==> FramedOrPill(s.queue[k]))
    && (forall i :: 0 <= i < |s.senders| && (s.senders[i].Holding? || s.senders[i].Sending?) ==>
          Framed(s.senders[i].msg))
    && (s.accept.AcceptCreated? ==> Framed(s.accept.reply))
    && (s.accept.AcceptListed? ==> Framed(s.accept.list))
    && (s.room.Reading? || s.room.Pushing? ==> Framed(s.room.msg))
  }

  lemma {:induction false} FramedStep(s: Room, l: Label)
    requires AllFramed(s) && Enabled(s, l)
    ensures AllFramed(Step(s, l))
  {
    match l
    case Outside(o) =>
    case Accept(a) => FramedAccept(s, a);
    case RoomThread(r) => FramedRoom(s, r);
    case Sender(i, d) =>
  }

  lemma FramedAccept(s: Room, l: AcceptStep)
    requires AllFramed(s) && AcceptEnabled(s, l)
    ensures AllFramed(AcceptNext(s, l))
  {
  }

  lemma FramedRoom(s: Room, l: RoomStep)
    requires AllFramed(s) && RoomEnabled(s, l)
    ensures AllFramed(RoomNext(s, l))
  {
  }

  lemma {:induction false} FramedRun(s: Room, ls: seq<Label>)
    requires AllFramed(s) && Legal(s, ls)
    ensures AllFramed(After(s, ls))
    decreases |ls|
  {
    if ls != [] {
      FramedStep(s, ls[0]);
      FramedRun(Step(s, ls[0]), ls[1..]);
    }
  }

  /** Such a message is written as its header and a tail, twelve bytes, and the header still announces
      the length, which no client accepts: it drops its whole buffer. */
  lemma {:induction false} NegativeIsOversize(m: NetMsg, post: seq<byte>)
    requires Negative(m)
    ensures |SenderBytes(m)| == MSG_HEADER + 1
    ensures Framing.Inspect(SenderBytes(m) + post).Oversize?
  {
    var h := Header(m.msgType, m.ip, AsU32(m.len));
    assert SenderBytes(m) == h + [HASH];
    assert SenderBytes(m) + post == h + ([HASH] + post);
    HeaderFields(m.msgType, m.ip, AsU32(m.len), [HASH] + post);
  }

  /** Of the messages a room queues, exactly those with a length that is not negative are written as
      their frames. */
  lemma {:induction false} FramedExact(m: NetMsg)
    requires Framed(m)
    ensures SenderBytes(m) == Encode(FrameOf(m)) <==> m.len >= 0
  {
    if m.len >= 0 {
      SenderFrame(m);
    } else {
      NegativeIsOversize(m, []);
    }
  }

  lemma {:induction false} FramedReachable(roomId: u32, ls: seq<Label>)
    requires Legal(Start(roomId), ls)
    ensures AllFramed(After(Start(roomId), ls))
  {
    FramedRun(Start(roomId), ls);
  }

  /** In every run, what a sender writes for a message it holds is the full frame of that message if
      and only if the header it was read from did not announce a negative length; and then it makes
      whoever reads it drop the frame and everything received behind it. */
  lemma {:induction false} SendersWriteFrames(roomId: u32, ls: seq<Label>, i: nat, post: seq<byte>)
    requires Legal(Start(roomId), ls)
    requires var s := After(Start(roomId), ls);
             i < |s.senders| && (s.senders[i].Holding? || s.senders[i].Sending?)
    ensures var m := After(Start(roomId), ls).senders[i].msg;
            && (SenderBytes(m) == Encode(FrameOf(m)) <==> m.len >= 0)
            && (m.len < 0 ==> Framing.Inspect(SenderBytes(m) + post).Oversize?)
  {
    var s := After(Start(roomId), ls);
    FramedReachable(roomId, ls);
    FramedExact(s.senders[i].msg);
    if s.senders[i].msg.len < 0 {
      NegativeIsOversize(s.senders[i].msg, post);
    }
  }

  // ---------------------------------------------------------------------------------------
  // Reading
  // ---------------------------------------------------------------------------------------

  /** The steps of the room thread for what it read from a socket. What the payload buffer of a bad
      frame holds behind the bytes that came does not matter; here it is zeros. */
  function StepsFor(o: Served): (ls: seq<Label>) {
    match o
    case Short => [RoomThread(ReadShort)]
    case Bad => [RoomThread(ReadBad)]
    case BadMedia(kind, len, bytes) => [RoomThread(ReadHeader(kind, len, Padded(bytes, len))), RoomThread(PayloadBad)]
    case Camera(ip) => [RoomThread(ReadCamera(ip))]
    case Media(kind, len, bytes) => [RoomThread(ReadHeader(kind, len, bytes)), RoomThread(PayloadGood)]
  }

  function Padded(b: seq<byte>, len: int): (p: seq<byte>)
    ensures |p| == if len >= 0 then len else 0
  {
    seq(if len >= 0 then len else 0, i requires i >= 0 => if i < |b| then b[i] else 0)
  }

  /** What the read comes to: a good frame is passed on, a bad one evicts the member, and its payload
      is freed; after a short header the pass goes on. */
  predicate Followed(s: Room, o: Served, t: Room)
    requires AtReady(s)
  {
    var fd := s.room.pass.todo[0];
    match o
    case Short => t == s.(room := Counted(Rest(s.room.pass)))
    case Bad => t == s.(room := Closing(fd, Rest(s.room.pass)))
    case BadMedia(kind, len, bytes) =>
      && t == s.(room := Closing(fd, Rest(s.room.pass)), pool := t.pool, heap := t.heap, past := t.past)
      && t.pool == s.pool.(fdToIp := Touch(s.pool.fdToIp, fd))
      && t.heap == (if len >= 0 then Heap(s.heap.next + 1, s.heap.freed + multiset{s.heap.next}) else s.heap)
    case Camera(ip) =>
      && t == s.(room := t.room) && t.room.Pushing? && t.room.msg.targetfd == fd
      && FrameOf(t.room.msg) == Frame(CLOSE_CAMERA, ip, []) && Framed(t.room.msg)
    case Media(kind, len, bytes) =>
      && t == s.(room := t.room, pool := t.pool, heap := t.heap, past := t.past)
      && t.room.Pushing? && t.room.msg.targetfd == fd && t.room.msg.len == len
      && FrameOf(t.room.msg) == Frame(kind, IpOf(s.pool, fd), bytes) && Framed(t.room.msg)
  }

  /** Whatever the stream of a ready socket holds, the room thread's machine can follow the read. */
  lemma {:induction false} ReadIsFollowed(s: Room, t: Tape, stale: byte)
    requires Readable(s)
    ensures var o := ReadFrame(t, stale).0;
            Legal(s, StepsFor(o)) && Followed(s, o, After(s, StepsFor(o)))
  {
    match ReadFrame(t, stale).0
    case Short => OneStep(s, RoomThread(ReadShort));
    case Bad => OneStep(s, RoomThread(ReadBad));
    case Camera(ip) => OneStep(s, RoomThread(ReadCamera(ip)));
    case BadMedia(kind, len, bytes) => BadMediaIsFollowed(s, kind, len, Padded(bytes, len));
    case Media(kind, len, bytes) => MediaIsFollowed(s, kind, len, bytes);
  }

  lemma {:induction false} MediaIsFollowed(s: Room, kind: u16, len: int, bytes: seq<byte>)
    requires Readable(s) && IsMediaRecv(kind) && -0x8000_0000 <= len < 0x8000_0000
    requires |bytes| == if len >= 0 then len else 0
    ensures var ls := [RoomThread(ReadHeader(kind, len, bytes)), RoomThread(PayloadGood)];
            Legal(s, ls) && Followed(s, Media(kind, len, bytes), After(s, ls))
  {
    TwoSteps(s, RoomThread(ReadHeader(kind, len, bytes)), RoomThread(PayloadGood));
  }

  lemma {:induction false} BadMediaIsFollowed(s: Room, kind: u16, len: int, bytes: seq<byte>)
    requires Readable(s) && IsMediaRecv(kind) && -0x8000_0000 <= len < 0x8000_0000
    requires |bytes| == if len >= 0 then len else 0
    ensures var ls := [RoomThread(ReadHeader(kind, len, bytes)), RoomThread(PayloadBad)];
            Legal(s, ls) && Followed(s, BadMedia(kind, len, bytes), After(s, ls))
  {
    TwoSteps(s, RoomThread(ReadHeader(kind, len, bytes)), RoomThread(PayloadBad));
  }

  lemma {:induction false} OneStep(s: Room, l: Label)
    requires Enabled(s, l)
    ensures Legal(s, [l]) && After(s, [l]) == Step(s, l)
  {
    assert [l][1..] == [];
  }

  lemma {:induction false} TwoSteps(s: Room, l: Label, k: Label)
    requires Enabled(s, l) && Enabled(Step(s, l), k)
    ensures Legal(s, [l, k]) && After(s, [l, k]) == Step(Step(s, l), k)
  {
    OneStep(Step(s, l), k);
    assert [l, k][1..] == [k];
  }

  /** A media message names the member it was read from, with the address recorded for it. */
  lemma MediaIsSigned(roomId: u32, ls: seq<Label>, kind: u16, len: int, bytes: seq<byte>)
    requires Legal(Start(roomId), ls) && Enabled(After(Start(roomId), ls), RoomThread(ReadHeader(kind, len, bytes)))
    ensures var s := After(Start(roomId), ls);
            var m := Step(s, RoomThread(ReadHeader(kind, len, bytes))).room.msg;
            && m.msgType == kind && m.targetfd in s.pool.activeFds && m.targetfd == s.room.pass.todo[0]
            && m.ip == Peer(s, m.targetfd) && (len >= 0 ==> FrameOf(m) == Frame(kind, m.ip, bytes))
  {
    InvReachable(roomId, ls);
    var s := After(Start(roomId), ls);
    var fd := s.room.pass.todo[0];
    assert fd in s.room.pass.todo;
    assert Live(fd, s.pool, s.net);
  }

  /** The sockets sender `i` writes to during a stretch of a run. */
  function Writes(s: Room, ls: seq<Label>, i: nat): (fds: seq<Fd>)
    requires Legal(s, ls)
    decreases |ls|
  {
    if ls == [] then []
    else (if ls[0] == Sender(i, WriteOne) then [s.senders[i].todo[0]] else []) + Writes(Step(s, ls[0]), ls[1..], i)
  }

  lemma SenderStays(s: Room, l: Label, i: nat)
    requires Enabled(s, l) && i < |s.senders| && s.senders[i].Sending? && l != Sender(i, Release)
    ensures i < |Step(s, l).senders|
    ensures Step(s, l).senders[i]
         == if l == Sender(i, WriteOne) then Sending(s.senders[i].msg, s.senders[i].todo[1..]) else s.senders[i]
  {
    match l
    case Outside(o) =>
    case Accept(a) => assert AcceptNext(s, a).senders == s.senders;
    case RoomThread(r) => assert RoomNext(s, r).senders == s.senders;
    case Sender(j, d) =>
  }

  lemma {:induction false} WritesFollowTargets(s: Room, ls: seq<Label>, i: nat)
    requires Legal(s, ls) && Sender(i, Release) !in ls && i < |s.senders| && s.senders[i].Sending?
    ensures var t := After(s, ls);
            && i < |t.senders| && t.senders[i].Sending? && t.senders[i].msg == s.senders[i].msg
            && Writes(s, ls, i) + t.senders[i].todo == s.senders[i].todo
    decreases |ls|
  {
    if ls != [] {
      SenderStays(s, ls[0], i);
      WritesFollowTargets(Step(s, ls[0]), ls[1..], i);
    }
  }

  /** In every run, whatever the other threads do in between: from the moment a sender finds the
      targets of a message to the moment it lets go of it, it writes to each member it is meant for,
      as of that first moment, exactly once, and to nobody else. */
  lemma OnceToEachMember(roomId: u32, before: seq<Label>, i: nat, ls: seq<Label>)
    requires Legal(Start(roomId), before) && Enabled(After(Start(roomId), before), Sender(i, FindTargets))
    requires var t := Step(After(Start(roomId), before), Sender(i, FindTargets));
             Legal(t, ls) && Sender(i, Release) !in ls && Enabled(After(t, ls), Sender(i, Release))
    ensures var s := After(Start(roomId), before);
            var m := s.senders[i].msg;
            var fds := Writes(Step(s, Sender(i, FindTargets)), ls, i);
            && NoDup(fds)
            && (IsBroadcast(m.msgType) ==> forall a :: a in fds <==> a in s.pool.activeFds && a != m.targetfd)
            && (m.msgType == PARTNER_JOIN2 ==> forall a :: a in fds <==> a in s.pool.activeFds && a == m.targetfd)
            && (m.msgType == CREATE_MEETING_RESPONSE ==> fds == [m.targetfd])
  {
    InvReachable(roomId, before);
    var s := After(Start(roomId), before);
    var m := s.senders[i].msg;
    SelectIsFilter(s.pool.activeFds, m.targetfd, false);
    SelectIsFilter(s.pool.activeFds, m.targetfd, true);
    var t := Step(s, Sender(i, FindTargets));
    WritesFollowTargets(t, ls, i);
    assert After(t, ls).senders[i].todo == [];
    assert Writes(t, ls, i) == Targets(s.pool, m);
    assert NoDup(s.pool.activeFds);
  }
}
