/** Runs in which a guest sends media to its host: two frames that change places, and one whose header
    announces a negative length. */
module MediaRuns {
  import opened Wire
  import opened NetMsg
  import opened Pool
  import opened Room
  import opened NetIo
  import opened FrameReader
  import opened FrameWriter
  import opened EndToEnd
  import opened GhostRuns
  import Framing

  /** Host and guest are in, with these messages queued and all senders idle. */
  ghost predicate BothIn(t: Room) {
    && t.pool == PoolState(true, HOST, 2, [HOST, GUEST], map[HOST := HOST_IP, GUEST := GUEST_IP], {HOST, GUEST})
    && t.room == Looping && !t.shutdown && !t.down && AllIdle(t)
    && AllRead(t.net) && t.net.closed == {}
  }

  lemma Together(r: Rule, roomId: u32) returns (t: Room)
    ensures Reaches(r, Begin(roomId), t) && BothIn(t) && |t.queue| == 3
    ensures t.queue[0].msgType == CREATE_MEETING_RESPONSE && t.queue[0].targetfd == HOST
    ensures t.queue[1] == JoinMsg(GUEST, GUEST_IP)
    ensures t.queue[2].msgType == PARTNER_JOIN2 && t.queue[2].targetfd == GUEST
    ensures t.past.peak == 2 && t.past.longest == 0
  {
    var s := Begin(roomId);
    t := Arrival(r, roomId);
    assert t.pool.fdToIp.Keys == Elems(t.pool.activeFds);
    t := Announcement(r, s, t);
  }

  /** The guest says one letter `len` times. */
  function Text(len: int, letter: byte, id: nat): (m: NetMsg) {
    NetMsg(TEXT_RECV, GUEST_IP, GUEST, len, if len >= 0 then Some(Block(id, Letters(len, letter))) else None)
  }

  function Letters(len: int, letter: byte): (b: seq<byte>)
    ensures |b| == if len >= 0 then len else 0
  {
    seq(if len >= 0 then len else 0, _ => letter)
  }

  /** The room thread reads one text from the guest and queues it. */
  lemma GuestSpeaks(r: Rule, s: Room, a: Room, len: int, letter: byte) returns (t: Room)
    requires Reaches(r, s, a) && BothIn(a) && |a.queue| < 10 && -1 <= len < 0x8000_0000
    ensures Reaches(r, s, t)
    ensures t == a.(queue := a.queue + [Text(len, letter, a.heap.next)], heap := t.heap, past := t.past)
    ensures t.past == if len > a.past.longest then a.past.(longest := len) else a.past
    ensures t.heap.next == a.heap.next + (if len >= 0 then 1 else 0)
  {
    t := GuestReady(r, s, a);
    t := Go(r, s, t, RoomThread(ReadHeader(TEXT_RECV, len, Letters(len, letter))));
    assert t.pool == a.pool;
    t := Go(r, s, t, RoomThread(PayloadGood));
    t := Go(r, s, t, RoomThread(RoomPush));
  }

  lemma GuestSelected(same: bool)
    ensures Select([HOST, GUEST], GUEST, same) == if same then [GUEST] else [HOST]
  {
    assert [HOST, GUEST][1..] == [GUEST];
    OneSelected(GUEST, GUEST, same);
  }

  /** The first three messages go out and are read. */
  lemma ThreeSettle(r: Rule, s: Room, a: Room) returns (t: Room)
    requires Reaches(r, s, a) && BothIn(a) && |a.queue| >= 3
    requires a.queue[0].msgType == CREATE_MEETING_RESPONSE && a.queue[0].targetfd == HOST
    requires a.queue[1] == JoinMsg(GUEST, GUEST_IP)
    requires a.queue[2].msgType == PARTNER_JOIN2 && a.queue[2].targetfd == GUEST
    ensures Reaches(r, s, t) && BothIn(t) && t.queue == a.queue[3..] && t.past == a.past
  {
    GuestSelected(true);
    GuestSelected(false);
    t := PassToOne(r, s, a, [HOST]);
    t := PassToOne(r, s, t, [HOST]);
    t := PassToOne(r, s, t, [GUEST]);
  }

  /** Sender `i` writes the text it holds to the host. */
  lemma Speak(r: Rule, s: Room, a: Room, i: nat, m: NetMsg) returns (t: Room)
    requires Reaches(r, s, a) && i < r.senders && i < |a.senders| && a.senders[i] == Holding(m)
    requires m.msgType == TEXT_RECV && m.targetfd == GUEST
    requires a.pool.activeFds == [HOST, GUEST] && HOST !in a.net.closed
    ensures Reaches(r, s, t)
    ensures t == a.(senders := a.senders[i := Sending(m, [])], net := Deliver(a.net, HOST, m))
  {
    GuestSelected(false);
    t := Go(r, s, a, Sender(i, FindTargets));
    t := Go(r, s, t, Sender(i, WriteOne));
    assert [HOST][1..] == [];
  }

  lemma TwoTexts(r: Rule, s: Room, a: Room) returns (t: Room)
    requires Reaches(r, s, a) && BothIn(a) && |a.queue| == 3
    requires a.queue[0].msgType == CREATE_MEETING_RESPONSE && a.queue[0].targetfd == HOST
    requires a.queue[1] == JoinMsg(GUEST, GUEST_IP)
    requires a.queue[2].msgType == PARTNER_JOIN2 && a.queue[2].targetfd == GUEST
    ensures Reaches(r, s, t) && BothIn(t) && t.queue == [Text(1, 65, a.heap.next), Text(1, 66, a.heap.next + 1)]
  {
    t := GuestSpeaks(r, s, a, 1, 65);
    t := GuestSpeaks(r, s, t, 1, 66);
    t := ThreeSettle(r, s, t);
  }

  /** 'B' before 'A', which was read first; and a client can tell. */
  ghost predicate Swapped(ms: seq<NetMsg>, k: nat) {
    && ms == [Text(1, 66, k + 1), Text(1, 65, k)]
    && FrameOf(ms[0]).payload == [66] && FrameOf(ms[1]).payload == [65]
  }

  /** Two texts of one member reach the other in the wrong order: the sender that holds the first is
      overtaken by the one that holds the second. */
  lemma TextsSwapped(roomId: u32)
    ensures exists t, k: nat :: Reaches(Schedule(2, true), Begin(roomId), t) && Swapped(Inbox(t.net, HOST), k)
  {
    var r, s := Schedule(2, true), Begin(roomId);
    var t := Together(r, roomId);
    var k := t.heap.next;
    t := TwoTexts(r, s, t);
    t := Hold(r, s, t, 0);
    t := Hold(r, s, t, 1);
    t := Speak(r, s, t, 1, Text(1, 66, k + 1));
    t := Speak(r, s, t, 0, Text(1, 65, k));
    assert Swapped(Inbox(t.net, HOST), k);
  }

  /** Twelve bytes from a member whose header announces the length -1 are accepted as a text. */
  lemma {:induction false} NegativeIsAccepted(ip: u32, post: seq<byte>, broken: bool, stale: byte)
    ensures ReadFrame(Tape(Header(TEXT_SEND, ip, 0xFFFF_FFFF) + [HASH] + post, broken), stale)
         == (Media(TEXT_RECV, -1, []), Tape(post, broken))
  {
    HeaderThenRest(TEXT_SEND, ip, 0xFFFF_FFFF, [HASH] + post, broken, stale);
    assert Header(TEXT_SEND, ip, 0xFFFF_FFFF) + [HASH] + post == Header(TEXT_SEND, ip, 0xFFFF_FFFF) + ([HASH] + post);
  }

  /** However its client reads on, the first thing it does is to drop its buffer. */
  ghost predicate Swallows(ms: seq<NetMsg>) {
    ms != [] && forall post, chunks :: Framing.Concat(chunks) == BytesOf(ms) + post ==>
      Framing.FlushedBehind(Framing.ReceiveAll(chunks).events, [], LyingHeader(ms[0]))
  }

  /** And they go out to the other members: there is a run, with one sender and undisturbed joins as
      well, in which the host has read all it was sent and the text of length -1 comes next. */
  lemma {:induction false} NegativeReachesOthers(r: Rule, roomId: u32)
    ensures exists t :: Reaches(r, Begin(roomId), t) && HOST in t.pool.activeFds && HOST !in t.net.closed
                        && |Inbox(t.net, HOST)| == 1 && Inbox(t.net, HOST)[0].len == -1 && Swallows(Inbox(t.net, HOST))
  {
    var s := Begin(roomId);
    var t := Together(r, roomId);
    t := GuestSpeaks(r, s, t, -1, 65);
    t := ThreeSettle(r, s, t);
    var m := Text(-1, 65, 0);
    assert t.queue == [m];
    t := Hold(r, s, t, 0);
    t := Speak(r, s, t, 0, m);
    assert Inbox(t.net, HOST) == [m];
    NegativeSwallows(m);
  }

  lemma {:induction false} NegativeSwallows(m: NetMsg)
    requires Fitting([m]) && m.len < 0
    ensures Swallows([m])
  {
    assert [m][..0] == [];
    forall post, chunks | Framing.Concat(chunks) == BytesOf([m]) + post
      ensures Framing.FlushedBehind(Framing.ReceiveAll(chunks).events, [], LyingHeader(m))
    {
      LostFrom([m], 0, post, chunks);
    }
  }
}
