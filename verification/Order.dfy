/** In which order media reaches a member: with one sender in the order in which the room read it; with
    more, in any. */
module Order {
  import opened Wire
  import opened NetMsg
  import opened Room
  import opened Relay
  import opened Delivery
  import opened GhostRuns
  import Drain
  import MediaRuns

  /** Payload ids count up, so a message read later has the larger id. */
  predicate Le(m: NetMsg, n: NetMsg) {
    IsMediaRecv(m.msgType) && IsMediaRecv(n.msgType) && m.data.Some? && n.data.Some? ==>
      m.data.value.id <= n.data.value.id
  }

  /** The media messages of a list are in the order in which they were read. */
  predicate InOrder(ms: seq<NetMsg>) {
    forall i, j :: 0 <= i < j < |ms| ==> Le(ms[i], ms[j])
  }

  predicate AllLe(ms: seq<NetMsg>, ns: seq<NetMsg>) {
    forall i, j :: 0 <= i < |ms| && 0 <= j < |ns| ==> Le(ms[i], ns[j])
  }

  predicate Below(ms: seq<NetMsg>, next: nat) {
    forall i :: 0 <= i < |ms| && ms[i].data.Some? ==> ms[i].data.value.id < next
  }

  function InHand(ps: seq<SenderPc>): (ms: seq<NetMsg>) {
    if ps != [] && (ps[0].Holding? || ps[0].Sending?) then [ps[0].msg] else []
  }

  function AtReader(pc: RoomPc): (ms: seq<NetMsg>) {
    if pc.Reading? || pc.Pushing? then [pc.msg] else []
  }

  function AtAccept(pc: AcceptPc): (ms: seq<NetMsg>) {
    if pc.AcceptCreated? then [pc.reply] else if pc.AcceptListed? then [pc.list] else []
  }

  predicate NoMedia(ms: seq<NetMsg>) {
    forall i :: 0 <= i < |ms| ==> !IsMediaRecv(ms[i].msgType)
  }

  /** What was written, what sender 0 holds, what is queued and what the room thread holds are in order,
      one after the other. */
  ghost predicate InLine(s: Room, out: seq<NetMsg>) {
    var hand, reader := InHand(s.senders), AtReader(s.room);
    && InOrder(out) && InOrder(s.queue)
    && AllLe(out, hand) && AllLe(out, s.queue) && AllLe(out, reader)
    && AllLe(hand, s.queue) && AllLe(hand, reader) && AllLe(s.queue, reader)
    && Below(out, s.heap.next) && Below(hand, s.heap.next) && Below(s.queue, s.heap.next)
    && Below(reader, s.heap.next) && Below(AtAccept(s.accept), s.heap.next) && NoMedia(AtAccept(s.accept))
    && (forall i :: 0 < i < |s.senders| ==> s.senders[i].SenderIdle?)
  }

  lemma PushInLine(s: Room, out: seq<NetMsg>, m: NetMsg)
    requires InLine(s, out) && Below([m], s.heap.next)
    requires AllLe(out, [m]) && AllLe(InHand(s.senders), [m]) && AllLe(s.queue, [m]) && AllLe([m], AtReader(s.room))
    ensures InLine(PushMsg(s, m), out)
  {
  }

  lemma {:induction false} LineAccept(s: Room, out: seq<NetMsg>, l: AcceptStep)
    requires InLine(s, out) && AcceptEnabled(s, l)
    ensures InLine(AcceptNext(s, l), out)
  {
    match l
    case PushCreated => PushInLine(s, out, s.accept.reply);
    case PushJoin => PushInLine(s, out, JoinMsg(s.accept.fd, s.accept.ip));
    case PushList => PushInLine(s, out, s.accept.list);
    case _ =>
  }

  lemma {:induction false} LineRoom(s: Room, out: seq<NetMsg>, l: RoomStep)
    requires InLine(s, out) && RoomEnabled(s, l)
    ensures InLine(RoomNext(s, l), out)
  {
    match l
    case RoomPush => PushInLine(s.(room := Looping), out, s.room.msg);
    case ClearQueue => Drain.FreeQueueFrees(s.heap, s.queue, 0);
    case AcceptJoinedBack => PillsInLine(s, out);
    case _ => LineQuiet(s, out, l);
  }

  lemma {:induction false} PillsInLine(s: Room, out: seq<NetMsg>)
    requires InLine(s, out) && RoomEnabled(s, AcceptJoinedBack)
    ensures InLine(RoomNext(s, AcceptJoinedBack), out)
  {
    assert forall k :: 0 <= k < SENDTHREADSIZE ==> Pills(SENDTHREADSIZE)[k] == PILL;
  }

  lemma {:induction false} LineQuiet(s: Room, out: seq<NetMsg>, l: RoomStep)
    requires InLine(s, out) && RoomEnabled(s, l) && !l.RoomPush? && !l.ClearQueue? && !l.AcceptJoinedBack?
    ensures InLine(RoomNext(s, l), out)
  {
  }

  lemma {:induction false} LineSender(s: Room, out: seq<NetMsg>, l: SenderStep, a: Fd)
    requires InLine(s, out) && SenderEnabled(s, 0, l)
    ensures InLine(SenderNext(s, 0, l), out + Written(s, Sender(0, l), a))
  {
    assert out + [] == out;
  }

  /** Only the first `k` senders take steps. */
  predicate FirstSenders(ls: seq<Label>, k: nat) {
    forall l <- ls :: l.Sender? ==> l.i < k
  }

  lemma {:induction false} LineRun(s: Room, out: seq<NetMsg>, ls: seq<Label>, a: Fd)
    requires InLine(s, out) && Legal(s, ls) && FirstSenders(ls, 1)
    ensures InLine(After(s, ls), Output(out, s, ls, a))
    decreases |ls|
  {
    if ls != [] {
      var l := ls[0];
      assert l in ls;
      assert out + [] == out;
      match l {
        case Outside(o) =>
        case Accept(q) => LineAccept(s, out, q);
        case RoomThread(r) => LineRoom(s, out, r);
        case Sender(i, d) => LineSender(s, out, d, a);
      }
      LineRun(Step(s, l), out + Written(s, l, a), ls[1..], a);
    }
  }

  /** In every run in which only the first `k` senders take part, `a` is written media in the order in
      which the room read it. */
  ghost predicate KeepsOrder(roomId: u32, k: nat) {
    forall ls, a :: Legal(Start(roomId), ls) && FirstSenders(ls, k) ==> InOrder(Output([], Start(roomId), ls, a))
  }

  /** Order is kept if and only if there is at most one sender. */
  lemma {:induction false} OrderExact(roomId: u32, k: nat)
    ensures KeepsOrder(roomId, k) <==> k <= 1
  {
    if k <= 1 {
      forall ls, a | Legal(Start(roomId), ls) && FirstSenders(ls, k) ensures InOrder(Output([], Start(roomId), ls, a)) {
        LineRun(Start(roomId), [], ls, a);
      }
    } else {
      OutOfOrder(roomId, k);
    }
  }

  lemma {:induction false} OutOfOrder(roomId: u32, k: nat)
    requires k >= 2
    ensures !KeepsOrder(roomId, k)
  {
    var s := Begin(roomId);
    MediaRuns.TextsSwapped(roomId);
    var t, id: nat :| Reaches(Schedule(2, true), s, t) && MediaRuns.Swapped(Inbox(t.net, HOST), id);
    var ls :| RunBy(Schedule(2, true), s, ls) && Legal(s, ls) && After(s, ls) == t;
    FirstSendersMove(s, ls);
    InboxRun(s, [], [], ls, HOST);
    var i, out := |ReadBy([], s, ls, HOST)|, Output([], s, ls, HOST);
    assert out[i] == Inbox(t.net, HOST)[0] && out[i + 1] == Inbox(t.net, HOST)[1];
    assert !Le(out[i], out[i + 1]);
    var all := FromStart(roomId, ls, HOST);
  }

  /** A run of a room whose creator has been handed over, with the hand-over. */
  lemma {:induction false} FromStart(roomId: u32, ls: seq<Label>, a: Fd) returns (all: seq<Label>)
    requires Legal(Begin(roomId), ls) && FirstSenders(ls, 2)
    ensures Legal(Start(roomId), all) && FirstSenders(all, 2)
    ensures Output([], Start(roomId), all, a) == Output([], Begin(roomId), ls, a)
  {
    var l := Outside(HandCreate(HOST, HOST_IP));
    all := [l] + ls;
    assert all[1..] == ls && Step(Start(roomId), l) == Begin(roomId);
    var none: seq<NetMsg> := [];
    assert none + Written(Start(roomId), l, a) == none;
  }

  lemma {:induction false} FirstSendersMove(s: Room, ls: seq<Label>)
    requires RunBy(Schedule(2, true), s, ls)
    ensures FirstSenders(ls, 2)
    decreases |ls|
  {
    if ls != [] {
      FirstSendersMove(Step(s, ls[0]), ls[1..]);
      assert ls == [ls[0]] + ls[1..];
    }
  }
}
