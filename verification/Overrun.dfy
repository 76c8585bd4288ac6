/** Frames that do not fit a sender's 4 MB buffer: which they are, that there are such, and when a room has
    none. */
module Overrun {
  import opened Wire
  import opened NetMsg
  import opened Pool
  import opened Room
  import opened Membership
  import opened FrameWriter
  import opened Relay
  import opened GhostRuns
  import MediaRuns

  /** The frame of a message is longer than the buffer it is written into. */
  predicate Overruns(m: NetMsg) {
    |SenderBytes(m)| > MAX_BUF
  }

  lemma {:induction false} OverrunsByLength(m: NetMsg)
    requires Framed(m)
    ensures Overruns(m) <==> m.len > MAX_PAYLOAD
  {
  }

  /** What can be long: media as long as some header announced, and lists of all members but one. */
  predicate Bounded(m: NetMsg, past: Past) {
    if IsMediaRecv(m.msgType) then m.len <= past.longest
    else if m.msgType == PARTNER_JOIN2 then
      m.data.Some? && m.len == |m.data.value.bytes| && m.len % 4 == 0 && m.len / 4 < past.peak
    else m.len <= 4
  }

  ghost predicate AllBounded(s: Room) {
    && (forall k :: 0 <= k < |s.queue| ==> Bounded(s.queue[k], s.past))
    && (forall i :: 0 <= i < |s.senders| && (s.senders[i].Holding? || s.senders[i].Sending?) ==>
          Bounded(s.senders[i].msg, s.past))
    && (s.accept.AcceptCreated? ==> Bounded(s.accept.reply, s.past))
    && (s.accept.AcceptListed? ==> Bounded(s.accept.list, s.past))
    && (s.room.Reading? || s.room.Pushing? ==> Bounded(s.room.msg, s.past))
  }

  /** While a newcomer is announced, it is a member or there is room for one below the peak. */
  predicate NewcomerCounted(s: Room) {
    var p := s.accept;
    p.AcceptJoined? || p.AcceptAnnounced? ==>
      |s.pool.activeFds| + (if p.fd in s.pool.activeFds then 0 else 1) <= s.past.peak
  }

  lemma {:induction false} BoundedMore(s: Room, past: Past)
    requires AllBounded(s) && past.peak >= s.past.peak && past.longest >= s.past.longest
    ensures AllBounded(s.(past := past))
  {
  }

  lemma {:induction false} SelectSize(s: seq<Fd>, fd: Fd)
    requires NoDup(s)
    ensures |Select(s, fd, false)| == |s| - (if fd in s then 1 else 0)
  {
    if s != [] {
      var t := s[1..];
      assert s == [s[0]] + t && s[0] !in t;
      SelectSize(t, fd);
    }
  }

  lemma {:induction false} IpsSize(m: map<Fd, u32>, s: seq<Fd>)
    ensures |IpsOf(m, s)| == |s|
  {
    if s != [] {
      IpsSize(m, s[1..]);
    }
  }

  lemma {:induction false} BoundedAccept(s: Room, l: AcceptStep)
    requires Inv(s) && AllBounded(s) && NewcomerCounted(s) && AcceptEnabled(s, l)
    ensures AllBounded(AcceptNext(s, l)) && NewcomerCounted(AcceptNext(s, l))
  {
    if l.AdmitCreator? || l.AdmitJoiner? {
      BoundedAdmit(s, l);
    } else if l.TakeList? {
      BoundedList(s);
    }
  }

  lemma {:induction false} BoundedAdmit(s: Room, l: AcceptStep)
    requires AllBounded(s) && AcceptEnabled(s, l) && (l.AdmitCreator? || l.AdmitJoiner?)
    ensures AllBounded(AcceptNext(s, l)) && NewcomerCounted(AcceptNext(s, l))
  {
    BoundedMore(s, Joined(s, s.accept.conn.sockfd));
    AppendElems(s.pool.activeFds, s.accept.conn.sockfd);
  }

  lemma {:induction false} BoundedList(s: Room)
    requires Inv(s) && AllBounded(s) && NewcomerCounted(s) && AcceptEnabled(s, TakeList)
    ensures AllBounded(AcceptNext(s, TakeList)) && NewcomerCounted(AcceptNext(s, TakeList))
  {
    SelectSize(s.pool.activeFds, s.accept.fd);
    IpsSize(s.pool.fdToIp, Others(s.pool, s.accept.fd));
  }

  lemma {:induction false} BoundedRoom(s: Room, l: RoomStep)
    requires Inv(s) && AllBounded(s) && NewcomerCounted(s) && RoomEnabled(s, l)
    ensures AllBounded(RoomNext(s, l)) && NewcomerCounted(RoomNext(s, l))
  {
    if l.EvictMember? {
      EvictedOne(s);
    } else if l.ReadHeader? {
      BoundedMore(s, RoomNext(s, l).past);
    } else {
      BoundedQuiet(s, l);
    }
  }

  lemma {:induction false} BoundedQuiet(s: Room, l: RoomStep)
    requires Inv(s) && AllBounded(s) && NewcomerCounted(s) && RoomEnabled(s, l) && !l.EvictMember? && !l.ReadHeader?
    ensures AllBounded(RoomNext(s, l)) && NewcomerCounted(RoomNext(s, l))
  {
  }

  lemma {:induction false} EvictedOne(s: Room)
    requires Inv(s) && AllBounded(s) && NewcomerCounted(s) && RoomEnabled(s, EvictMember)
    ensures AllBounded(RoomNext(s, EvictMember)) && NewcomerCounted(RoomNext(s, EvictMember))
  {
    WithoutIsErase(s.pool.activeFds, s.room.fd);
  }

  lemma {:induction false} BoundedSender(s: Room, i: nat, l: SenderStep)
    requires AllBounded(s) && NewcomerCounted(s) && SenderEnabled(s, i, l)
    ensures AllBounded(SenderNext(s, i, l)) && NewcomerCounted(SenderNext(s, i, l))
  {
  }

  lemma {:induction false} BoundedRun(s: Room, ls: seq<Label>)
    requires Inv(s) && AllBounded(s) && NewcomerCounted(s) && Legal(s, ls)
    ensures AllBounded(After(s, ls))
    decreases |ls|
  {
    if ls != [] {
      InvStep(s, ls[0]);
      match ls[0] {
        case Outside(o) =>
        case Accept(a) => BoundedAccept(s, a);
        case RoomThread(r) => BoundedRoom(s, r);
        case Sender(i, d) => BoundedSender(s, i, d);
      }
      BoundedRun(Step(s, ls[0]), ls[1..]);
    }
  }

  predicate Held(s: Room, i: nat) {
    i < |s.senders| && (s.senders[i].Holding? || s.senders[i].Sending?)
  }

  lemma {:induction false} DecodeSize(b: seq<byte>)
    ensures |DecodeIps(b)| == |b| / 4
  {
    if |b| >= 4 {
      DecodeSize(b[4..]);
    }
  }

  /** In every run, a sender overruns its buffer exactly when it holds media longer than a client accepts,
      or a list of as many addresses; and then some header announced that length, or the room has had more
      members than that. */
  lemma {:induction false} OverrunExact(roomId: u32, ls: seq<Label>, i: nat)
    requires Legal(Start(roomId), ls) && Held(After(Start(roomId), ls), i)
    ensures var s := After(Start(roomId), ls);
            var m := s.senders[i].msg;
            && (Overruns(m) <==> (IsMediaRecv(m.msgType) && m.len > MAX_PAYLOAD)
                                 || (m.msgType == PARTNER_JOIN2 && |Listed(m)| > MAX_PAYLOAD / 4))
            && (Overruns(m) ==> s.past.longest > MAX_PAYLOAD || s.past.peak > MAX_PAYLOAD / 4 + 1)
  {
    var s := After(Start(roomId), ls);
    FramedReachable(roomId, ls);
    InvStart(roomId);
    BoundedRun(Start(roomId), ls);
    var m := s.senders[i].msg;
    assert Bounded(m, s.past);
    OverrunsByLength(m);
    if m.msgType == PARTNER_JOIN2 {
      DecodeSize(m.data.value.bytes);
    }
  }

  /** Such media are real: for every length a C int holds there is a run with a sender that holds a text of
      that length. */
  lemma {:induction false} AnyLengthIsHeld(r: Rule, roomId: u32, len: nat)
    requires len < 0x8000_0000
    ensures exists t :: Reaches(r, Begin(roomId), t) && Held(t, 0) && t.senders[0].msg.len == len
                        && (Overruns(t.senders[0].msg) <==> len > MAX_PAYLOAD)
                        && t.past.peak == 2 && t.past.longest == len
  {
    var s := Begin(roomId);
    var t := MediaRuns.Together(r, roomId);
    ghost var id := t.heap.next;
    t := MediaRuns.GuestSpeaks(r, s, t, len, 65);
    t := MediaRuns.ThreeSettle(r, s, t);
    assert t.queue == [MediaRuns.Text(len, 65, id)];
    t := Hold(r, s, t, 0);
    OverrunsByLength(t.senders[0].msg);
  }

  /** In every run of a room that never has more than `members` members and reads no media header that
      announces more than `longest` bytes. */
  ghost predicate NeverOverruns(roomId: u32, members: nat, longest: nat) {
    forall ls :: Legal(Start(roomId), ls) && Modest(After(Start(roomId), ls), members, longest) ==>
      NoneOverruns(After(Start(roomId), ls))
  }

  predicate NoneOverruns(s: Room) {
    forall i :: 0 <= i < |s.senders| && Held(s, i) ==> !Overruns(s.senders[i].msg)
  }

  predicate Modest(s: Room, members: nat, longest: nat) {
    s.past.peak <= members && s.past.longest <= longest
  }

  /** With fewer members than a list has room for, no sender ever overruns its buffer if and only if no
      header announces more than a client accepts. */
  lemma {:induction false} NeverOverrunsExact(roomId: u32, members: nat, longest: nat)
    requires 2 <= members <= MAX_PAYLOAD / 4 + 1
    ensures NeverOverruns(roomId, members, longest) <==> longest <= MAX_PAYLOAD
  {
    if longest <= MAX_PAYLOAD {
      forall ls | Legal(Start(roomId), ls) && Modest(After(Start(roomId), ls), members, longest)
        ensures NoneOverruns(After(Start(roomId), ls))
      {
        var s := After(Start(roomId), ls);
        forall i | 0 <= i < |s.senders| && Held(s, i) ensures !Overruns(s.senders[i].msg) {
          OverrunExact(roomId, ls, i);
        }
      }
    } else {
      TooLong(roomId, members, longest);
    }
  }

  lemma {:induction false} TooLong(roomId: u32, members: nat, longest: nat)
    requires members >= 2 && longest > MAX_PAYLOAD
    ensures !NeverOverruns(roomId, members, longest)
  {
    var r := Schedule(1, true);
    AnyLengthIsHeld(r, roomId, MAX_PAYLOAD + 1);
    var t :| Reaches(r, Begin(roomId), t) && Held(t, 0) && t.senders[0].msg.len == MAX_PAYLOAD + 1
             && Overruns(t.senders[0].msg) && t.past.peak == 2 && t.past.longest == MAX_PAYLOAD + 1;
    var ls :| RunBy(r, Begin(roomId), ls) && Legal(Begin(roomId), ls) && After(Begin(roomId), ls) == t;
    var l := Outside(HandCreate(HOST, HOST_IP));
    var all := [l] + ls;
    assert all[1..] == ls && Step(Start(roomId), l) == Begin(roomId);
    assert Legal(Start(roomId), all) && After(Start(roomId), all) == t;
    assert Modest(t, members, longest);
  }
}
