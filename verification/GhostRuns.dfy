/** Runs that leave a ghost on the creator's screen, one for each way out of the schedule of roster
    exactness; and a run that leaves two members unaware of each other. */
module GhostRuns {
  import opened Wire
  import opened NetMsg
  import opened Pool
  import opened Room
  import Roster
  import Ghosts

  // How many senders take part, and whether a join is one step with respect to evictions.
  datatype Schedule = Schedule(senders: nat, atomic: bool)
  type Rule = r: Schedule | r.senders >= 1 witness Schedule(1, true)

  predicate Obeys(r: Rule, s: Room, l: Label) {
    && (l.Sender? ==> l.i < r.senders)
    && (r.atomic && l == RoomThread(EvictMember) ==> !Ghosts.JoinUnderWay(s.accept))
  }

  predicate RunBy(r: Rule, s: Room, ls: seq<Label>)
    decreases |ls|
  {
    ls == [] || (Enabled(s, ls[0]) && Obeys(r, s, ls[0]) && RunBy(r, Step(s, ls[0]), ls[1..]))
  }

  ghost predicate Reaches(r: Rule, s: Room, t: Room) {
    exists ls :: RunBy(r, s, ls) && Legal(s, ls) && After(s, ls) == t
  }

  lemma {:induction false} RunAppend(r: Rule, s: Room, ls: seq<Label>, l: Label)
    requires RunBy(r, s, ls) && Legal(s, ls) && Enabled(After(s, ls), l) && Obeys(r, After(s, ls), l)
    ensures RunBy(r, s, ls + [l]) && Legal(s, ls + [l]) && After(s, ls + [l]) == Step(After(s, ls), l)
    decreases |ls|
  {
    if ls == [] {
      assert ls + [l] == [l];
      assert [l][1..] == [];
    } else {
      RunAppend(r, Step(s, ls[0]), ls[1..], l);
      assert (ls + [l])[1..] == ls[1..] + [l];
    }
  }

  lemma Go(r: Rule, s: Room, t: Room, l: Label) returns (u: Room)
    requires Reaches(r, s, t) && Enabled(t, l) && Obeys(r, t, l)
    ensures u == Step(t, l) && Reaches(r, s, u)
  {
    u := Step(t, l);
    var ls :| RunBy(r, s, ls) && Legal(s, ls) && After(s, ls) == t;
    RunAppend(r, s, ls, l);
  }

  // The creator is connection 1 at address 11, the guest connection 2 at address 22.
  const HOST: Fd := 1
  const GUEST: Fd := 2
  const HOST_IP: u32 := 11
  const GUEST_IP: u32 := 22

  function Begin(roomId: u32): (s: Room) {
    Opened(roomId, HOST, HOST_IP)
  }

  /** The host is in, the guest has just been admitted and not yet announced. */
  ghost predicate GuestIn(t: Room) {
    && t.pool == PoolState(true, HOST, 2, [HOST, GUEST], map[HOST := HOST_IP, GUEST := GUEST_IP], {HOST, GUEST})
    && t.accept == AcceptJoined(GUEST, GUEST_IP) && t.room == Looping && !t.shutdown && !t.down
    && |t.queue| == 1 && t.queue[0].msgType == CREATE_MEETING_RESPONSE && t.queue[0].targetfd == HOST
    && AllIdle(t) && t.net == Net(map[HOST := HOST_IP, GUEST := GUEST_IP], {}, map[], map[]) && t.conns == []
    && t.past.peak == 2 && t.past.longest == 0
  }

  ghost predicate AllIdle(t: Room) {
    |t.senders| == SENDTHREADSIZE && forall i :: 0 <= i < |t.senders| ==> t.senders[i] == SenderIdle
  }

  /** The host is in and its reply is queued. */
  ghost predicate HostIn(t: Room) {
    && t.pool == PoolState(true, HOST, 1, [HOST], map[HOST := HOST_IP], {HOST})
    && t.accept == AcceptIdle && t.room == Looping && !t.shutdown && !t.down
    && |t.queue| == 1 && t.queue[0].msgType == CREATE_MEETING_RESPONSE && t.queue[0].targetfd == HOST
    && AllIdle(t) && t.net == Net(map[HOST := HOST_IP], {}, map[], map[]) && t.conns == []
    && t.past.peak == 1 && t.past.longest == 0
  }

  lemma HostArrives(r: Rule, roomId: u32) returns (t: Room)
    ensures Reaches(r, Begin(roomId), t) && HostIn(t)
  {
    var s := Begin(roomId);
    assert RunBy(r, s, []) && Legal(s, []) && After(s, []) == s;
    t := Go(r, s, s, Accept(TakeConn));
    t := Go(r, s, t, Accept(AdmitCreator));
    t := Go(r, s, t, Accept(PushCreated));
  }

  lemma Arrival(r: Rule, roomId: u32) returns (t: Room)
    ensures Reaches(r, Begin(roomId), t) && GuestIn(t)
  {
    var s := Begin(roomId);
    t := HostArrives(r, roomId);
    t := Go(r, s, t, Outside(HandJoin(GUEST, GUEST_IP)));
    t := Go(r, s, t, Accept(TakeConn));
    t := Go(r, s, t, Accept(AdmitJoiner));
  }

  /** The guest's socket fails and the room thread evicts it. */
  lemma Departure(r: Rule, s: Room, a: Room) returns (t: Room)
    requires r.atomic ==> !Ghosts.JoinUnderWay(a.accept)
    requires Reaches(r, s, a) && a.room == Looping && !a.shutdown && !a.down && |a.queue| < 10
    requires a.pool == PoolState(true, HOST, 2, [HOST, GUEST], map[HOST := HOST_IP, GUEST := GUEST_IP], {HOST, GUEST})
    ensures Reaches(r, s, t)
    ensures t.pool.on && t.pool.activeFds == [HOST] && t.pool.owner == HOST && t.room == Looping && !t.down
    ensures t.queue == a.queue + [NetMsg(PARTNER_EXIT, GUEST_IP, INVALID_SOCKET, 0, None)]
    ensures t.accept == a.accept && t.senders == a.senders && t.conns == a.conns
    ensures t.net == a.net.(closed := a.net.closed + {GUEST})
  {
    t := GuestReady(r, s, a);
    t := Go(r, s, t, RoomThread(ReadBad));
    t := Go(r, s, t, RoomThread(EvictMember));
    assert Without([HOST, GUEST], GUEST) == [HOST] by {
      assert [HOST, GUEST][1..] == [GUEST] && [GUEST][1..] == [];
    }
    t := Go(r, s, t, RoomThread(RoomPush));
  }

  /** The room thread comes to the guest's socket, the only one that is ready. */
  lemma GuestReady(r: Rule, s: Room, a: Room) returns (t: Room)
    requires Reaches(r, s, a) && a.room == Looping && !a.shutdown
    requires a.pool.activeFds == [HOST, GUEST] && a.pool.fdset == {HOST, GUEST}
    ensures Reaches(r, s, t)
    ensures t.room == Passing(Pass([GUEST], {GUEST}, 1, {})) && t == a.(room := t.room)
  {
    t := Go(r, s, a, RoomThread(CopyFdset));
    t := Go(r, s, t, RoomThread(SelectReady({GUEST})));
    t := Go(r, s, t, RoomThread(TakeSnapshot));
    t := Go(r, s, t, RoomThread(SkipIdle));
    assert t.room.pass.todo == [GUEST];
  }

  /** The accept thread finishes the join. */
  lemma Announcement(r: Rule, s: Room, a: Room) returns (t: Room)
    requires Reaches(r, s, a) && a.accept == AcceptJoined(GUEST, GUEST_IP) && !a.down && |a.queue| < 10
    ensures Reaches(r, s, t)
    ensures t.accept == AcceptIdle && t.room == a.room && t.senders == a.senders && t.net == a.net
    ensures t.shutdown == a.shutdown && t.down == a.down && t.conns == a.conns && t.past == a.past
    ensures t.pool.on == a.pool.on && t.pool.activeFds == a.pool.activeFds && t.pool.owner == a.pool.owner
    ensures a.pool.fdToIp.Keys == Elems(a.pool.activeFds) ==> t.pool == a.pool
    ensures |t.queue| == |a.queue| + 2 && t.queue[..|a.queue|] == a.queue
    ensures t.queue[|a.queue|] == JoinMsg(GUEST, GUEST_IP)
    ensures t.queue[|a.queue| + 1].msgType == PARTNER_JOIN2 && t.queue[|a.queue| + 1].targetfd == GUEST
  {
    t := Go(r, s, a, Accept(PushJoin));
    t := Snapshot(r, s, t);
    t := Go(r, s, t, Accept(PushList));
  }

  /** Making the list reads the addresses; where all the members have one nothing else changes. */
  lemma Snapshot(r: Rule, s: Room, a: Room) returns (t: Room)
    requires Reaches(r, s, a) && a.accept.AcceptAnnounced? && !a.down
    ensures Reaches(r, s, t)
    ensures t.accept.AcceptListed? && t.accept.list.msgType == PARTNER_JOIN2 && t.accept.list.targetfd == a.accept.fd
    ensures t == a.(accept := t.accept, pool := t.pool, heap := t.heap)
    ensures t.pool == a.pool.(fdToIp := t.pool.fdToIp)
    ensures a.pool.fdToIp.Keys == Elems(a.pool.activeFds) ==> t.pool == a.pool
  {
    t := Go(r, s, a, Accept(TakeList));
    SelectIsFilter(a.pool.activeFds, a.accept.fd, false);
    if a.pool.fdToIp.Keys == Elems(a.pool.activeFds) {
      assert forall x :: x in Others(a.pool, a.accept.fd) ==> x in Elems(a.pool.activeFds);
      assert t.pool.fdToIp.Keys == a.pool.fdToIp.Keys;
      assert t.pool.fdToIp == a.pool.fdToIp;
    }
  }

  /** Sender `i` takes the first message. */
  lemma Hold(r: Rule, s: Room, a: Room, i: nat) returns (t: Room)
    requires Reaches(r, s, a) && a.queue != [] && i < |a.senders| && a.senders[i] == SenderIdle
    requires a.queue[0].msgType != POISON && i < r.senders
    ensures Reaches(r, s, t)
    ensures t == a.(queue := a.queue[1..], senders := a.senders[i := Holding(a.queue[0])])
  {
    t := Go(r, s, a, Sender(i, Pop));
  }

  /** Sender `i`, with the host alone in the room, passes on what it holds. */
  lemma PassOn(r: Rule, s: Room, a: Room, i: nat) returns (t: Room)
    requires Reaches(r, s, a) && i < |a.senders| && a.senders[i].Holding?
    requires a.pool.activeFds == [HOST] && HOST !in a.net.closed
    requires Harmless(a.senders[i].msg) && i < r.senders
    ensures Reaches(r, s, t)
    ensures t.pool == a.pool && t.queue == a.queue && t.accept == a.accept && t.room == a.room
    ensures t.senders == a.senders[i := SenderIdle]
    ensures var m := a.senders[i].msg;
            if m.msgType == PARTNER_JOIN2 then t.net == a.net else t.net == Deliver(a.net, HOST, m)
  {
    var m := a.senders[i].msg;
    t := Aim(r, s, a, i);
    if m.msgType != PARTNER_JOIN2 {
      t := Go(r, s, t, Sender(i, WriteOne));
      assert [HOST][1..] == [];
    }
    t := Go(r, s, t, Sender(i, Release));
  }

  /** Sender `i` finds whom to write to: the host, unless the message is the list for the guest or
      is already about the host. */
  lemma Aim(r: Rule, s: Room, a: Room, i: nat) returns (t: Room)
    requires Reaches(r, s, a) && i < |a.senders| && a.senders[i].Holding?
    requires a.pool.activeFds == [HOST]
    requires Harmless(a.senders[i].msg) && i < r.senders
    ensures Reaches(r, s, t)
    ensures var m := a.senders[i].msg;
            t == a.(senders := a.senders[i := Sending(m, if m.msgType == PARTNER_JOIN2 then [] else [HOST])])
  {
    var m := a.senders[i].msg;
    OneSelected(HOST, m.targetfd, m.msgType == PARTNER_JOIN2);
    t := Go(r, s, a, Sender(i, FindTargets));
  }

  lemma OneSelected(x: Fd, fd: Fd, same: bool)
    ensures Select([x], fd, same) == if (x == fd) == same then [x] else []
  {
    assert [x][1..] == [];
  }

  /** The host reads its three messages. */
  lemma ThreeReads(r: Rule, s: Room, a: Room) returns (t: Room)
    requires Reaches(r, s, a) && |Inbox(a.net, HOST)| == 3
    ensures Reaches(r, s, t) && t == a.(net := t.net) && Inbox(t.net, HOST) == [] && t.net.peer == a.net.peer
    ensures var box, ps := Inbox(a.net, HOST), Partners(a.net, HOST);
            Partners(t.net, HOST) == ApplyMsg(ApplyMsg(ApplyMsg(ps, box[0], true), box[1], true), box[2], true)
  {
    t := Go(r, s, a, Outside(ClientReads(HOST, true)));
    t := Go(r, s, t, Outside(ClientReads(HOST, true)));
    t := Go(r, s, t, Outside(ClientReads(HOST, true)));
  }

  /** A ghost: the room is at rest, the host is alone, and still shows the guest. */
  ghost predicate HauntedAtRest(t: Room) {
    && t.pool.on && Roster.Quiescent(t) && Ghosts.Leaving(t.room) == {}
    && t.pool.activeFds == [HOST] && GUEST_IP in Partners(t.net, HOST) && Ghosts.OtherIps(t, HOST) == {}
    && t.net.peer == map[HOST := HOST_IP, GUEST := GUEST_IP]
  }

  /** Sender 0 takes and passes on one message; all senders are idle before and after. */
  lemma Serve(r: Rule, s: Room, a: Room) returns (t: Room)
    requires Reaches(r, s, a) && a.queue != [] && AllIdle(a)
    requires a.pool.activeFds == [HOST] && HOST !in a.net.closed
    requires Harmless(a.queue[0])
    ensures Reaches(r, s, t) && AllIdle(t)
    ensures t.pool == a.pool && t.queue == a.queue[1..] && t.accept == a.accept && t.room == a.room
    ensures t.net == if a.queue[0].msgType == PARTNER_JOIN2 then a.net else Deliver(a.net, HOST, a.queue[0])
  {
    t := Hold(r, s, a, 0);
    t := PassOn(r, s, t, 0);
  }

  /** What the host is sent, or not sent, while it is alone. */
  predicate Harmless(m: NetMsg) {
    || (m.msgType == CREATE_MEETING_RESPONSE && m.targetfd == HOST)
    || (IsBroadcast(m.msgType) && m.targetfd != HOST)
    || (m.msgType == PARTNER_JOIN2 && m.targetfd != HOST)
  }

  /** The host's last three messages are the reply, the exit and, too late, the join. */
  ghost predicate Misled(t: Room) {
    var box := Inbox(t.net, HOST);
    && t.pool.on && t.pool.activeFds == [HOST] && t.accept == AcceptIdle && t.queue == [] && AllIdle(t)
    && t.room == Looping && |box| == 3 && Partners(t.net, HOST) == {}
    && box[0].msgType == CREATE_MEETING_RESPONSE && box[1].msgType == PARTNER_EXIT
    && box[2] == JoinMsg(GUEST, GUEST_IP) && t.net.peer == map[HOST := HOST_IP, GUEST := GUEST_IP]
  }

  lemma MisledIsHaunted(r: Rule, s: Room, a: Room)
    requires Reaches(r, s, a) && Misled(a)
    ensures exists t :: Reaches(r, s, t) && HauntedAtRest(t)
  {
    var t := ThreeReads(r, s, a);
    assert Ghosts.OtherIps(t, HOST) == {};
    assert HauntedAtRest(t);
  }

  /** With any number of senders, one included: an eviction between the admission and the announcement
      of a guest puts the exit message in front of the join message. */
  lemma EvictionInsideJoin(r: Rule, roomId: u32)
    requires !r.atomic
    ensures exists t :: Reaches(r, Begin(roomId), t) && HauntedAtRest(t)
  {
    var s := Begin(roomId);
    var t := Arrival(r, roomId);
    t := Departure(r, s, t);
    t := Announcement(r, s, t);
    t := ServeFour(r, s, t);
    MisledIsHaunted(r, s, t);
  }

  lemma ServeFour(r: Rule, s: Room, a: Room) returns (t: Room)
    requires Reaches(r, s, a) && AllIdle(a) && |a.queue| == 4
    requires a.pool.activeFds == [HOST] && HOST !in a.net.closed && Inbox(a.net, HOST) == []
    requires forall k :: 0 <= k < 4 ==> Harmless(a.queue[k]) && (a.queue[k].msgType == PARTNER_JOIN2 <==> k == 3)
    ensures Reaches(r, s, t) && AllIdle(t)
    ensures t.pool == a.pool && t.queue == [] && t.accept == a.accept && t.room == a.room
    ensures t.net.partner == a.net.partner && t.net.peer == a.net.peer
    ensures Inbox(t.net, HOST) == [a.queue[0], a.queue[1], a.queue[2]]
  {
    t := Serve(r, s, a);
    t := Serve(r, s, t);
    t := Serve(r, s, t);
    t := Serve(r, s, t);
  }

  /** Even with joins in one piece: of two senders, the one that holds the join message may be
      overtaken by the one that holds the exit message. */
  lemma OvertakingSenders(r: Rule, roomId: u32)
    requires r.senders >= 2
    ensures exists t :: Reaches(r, Begin(roomId), t) && HauntedAtRest(t)
  {
    var s := Begin(roomId);
    var t := Arrival(r, roomId);
    assert t.pool.fdToIp.Keys == Elems(t.pool.activeFds);
    t := Announcement(r, s, t);
    t := Departure(r, s, t);
    t := Serve(r, s, t);
    t := Overtake(r, s, t);
    MisledIsHaunted(r, s, t);
  }

  /** Sender 0 takes the join message; sender 1 passes on the list and the exit; then sender 0 goes on. */
  lemma Overtake(r: Rule, s: Room, a: Room) returns (t: Room)
    requires r.senders >= 2
    requires Reaches(r, s, a) && AllIdle(a) && a.pool.activeFds == [HOST] && HOST !in a.net.closed
    requires |a.queue| == 3 && a.queue[0] == JoinMsg(GUEST, GUEST_IP)
    requires a.queue[1].msgType == PARTNER_JOIN2 && a.queue[1].targetfd == GUEST
    requires a.queue[2].msgType == PARTNER_EXIT && a.queue[2].targetfd == INVALID_SOCKET
    ensures Reaches(r, s, t) && AllIdle(t)
    ensures t.pool == a.pool && t.queue == [] && t.accept == a.accept && t.room == a.room
    ensures t.net == Deliver(Deliver(a.net, HOST, a.queue[2]), HOST, a.queue[0])
  {
    t := Hold(r, s, a, 0);
    t := Hold(r, s, t, 1);
    t := PassOn(r, s, t, 1);
    t := Hold(r, s, t, 1);
    t := PassOn(r, s, t, 1);
    t := PassOn(r, s, t, 0);
  }

  // ---------------------------------------------------------------------------------------
  // Why the creator has to come first
  // ---------------------------------------------------------------------------------------

  predicate AllRead(n: Net) {
    forall fd <- n.inbox :: n.inbox[fd] == []
  }

  /** Sender 0 takes the first message and passes it on to at most one member, which reads it. */
  lemma PassToOne(r: Rule, s: Room, a: Room, targets: seq<Fd>) returns (t: Room)
    requires Reaches(r, s, a) && a.queue != [] && a.queue[0].msgType != POISON && AllIdle(a)
    requires AllRead(a.net) && a.net.closed == {}
    requires targets == Targets(a.pool, a.queue[0]) && |targets| <= 1
    ensures Reaches(r, s, t)
    ensures t == a.(queue := a.queue[1..], net := t.net, heap := t.heap)
    ensures t.net.peer == a.net.peer && t.net.closed == {} && AllRead(t.net)
    ensures targets == [] ==> t.net == a.net
    ensures targets != [] ==>
              t.net.partner == a.net.partner[targets[0] := ApplyMsg(Partners(a.net, targets[0]), a.queue[0], true)]
  {
    t := WriteToOne(r, s, a, targets);
    if targets != [] {
      t := Go(r, s, t, Outside(ClientReads(targets[0], true)));
    }
  }

  lemma WriteToOne(r: Rule, s: Room, a: Room, targets: seq<Fd>) returns (t: Room)
    requires Reaches(r, s, a) && a.queue != [] && a.queue[0].msgType != POISON && AllIdle(a)
    requires targets == Targets(a.pool, a.queue[0]) && |targets| <= 1
    ensures Reaches(r, s, t)
    ensures t == a.(queue := a.queue[1..], net := t.net, heap := t.heap)
    ensures t.net == if targets == [] then a.net else Deliver(a.net, targets[0], a.queue[0])
  {
    t := Hold(r, s, a, 0);
    t := Go(r, s, t, Sender(0, FindTargets));
    if targets != [] {
      t := Go(r, s, t, Sender(0, WriteOne));
    }
    t := Go(r, s, t, Sender(0, Release));
    assert t.senders == a.senders;
  }

  /** Nothing of the room's traffic is left, and the guest is its only member. */
  ghost predicate GuestAlone(t: Room) {
    && t.pool == PoolState(true, 0, 1, [GUEST], map[GUEST := GUEST_IP], {GUEST})
    && t.accept == AcceptIdle && t.queue == [] && !t.down && t.conns == [ClientConn(Create, HOST)] && AllIdle(t)
    && t.room == Looping && t.net.peer == map[GUEST := GUEST_IP, HOST := HOST_IP] && t.net.closed == {}
    && AllRead(t.net) && Partners(t.net, GUEST) == Partners(t.net, HOST) == {}
  }

  /** The room as its threads find it when another acceptor found the published room and handed the
      guest over before the creator was handed over. */
  function Crowded(roomId: u32): (s: Room) {
    OutsideNext(OutsideNext(Start(roomId), HandJoin(GUEST, GUEST_IP)), HandCreate(HOST, HOST_IP))
  }

  lemma GuestEnters(r: Rule, roomId: u32) returns (t: Room)
    ensures Reaches(r, Crowded(roomId), t) && GuestAlone(t.(queue := [], accept := AcceptIdle))
    ensures t.accept == AcceptAnnounced(GUEST) && t.queue == [JoinMsg(GUEST, GUEST_IP)]
  {
    var s := Crowded(roomId);
    assert RunBy(r, s, []) && Legal(s, []) && After(s, []) == s;
    t := Go(r, s, s, Accept(TakeConn));
    t := Go(r, s, t, Accept(AdmitJoiner));
    t := Go(r, s, t, Accept(PushJoin));
  }

  /** The guest's arrival is announced to nobody, and its list is empty. */
  lemma GuestIsListed(r: Rule, roomId: u32) returns (t: Room)
    ensures Reaches(r, Crowded(roomId), t) && GuestAlone(t.(queue := []))
    ensures |t.queue| == 1 && Listed(t.queue[0]) == []
    ensures t.queue[0].msgType == PARTNER_JOIN2 && t.queue[0].targetfd == GUEST
  {
    var s := Crowded(roomId);
    t := GuestEnters(r, roomId);
    OneSelected(GUEST, GUEST, false);
    t := PassToOne(r, s, t, []);
    t := TakeEmptyList(r, s, t);
    t := Go(r, s, t, Accept(PushList));
  }

  lemma TakeEmptyList(r: Rule, s: Room, a: Room) returns (t: Room)
    requires Reaches(r, s, a) && a.accept == AcceptAnnounced(GUEST) && a.pool.activeFds == [GUEST]
    ensures Reaches(r, s, t) && t == a.(accept := t.accept, heap := t.heap)
    ensures t.accept.AcceptListed? && t.accept.list == ListMsg(GUEST, [], a.heap.next)
  {
    OneSelected(GUEST, GUEST, false);
    t := Go(r, s, a, Accept(TakeList));
  }

  lemma GuestSettles(r: Rule, roomId: u32) returns (t: Room)
    ensures Reaches(r, Crowded(roomId), t) && GuestAlone(t)
  {
    t := GuestIsListed(r, roomId);
    OneSelected(GUEST, GUEST, true);
    t := PassToOne(r, Crowded(roomId), t, [GUEST]);
  }

  /** At rest in an open room, two members that do not show each other; one came before the creator. */
  ghost predicate MissingAtRest(t: Room) {
    && t.pool.on && Roster.Quiescent(t) && Ghosts.Leaving(t.room) == {}
    && t.pool.activeFds == [GUEST, HOST] && t.pool.owner == HOST && t.past.early == {GUEST}
    && t.net.peer == map[GUEST := GUEST_IP, HOST := HOST_IP]
    && GUEST_IP !in Partners(t.net, HOST) && HOST_IP !in Partners(t.net, GUEST)
  }

  lemma HostFollows(r: Rule, s: Room, a: Room) returns (t: Room)
    requires Reaches(r, s, a) && GuestAlone(a)
    ensures Reaches(r, s, t) && t.pool.on && t.pool.activeFds == [GUEST, HOST] && t.pool.owner == HOST
    ensures t.accept == AcceptIdle && AllIdle(t) && t.room == Looping
    ensures |t.queue| == 1 && t.queue[0].msgType == CREATE_MEETING_RESPONSE && t.queue[0].targetfd == HOST
    ensures t.net == a.net && t.past.early == {GUEST}
  {
    t := Go(r, s, a, Accept(TakeConn));
    t := Go(r, s, t, Accept(AdmitCreator));
    t := Go(r, s, t, Accept(PushCreated));
  }

  /** The exemption in the roster theorem is real, even on the calmest schedule: a guest that is
      handed over between the publication of the room and the hand-over of its creator, and settles
      before the creator is admitted, and the creator never hear of each other. */
  lemma EarlyGuestIsMissed(r: Rule, roomId: u32)
    ensures exists t :: Reaches(r, Crowded(roomId), t) && MissingAtRest(t)
  {
    var s := Crowded(roomId);
    var t := GuestSettles(r, roomId);
    t := HostFollows(r, s, t);
    t := PassToOne(r, s, t, [HOST]);
    assert MissingAtRest(t);
  }
}
