/** Who is in a room: the invariant that ties the member list, the address map, the select set and
    the counter together while the room is open, and the proof that closing is final. */
module Membership {
  import opened Wire
  import opened NetMsg
  import opened Pool
  import opened Room

  /** A connection on its way into the room. */
  predicate Fresh(fd: Fd, n: Net, active: seq<Fd>) {
    fd > 0 && fd in n.peer && fd !in active && fd !in n.closed
  }

  function InHand(a: AcceptPc): (c: Option<ClientConn>) {
    if a.AcceptGot? then Some(a.conn) else None
  }

  ghost predicate QueueFresh(conns: seq<ClientConn>, n: Net, active: seq<Fd>) {
    forall i :: 0 <= i < |conns| && conns[i].cmd != Stop ==> Fresh(conns[i].sockfd, n, active)
  }

  ghost predicate QueueDistinct(conns: seq<ClientConn>) {
    forall i, j :: 0 <= i < j < |conns| && conns[i].cmd != Stop && conns[j].cmd != Stop ==>
      conns[i].sockfd != conns[j].sockfd
  }

  ghost predicate NotQueued(conns: seq<ClientConn>, fd: Fd) {
    forall i :: 0 <= i < |conns| && conns[i].cmd != Stop ==> conns[i].sockfd != fd
  }

  ghost predicate Waiting(conns: seq<ClientConn>, hand: Option<ClientConn>, n: Net, active: seq<Fd>) {
    && QueueFresh(conns, n, active) && QueueDistinct(conns)
    && (hand.Some? && hand.value.cmd != Stop ==>
          Fresh(hand.value.sockfd, n, active) && NotQueued(conns, hand.value.sockfd))
  }

  predicate CreatorInHand(hand: Option<ClientConn>) {
    hand.Some? && hand.value.cmd == Create
  }

  predicate CreatorQueued(conns: seq<ClientConn>) {
    exists i :: 0 <= i < |conns| && conns[i].cmd == Create
  }

  /** A room receives one 'C' in all, and only it sets an owner. */
  ghost predicate OneCreator(conns: seq<ClientConn>, hand: Option<ClientConn>, owner: Fd, on: bool, created: bool) {
    && (!created ==> owner == 0 && on)
    && (!created || owner != 0 || !on ==> !CreatorInHand(hand) && !CreatorQueued(conns))
    && !(CreatorInHand(hand) && CreatorQueued(conns))
    && (forall i, j :: 0 <= i < j < |conns| ==> !(conns[i].cmd == Create && conns[j].cmd == Create))
  }

  /** The open-room invariant. */
  ghost predicate OpenRoom(p: PoolState, peak: nat, n: Net) {
    && NoDup(p.activeFds)
    && p.num == |p.activeFds| <= peak
    && p.fdToIp.Keys == Elems(p.activeFds)
    && p.fdset <= Elems(p.activeFds)
    && (peak <= FD_SETSIZE ==> p.fdset == Elems(p.activeFds))
    && (forall fd :: fd in p.activeFds ==> Live(fd, p, n))
    && (p.owner == 0 || p.owner in p.activeFds)
  }

  predicate Live(fd: Fd, p: PoolState, n: Net) {
    fd > 0 && fd !in n.closed && fd in n.peer && fd in p.fdToIp && p.fdToIp[fd] == n.peer[fd]
  }

  predicate ShutRoom(p: PoolState, created: bool) {
    p.activeFds == [] && p.owner == 0 && created
  }

  function PassOf(pc: RoomPc): (p: Option<Pass>) {
    match pc
    case Passing(p) => Some(p)
    case Reading(_, _, p) => Some(p)
    case Closing(_, p) => Some(p)
    case Clearing(p) => Some(p)
    case Pushing(_, p) => Some(p)
    case _ => None
  }

  predicate HasCurrent(pc: RoomPc) {
    pc.Reading? || pc.Closing?
  }

  /** The sockets still to be looked at are members, each once, until the room closes; then they
      are closed. */
  ghost predicate TodoSound(todo: seq<Fd>, on: bool, active: seq<Fd>, closed: set<Fd>) {
    NoDup(todo) && forall fd :: fd in todo ==> if on then fd in active else fd in closed
  }

  ghost predicate PassSound(pc: RoomPc, on: bool, active: seq<Fd>, closed: set<Fd>) {
    && (pc.Selecting? || pc.Selected? || pc.Reading? ==> on)
    && (pc.Clearing? || pc.JoiningAccept? || pc.JoiningSenders? || pc.Finished? ==> !on)
    && (pc.Selecting? ==> pc.rset <= Elems(active))
    && (pc.Selected? ==> pc.ready <= Elems(active))
    && (PassOf(pc).Some? ==> TodoSound(PassOf(pc).value.todo, on, active, closed))
    && (HasCurrent(pc) ==>
          pc.fd !in pc.pass.todo && pc.fd > 0 && if on then pc.fd in active else pc.fd in closed)
  }

  ghost predicate Inv(s: Room) {
    && Waiting(s.conns, InHand(s.accept), s.net, s.pool.activeFds)
    && OneCreator(s.conns, InHand(s.accept), s.pool.owner, s.pool.on, s.past.created)
    && PassSound(s.room, s.pool.on, s.pool.activeFds, s.net.closed)
    && s.pool.on == !s.shutdown && (s.down ==> !s.pool.on)
    && (if s.pool.on then OpenRoom(s.pool, s.past.peak, s.net) else ShutRoom(s.pool, s.past.created))
    && (forall fd :: fd in s.net.closed ==> fd in s.net.peer && fd > 0)
  }

  lemma OutsideKeeps(s: Room, l: OutsideStep)
    requires Inv(s) && OutsideEnabled(s, l)
    ensures Inv(OutsideNext(s, l))
  {
    var t := OutsideNext(s, l);
    if l.HandCreate? || l.HandJoin? {
      var c := ClientConn(if l.HandCreate? then Create else Join, l.fd);
      assert Waiting(s.conns, InHand(s.accept), t.net, s.pool.activeFds);
    }
  }

  lemma AcceptKeeps(s: Room, l: AcceptStep)
    requires Inv(s) && AcceptEnabled(s, l)
    ensures Inv(AcceptNext(s, l))
  {
    match l
    case TakeConn =>
    case AcceptStop =>
    case PushCreated =>
    case RejectJoiner =>
    case PushJoin =>
    case PushList =>
    case AdmitCreator => AdmitKeeps(s, l);
    case AdmitJoiner => AdmitKeeps(s, l);
    case TakeList => TakeListKeeps(s);
  }

  lemma TakeListKeeps(s: Room)
    requires Inv(s) && AcceptEnabled(s, TakeList)
    ensures Inv(AcceptNext(s, TakeList))
  {
    SelectIsFilter(s.pool.activeFds, s.accept.fd, false);
    if s.pool.on {
      assert AcceptNext(s, TakeList).pool.fdToIp == s.pool.fdToIp;
    } else {
      assert Others(s.pool, s.accept.fd) == [];
    }
  }

  lemma {:induction false} AdmitKeeps(s: Room, l: AcceptStep)
    requires Inv(s) && AcceptEnabled(s, l) && (l.AdmitCreator? || l.AdmitJoiner?)
    ensures Inv(AcceptNext(s, l))
  {
    var t := AcceptNext(s, l);
    var fd := s.accept.conn.sockfd;
    assert s.pool.on;
    OpenRoomAdmits(s.pool, t.pool, s.past.peak, t.past.peak, s.net, fd);
    assert forall x :: x in s.pool.activeFds ==> x in t.pool.activeFds;
  }

  lemma {:induction false} OpenRoomAdmits(p: PoolState, q: PoolState, peak: nat, peak': nat, n: Net, fd: Fd)
    requires OpenRoom(p, peak, n) && Fresh(fd, n, p.activeFds)
    requires q.activeFds == p.activeFds + [fd] && q.num == p.num + 1 && q.fdToIp == p.fdToIp[fd := n.peer[fd]]
    requires q.fdset == FdSet(p.fdset, fd) && (q.owner == p.owner || q.owner == fd)
    requires peak' == if |p.activeFds| + 1 > peak then |p.activeFds| + 1 else peak
    ensures OpenRoom(q, peak', n)
  {
    AppendElems(p.activeFds, fd);
    FdSetAdmits(p.activeFds, p.fdset, fd);
    forall x | x in q.activeFds ensures Live(x, q, n) {
      assert x == fd || Live(x, p, n);
    }
  }

  lemma AppendElems(a: seq<Fd>, fd: Fd)
    ensures Elems(a + [fd]) == Elems(a) + {fd}
    ensures NoDup(a) && fd !in a ==> NoDup(a + [fd])
    ensures forall x :: x in a + [fd] <==> x in a || x == fd
  {
  }

  lemma FdSetAdmits(a: seq<Fd>, fdset: set<Fd>, fd: Fd)
    requires NoDup(a) && fd !in a && fdset <= Elems(a)
    ensures FdSet(fdset, fd) <= Elems(a) + {fd}
    ensures fdset == Elems(a) && |a| + 1 <= FD_SETSIZE ==> FdSet(fdset, fd) == Elems(a) + {fd}
  {
    NoDupSize(a);
  }

  lemma {:induction false} RoomKeeps(s: Room, l: RoomStep)
    requires Inv(s) && RoomEnabled(s, l)
    ensures Inv(RoomNext(s, l))
  {
    match l
    case EvictMember => EvictKeeps(s);
    case CloseRoom =>
    case StopAccept =>
    case ReadHeader(kind, len, bytes) => ReadKeeps(s, l);
    case ReadBad => ReadKeeps(s, l);
    case ReadShort => ReadKeeps(s, l);
    case ReadCamera(ip) => ReadKeeps(s, l);
    case SkipIdle => ReadKeeps(s, l);
    case ClearQueue => PushKeeps(s, l);
    case RoomPush => PushKeeps(s, l);
    case AcceptJoinedBack => PushKeeps(s, l);
    case SendersJoinedBack => PushKeeps(s, l);
    case _ => CursorKeeps(s, l);
  }

  lemma ReadKeeps(s: Room, l: RoomStep)
    requires Inv(s) && RoomEnabled(s, l)
    requires l.ReadHeader? || l.ReadBad? || l.ReadShort? || l.ReadCamera? || l.SkipIdle?
    ensures Inv(RoomNext(s, l))
  {
    TodoHead(s.room.pass.todo, s.pool.on, s.pool.activeFds, s.net.closed);
  }

  lemma PushKeeps(s: Room, l: RoomStep)
    requires Inv(s) && RoomEnabled(s, l)
    requires l.ClearQueue? || l.RoomPush? || l.AcceptJoinedBack? || l.SendersJoinedBack?
    ensures Inv(RoomNext(s, l))
  {
  }

  lemma CursorKeeps(s: Room, l: RoomStep)
    requires Inv(s) && RoomEnabled(s, l)
    requires l.CopyFdset? || l.SelectReady? || l.TakeSnapshot? || l.EndPass? || l.PayloadGood? || l.PayloadBad?
    ensures Inv(RoomNext(s, l))
  {
  }

  lemma TodoHead(todo: seq<Fd>, on: bool, active: seq<Fd>, closed: set<Fd>)
    requires todo != [] && TodoSound(todo, on, active, closed)
    ensures TodoSound(todo[1..], on, active, closed)
    ensures todo[0] !in todo[1..] && if on then todo[0] in active else todo[0] in closed
  {
    var fd := todo[0];
    assert fd in todo;
  }

  lemma EvictKeeps(s: Room)
    requires Inv(s) && RoomEnabled(s, EvictMember)
    ensures Inv(RoomNext(s, EvictMember))
  {
    var t := RoomNext(s, EvictMember);
    var fd := s.room.fd;
    if s.pool.on {
      WithoutIsErase(s.pool.activeFds, fd);
      OpenRoomEvicts(s.pool, s.past.peak, s.net, fd);
    }
  }

  lemma OpenRoomEvicts(p: PoolState, peak: nat, n: Net, fd: Fd)
    requires OpenRoom(p, peak, n) && fd in p.activeFds && fd != p.owner
    ensures OpenRoom(Evict(p, fd), peak, n.(closed := n.closed + {fd}))
  {
    var q := Evict(p, fd);
    WithoutIsErase(p.activeFds, fd);
    assert forall x :: x in Elems(q.activeFds) <==> x in Elems(p.activeFds) - {fd};
    assert Elems(q.activeFds) == Elems(p.activeFds) - {fd};
  }

  lemma SenderKeeps(s: Room, i: nat, l: SenderStep)
    requires Inv(s) && SenderEnabled(s, i, l)
    ensures Inv(SenderNext(s, i, l))
  {
  }

  lemma {:induction false} InvStep(s: Room, l: Label)
    requires Inv(s) && Enabled(s, l)
    ensures Inv(Step(s, l))
  {
    match l
    case Outside(o) => OutsideKeeps(s, o);
    case Accept(a) => AcceptKeeps(s, a);
    case RoomThread(r) => RoomKeeps(s, r);
    case Sender(i, d) => SenderKeeps(s, i, d);
  }

  /** Only a hand-over brings a room a new address. */
  lemma {:induction false} PeersStay(s: Room, l: Label)
    requires Enabled(s, l) && (l.Outside? ==> l.o.ClientReads?)
    ensures Step(s, l).net.peer == s.net.peer
  {
    match l
    case Outside(o) =>
    case Accept(a) => PeersStayAccept(s, a);
    case RoomThread(r) => PeersStayRoom(s, r);
    case Sender(i, d) => assert SenderNext(s, i, d).net.peer == s.net.peer;
  }

  lemma {:induction false} PeersStayAccept(s: Room, a: AcceptStep)
    requires AcceptEnabled(s, a)
    ensures AcceptNext(s, a).net.peer == s.net.peer
  {
  }

  lemma {:induction false} PeersStayRoom(s: Room, r: RoomStep)
    requires RoomEnabled(s, r)
    ensures RoomNext(s, r).net.peer == s.net.peer
  {
  }

  lemma {:induction false} InvRun(s: Room, ls: seq<Label>)
    requires Inv(s) && Legal(s, ls)
    ensures Inv(After(s, ls))
    decreases |ls|
  {
    if ls != [] {
      InvStep(s, ls[0]);
      InvRun(Step(s, ls[0]), ls[1..]);
    }
  }

  lemma InvStart(roomId: u32)
    ensures Inv(Start(roomId))
  {
  }

  lemma InvReachable(roomId: u32, ls: seq<Label>)
    requires Legal(Start(roomId), ls)
    ensures Inv(After(Start(roomId), ls))
  {
    InvRun(Start(roomId), ls);
  }

  /** In every reachable state of an open room the members are listed once each, the counter is
      their number, the address map has exactly their sockets with their peers' addresses, and the
      select set is a subset of them: all of them as long as there were never more than FD_SETSIZE. */
  lemma OpenRoomAlways(roomId: u32, ls: seq<Label>)
    requires Legal(Start(roomId), ls)
    ensures var s := After(Start(roomId), ls);
            s.pool.on ==>
              && NoDup(s.pool.activeFds) && s.pool.num == |s.pool.activeFds|
              && s.pool.fdToIp.Keys == Elems(s.pool.activeFds)
              && (forall fd :: fd in s.pool.activeFds ==> s.pool.fdToIp[fd] == Peer(s, fd) && fd !in s.net.closed)
              && s.pool.fdset <= Elems(s.pool.activeFds)
              && (s.past.peak <= FD_SETSIZE ==> s.pool.fdset == Elems(s.pool.activeFds))
              && (s.pool.owner == 0 || s.pool.owner in s.pool.activeFds)
  {
    InvReachable(roomId, ls);
    var s := After(Start(roomId), ls);
    if s.pool.on {
      forall fd | fd in s.pool.activeFds
        ensures fd in s.pool.fdToIp && s.pool.fdToIp[fd] == Peer(s, fd) && fd !in s.net.closed
      {
        assert Live(fd, s.pool, s.net);
      }
    }
  }

  lemma {:induction false} ShutStep(s: Room, l: Label)
    requires Inv(s) && !s.pool.on && Enabled(s, l)
    ensures !Step(s, l).pool.on
  {
    match l
    case Outside(o) => assert OutsideNext(s, o).pool == s.pool;
    case Accept(a) => assert !AcceptNext(s, a).pool.on;
    case RoomThread(r) => assert !RoomNext(s, r).pool.on;
    case Sender(i, d) => assert SenderNext(s, i, d).pool == s.pool;
  }

  lemma {:induction false} ShutRun(s: Room, ls: seq<Label>)
    requires Inv(s) && !s.pool.on && Legal(s, ls)
    ensures Inv(After(s, ls)) && !After(s, ls).pool.on
    decreases |ls|
  {
    if ls != [] {
      InvStep(s, ls[0]);
      ShutStep(s, ls[0]);
      ShutRun(Step(s, ls[0]), ls[1..]);
    }
  }

  /** Closing is final: once the owner's exit has cleared the room, no step of any thread opens it
      again or lets anybody in, however many connections are still handed over. */
  lemma CloseIsFinal(roomId: u32, ls: seq<Label>, more: seq<Label>)
    requires Legal(Start(roomId), ls) && !After(Start(roomId), ls).pool.on
    requires Legal(After(Start(roomId), ls), more)
    ensures var t := After(After(Start(roomId), ls), more);
            !t.pool.on && t.pool.activeFds == [] && t.pool.owner == 0 && t.shutdown
  {
    InvReachable(roomId, ls);
    ShutRun(After(Start(roomId), ls), more);
  }
}
