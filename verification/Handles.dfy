/** Every socket a room ever touches was handed to it, and every socket it acts on was admitted. */
module Handles {
  import opened Wire
  import opened NetMsg
  import opened Pool
  import opened Room
  import opened Membership

  /** Only an exit message and a pill name no socket. */
  predicate Names(m: NetMsg, fds: set<Fd>) {
    m.targetfd in fds || (m.targetfd == INVALID_SOCKET && (m.msgType == PARTNER_EXIT || m.msgType == POISON))
  }

  ghost predicate QueueNames(q: seq<NetMsg>, fds: set<Fd>) {
    forall k :: 0 <= k < |q| ==> Names(q[k], fds)
  }

  predicate SenderNames(p: SenderPc, fds: set<Fd>) {
    match p
    case Holding(m) => Names(m, fds)
    case Sending(m, todo) => Names(m, fds) && forall fd <- todo :: fd in fds
    case _ => true
  }

  ghost predicate SendersName(ps: seq<SenderPc>, fds: set<Fd>) {
    forall i :: 0 <= i < |ps| ==> SenderNames(ps[i], fds)
  }

  predicate AcceptNames(pc: AcceptPc, fds: set<Fd>) {
    match pc
    case AcceptCreated(m) => m.targetfd in fds
    case AcceptJoined(fd, ip) => fd in fds
    case AcceptAnnounced(fd) => fd in fds
    case AcceptListed(m) => m.targetfd in fds
    case _ => true
  }

  predicate RoomNames(pc: RoomPc, fds: set<Fd>) {
    && (PassOf(pc).Some? ==> forall fd <- PassOf(pc).value.todo :: fd in fds)
    && (match pc
        case Reading(fd, m, _) => fd in fds && Names(m, fds)
        case Closing(fd, _) => fd in fds
        case Pushing(m, _) => Names(m, fds)
        case _ => true)
  }

  /** All sockets named anywhere behind the admission are in `fds`. */
  ghost predicate ActsOn(s: Room, fds: set<Fd>) {
    && (forall fd <- s.pool.activeFds :: fd in fds)
    && QueueNames(s.queue, fds) && SendersName(s.senders, fds)
    && AcceptNames(s.accept, fds) && RoomNames(s.room, fds)
    && s.net.inbox.Keys <= fds && s.net.partner.Keys <= fds
  }

  ghost predicate WaitingUnadmitted(s: Room) {
    && (forall i :: 0 <= i < |s.conns| && s.conns[i].cmd != Stop ==> s.conns[i].sockfd !in s.past.admitted)
    && (s.accept.AcceptGot? && s.accept.conn.cmd != Stop ==> s.accept.conn.sockfd !in s.past.admitted)
  }

  ghost predicate OwnSockets(s: Room) {
    && ActsOn(s, s.past.admitted) && s.past.admitted <= s.net.peer.Keys && WaitingUnadmitted(s)
    && (forall fd <- s.net.peer.Keys :: fd > 0)
  }

  lemma OwnAccept(s: Room, l: AcceptStep)
    requires Inv(s) && OwnSockets(s) && AcceptEnabled(s, l)
    ensures OwnSockets(AcceptNext(s, l))
  {
    var t := AcceptNext(s, l);
    if l.AdmitCreator? || l.AdmitJoiner? {
      AppendElems(s.pool.activeFds, s.accept.conn.sockfd);
    }
  }

  lemma {:induction false} OwnRoom(s: Room, l: RoomStep)
    requires Inv(s) && OwnSockets(s) && RoomEnabled(s, l)
    ensures OwnSockets(RoomNext(s, l))
  {
    match l
    case EvictMember =>
      WithoutElems(s.pool.activeFds, s.room.fd);
    case ReadHeader(kind, len, bytes) =>
    case ReadBad =>
    case ReadShort =>
    case ReadCamera(ip) =>
    case SkipIdle =>
    case _ => OwnQuiet(s, l);
  }

  lemma OwnQuiet(s: Room, l: RoomStep)
    requires Inv(s) && OwnSockets(s) && RoomEnabled(s, l)
    requires !l.ReadHeader? && !l.ReadBad? && !l.ReadShort? && !l.ReadCamera? && !l.SkipIdle? && !l.EvictMember?
    ensures OwnSockets(RoomNext(s, l))
  {
  }

  lemma {:induction false} WithoutElems(s: seq<Fd>, fd: Fd)
    ensures forall x :: x in Without(s, fd) ==> x in s
  {
    if s != [] {
      WithoutElems(s[1..], fd);
      assert s == [s[0]] + s[1..];
    }
  }

  lemma OwnSender(s: Room, i: nat, l: SenderStep)
    requires OwnSockets(s) && SenderEnabled(s, i, l)
    ensures OwnSockets(SenderNext(s, i, l))
  {
    if l.FindTargets? {
      SelectIsFilter(s.pool.activeFds, s.senders[i].msg.targetfd, false);
      SelectIsFilter(s.pool.activeFds, s.senders[i].msg.targetfd, true);
    }
  }

  lemma OwnStep(s: Room, l: Label)
    requires Inv(s) && OwnSockets(s) && Enabled(s, l)
    ensures OwnSockets(Step(s, l))
  {
    match l
    case Outside(o) =>
    case Accept(a) => OwnAccept(s, a);
    case RoomThread(r) => OwnRoom(s, r);
    case Sender(i, d) => OwnSender(s, i, d);
  }

  /** In every run, every socket that a room's messages, targets, lists and inboxes name was admitted
      to it, and every socket admitted to it was handed to it. */
  lemma OwnAlways(roomId: u32, ls: seq<Label>)
    requires Legal(Start(roomId), ls)
    ensures OwnSockets(After(Start(roomId), ls))
  {
    OwnRun(Start(roomId), ls);
  }

  lemma {:induction false} OwnRun(s: Room, ls: seq<Label>)
    requires Inv(s) && OwnSockets(s) && Legal(s, ls)
    ensures OwnSockets(After(s, ls))
    decreases |ls|
  {
    if ls != [] {
      InvStep(s, ls[0]);
      OwnStep(s, ls[0]);
      OwnRun(Step(s, ls[0]), ls[1..]);
    }
  }
}
