/** Neither ghosts nor omissions: when the queue is drained by one sender and no member is evicted
    in the middle of a join, what a member shows, once everything on its way to it has been
    applied, is exactly the other members. */
module Ghosts {
  import opened Wire
  import opened NetMsg
  import opened Pool
  import opened Room
  import opened Membership
  import opened Handles
  import Roster

  predicate JoinUnderWay(pc: AcceptPc) {
    pc.AcceptJoined? || pc.AcceptAnnounced? || pc.AcceptListed?
  }

  /** The schedule: one sender, and each join one step with respect to `fdclose`. */
  predicate Calm(s: Room, l: Label) {
    && (l.Sender? ==> l.i == 0)
    && (l == RoomThread(EvictMember) ==> !JoinUnderWay(s.accept))
  }

  predicate CalmRun(s: Room, ls: seq<Label>)
    decreases |ls|
  {
    ls == [] || (Enabled(s, ls[0]) && Calm(s, ls[0]) && CalmRun(Step(s, ls[0]), ls[1..]))
  }

  predicate Aimed(m: NetMsg, a: Fd) {
    if IsBroadcast(m.msgType) then m.targetfd != a else m.msgType == PARTNER_JOIN2 && m.targetfd == a
  }

  /** The messages of a queue that will be passed on to `a`. */
  function For(ms: seq<NetMsg>, a: Fd): (ns: seq<NetMsg>) {
    if ms == [] then [] else (if Aimed(ms[0], a) then [ms[0]] else []) + For(ms[1..], a)
  }

  function ApplyAll(ps: set<u32>, ms: seq<NetMsg>): (qs: set<u32>)
    decreases |ms|
  {
    if ms == [] then ps else ApplyAll(ApplyMsg(ps, ms[0], true), ms[1..])
  }

  function InHandOf(ps: seq<SenderPc>, a: Fd): (ms: seq<NetMsg>) {
    if ps == [] then [] else
    match ps[0]
    case Holding(m) => For([m], a)
    case Sending(m, todo) => if a in todo then [m] else []
    case _ => []
  }

  /** Everything on its way to `a`, in the order in which it will arrive. */
  function Flow(s: Room, a: Fd): (ms: seq<NetMsg>) {
    Inbox(s.net, a) + InHandOf(s.senders, a) + For(s.queue, a)
  }

  function OtherIps(s: Room, a: Fd): (ips: set<u32>) {
    set fd | fd in s.pool.activeFds && fd != a :: Peer(s, fd)
  }

  /** The address whose exit is decided but not yet queued. */
  function Leaving(pc: RoomPc): (ips: set<u32>) {
    if pc.Pushing? && pc.msg.msgType == PARTNER_EXIT then {pc.msg.ip} else {}
  }

  // Stands for any connection that has not been admitted yet: it gets every broadcast.
  const NOBODY: Fd := -2

  predicate Watched(s: Room, a: Fd) {
    a in s.pool.activeFds || a == NOBODY
  }

  ghost predicate NoGhostFor(s: Room, a: Fd) {
    ApplyAll(Partners(s.net, a), Flow(s, a)) <= OtherIps(s, a) + Leaving(s.room)
  }

  ghost predicate NoGhost(s: Room) {
    s.pool.on ==> forall a :: Watched(s, a) ==> NoGhostFor(s, a)
  }

  predicate AcceptHonest(s: Room) {
    match s.accept
    case AcceptJoined(fd, ip) => fd in s.pool.activeFds
    case AcceptAnnounced(fd) => fd in s.pool.activeFds
    case AcceptListed(m) =>
      m.targetfd in s.pool.activeFds && forall ip <- Listed(m) :: ip in OtherIps(s, m.targetfd)
    case _ => true
  }

  predicate MediaHonest(s: Room, m: NetMsg) {
    || m.msgType == AUDIO_RECV || m.msgType == TEXT_RECV
    || (m.msgType == IMG_RECV && m.targetfd in s.pool.activeFds && m.ip == Peer(s, m.targetfd))
  }

  predicate RoomHonest(s: Room) {
    match s.room
    case Reading(fd, m, _) => MediaHonest(s, m)
    case Pushing(m, _) =>
      MediaHonest(s, m) || m.msgType == CLOSE_CAMERA || (m.msgType == PARTNER_EXIT && m.targetfd == INVALID_SOCKET)
    case _ => true
  }

  ghost predicate OneSender(ps: seq<SenderPc>) {
    && |ps| > 0
    && (forall i :: 0 < i < |ps| ==> ps[i].SenderIdle?)
    && (ps[0].Sending? ==> NoDup(ps[0].todo))
  }

  ghost predicate Honest(s: Room) {
    s.pool.on ==> AcceptHonest(s) && RoomHonest(s) && OneSender(s.senders)
  }

  // ---------------------------------------------------------------------------------------
  // Lists of messages
  // ---------------------------------------------------------------------------------------

  lemma {:induction false} ForAppend(ms: seq<NetMsg>, ns: seq<NetMsg>, a: Fd)
    ensures For(ms + ns, a) == For(ms, a) + For(ns, a)
  {
    if ms == [] {
      assert ms + ns == ns;
    } else {
      assert (ms + ns)[1..] == ms[1..] + ns;
      ForAppend(ms[1..], ns, a);
      var head := if Aimed(ms[0], a) then [ms[0]] else [];
      assert head + (For(ms[1..], a) + For(ns, a)) == head + For(ms[1..], a) + For(ns, a);
    }
  }

  lemma {:induction false} ForStranger(ms: seq<NetMsg>, a: Fd, b: Fd)
    requires forall k :: 0 <= k < |ms| ==> ms[k].targetfd != a && ms[k].targetfd != b
    ensures For(ms, a) == For(ms, b)
  {
    if ms != [] {
      ForStranger(ms[1..], a, b);
    }
  }

  lemma {:induction false} ApplyAppend(ps: set<u32>, ms: seq<NetMsg>, ns: seq<NetMsg>)
    ensures ApplyAll(ps, ms + ns) == ApplyAll(ApplyAll(ps, ms), ns)
    decreases |ms|
  {
    if ms == [] {
      assert ms + ns == ns;
    } else {
      assert (ms + ns)[1..] == ms[1..] + ns;
      ApplyAppend(ApplyMsg(ps, ms[0], true), ms[1..], ns);
    }
  }

  lemma {:induction false} ApplyMono(ps: set<u32>, qs: set<u32>, ms: seq<NetMsg>)
    requires ps <= qs
    ensures ApplyAll(ps, ms) <= ApplyAll(qs, ms)
    decreases |ms|
  {
    if ms != [] {
      ApplyMono(ApplyMsg(ps, ms[0], true), ApplyMsg(qs, ms[0], true), ms[1..]);
    }
  }

  // ---------------------------------------------------------------------------------------
  // Honest
  // ---------------------------------------------------------------------------------------

  lemma HonestStep(s: Room, l: Label)
    requires Inv(s) && OwnSockets(s) && Roster.Truthful(s) && Honest(s) && Enabled(s, l) && Calm(s, l)
    ensures Honest(Step(s, l))
  {
    if !s.pool.on {
      ShutStep(s, l);
    } else {
      match l
      case Outside(o) =>
      case Accept(a) => HonestAccept(s, a);
      case RoomThread(r) => HonestRoom(s, r);
      case Sender(i, d) => HonestSender(s, d);
    }
  }

  /** Peers of members do not change, so neither do the sets of other members. */
  lemma SamePeers(s: Room, t: Room)
    requires s.pool.activeFds == t.pool.activeFds
    requires forall fd :: fd in s.pool.activeFds ==> Peer(s, fd) == Peer(t, fd)
    ensures forall a :: OtherIps(s, a) == OtherIps(t, a)
  {
    forall a ensures OtherIps(s, a) == OtherIps(t, a) {
      assert OtherIps(t, a) == set fd | fd in s.pool.activeFds && fd != a :: Peer(s, fd);
    }
  }

  lemma HonestAccept(s: Room, l: AcceptStep)
    requires Inv(s) && Honest(s) && s.pool.on && AcceptEnabled(s, l)
    ensures Honest(AcceptNext(s, l))
  {
    var t := AcceptNext(s, l);
    match l
    case TakeList => ListHonest(s);
    case AdmitCreator => AppendElems(s.pool.activeFds, s.accept.conn.sockfd);
    case AdmitJoiner => AppendElems(s.pool.activeFds, s.accept.conn.sockfd);
    case _ =>
  }

  /** The list a newcomer gets names nobody but those in the room. */
  lemma ListHonest(s: Room)
    requires Inv(s) && s.pool.on && s.accept.AcceptAnnounced?
    ensures var list := AcceptNext(s, TakeList).accept.list;
            forall ip <- Listed(list) :: ip in OtherIps(s, s.accept.fd)
  {
    var others := Others(s.pool, s.accept.fd);
    SelectIsFilter(s.pool.activeFds, s.accept.fd, false);
    assert forall x :: x in s.pool.activeFds ==> Live(x, s.pool, s.net);
    IpsOfMembers(s.pool.fdToIp, others);
    var ips := IpsOf(s.pool.fdToIp, others);
    IpsRoundTrip(ips);
    forall ip | ip in ips ensures ip in OtherIps(s, s.accept.fd) {
      var fd :| fd in others && s.pool.fdToIp[fd] == ip;
      assert Peer(s, fd) == ip;
    }
  }

  lemma HonestRoom(s: Room, l: RoomStep)
    requires Inv(s) && Honest(s) && s.pool.on && RoomEnabled(s, l) && Calm(s, RoomThread(l))
    ensures Honest(RoomNext(s, l))
  {
    if l.ReadHeader? {
      var fd := s.room.pass.todo[0];
      assert fd in s.room.pass.todo;
      assert Live(fd, s.pool, s.net);
    }
  }

  lemma HonestSender(s: Room, l: SenderStep)
    requires Inv(s) && Honest(s) && s.pool.on && SenderEnabled(s, 0, l)
    ensures Honest(SenderNext(s, 0, l))
  {
    var t := SenderNext(s, 0, l);
    SamePeers(s, t);
    if l.FindTargets? {
      SelectIsFilter(s.pool.activeFds, s.senders[0].msg.targetfd, false);
      SelectIsFilter(s.pool.activeFds, s.senders[0].msg.targetfd, true);
    }
  }

  // ---------------------------------------------------------------------------------------
  // No ghosts
  // ---------------------------------------------------------------------------------------

  lemma GhostOutside(s: Room, l: OutsideStep, a: Fd)
    requires Inv(s) && OwnSockets(s) && s.pool.on && OutsideEnabled(s, l)
    requires Watched(s, a) && NoGhostFor(s, a)
    ensures NoGhostFor(OutsideNext(s, l), a)
  {
    var t := OutsideNext(s, l);
    assert forall fd :: fd in s.pool.activeFds ==> Live(fd, s.pool, s.net);
    SamePeers(s, t);
    if l.ClientReads? {
      GhostReads(s, l.fd, l.shown, a);
    } else {
      assert Flow(t, a) == Flow(s, a);
    }
  }

  /** Reading a message takes it off the flow and applies at most what the flow would have applied. */
  lemma GhostReads(s: Room, fd: Fd, shown: bool, a: Fd)
    requires OutsideEnabled(s, ClientReads(fd, shown))
    ensures var t := OutsideNext(s, ClientReads(fd, shown));
            ApplyAll(Partners(t.net, a), Flow(t, a)) <= ApplyAll(Partners(s.net, a), Flow(s, a))
  {
    var t := OutsideNext(s, ClientReads(fd, shown));
    if fd == a {
      var m := Inbox(s.net, a)[0];
      var ps := Partners(s.net, a);
      assert Flow(s, a)[0] == m && Flow(s, a)[1..] == Flow(t, a);
      ApplyMono(ApplyMsg(ps, m, shown), ApplyMsg(ps, m, true), Flow(t, a));
    } else {
      assert Flow(t, a) == Flow(s, a);
    }
  }

  /** One more message at the end of the queue. */
  lemma FlowPush(s: Room, t: Room, m: NetMsg, a: Fd)
    requires t.queue == s.queue + [m] && t.net == s.net && t.senders == s.senders
    ensures ApplyAll(Partners(t.net, a), Flow(t, a))
         == (if Aimed(m, a) then ApplyMsg(ApplyAll(Partners(s.net, a), Flow(s, a)), m, true)
             else ApplyAll(Partners(s.net, a), Flow(s, a)))
  {
    ForAppend(s.queue, [m], a);
    assert Flow(t, a) == Flow(s, a) + For([m], a);
    ApplyAppend(Partners(s.net, a), Flow(s, a), For([m], a));
    if Aimed(m, a) {
      assert For([m], a) == [m];
      assert [m][1..] == [];
    } else {
      assert For([m], a) == [];
    }
  }

  lemma GhostAccept(s: Room, l: AcceptStep, a: Fd)
    requires Inv(s) && Roster.Truthful(s) && Honest(s) && Roster.UniqueIps(s.net.peer)
    requires s.pool.on && AcceptEnabled(s, l)
    requires Watched(s, a) && NoGhostFor(s, a)
    ensures NoGhostFor(AcceptNext(s, l), a)
  {
    var t := AcceptNext(s, l);
    match l
    case PushCreated => FlowPush(s, t, s.accept.reply, a);
    case PushJoin =>
      var fd := s.accept.fd;
      assert Live(fd, s.pool, s.net);
      FlowPush(s, t, JoinMsg(fd, s.accept.ip), a);
    case PushList => FlowPush(s, t, s.accept.list, a);
    case AdmitCreator => AppendElems(s.pool.activeFds, s.accept.conn.sockfd);
    case AdmitJoiner => AppendElems(s.pool.activeFds, s.accept.conn.sockfd);
    case _ =>
  }

  /** A newcomer starts with what an unadmitted connection would have been sent. */
  lemma {:induction false} GhostNewcomer(s: Room, l: AcceptStep)
    requires Inv(s) && OwnSockets(s) && s.pool.on && AcceptEnabled(s, l) && (l.AdmitCreator? || l.AdmitJoiner?)
    requires OneSender(s.senders) && NoGhostFor(s, NOBODY)
    ensures NoGhostFor(AcceptNext(s, l), s.accept.conn.sockfd)
  {
    var t := AcceptNext(s, l);
    var f := s.accept.conn.sockfd;
    StrangersAlike(s, f);
    AppendElems(s.pool.activeFds, f);
    assert OtherIps(s, NOBODY) <= OtherIps(t, f);
  }

  /** All connections that were never admitted have the same, and nothing of their own, coming. */
  lemma StrangersAlike(s: Room, f: Fd)
    requires OwnSockets(s) && OneSender(s.senders) && f > 0 && f !in s.past.admitted
    ensures Flow(s, f) == Flow(s, NOBODY)
    ensures Partners(s.net, f) == Partners(s.net, NOBODY) == {}
  {
    assert NOBODY !in s.past.admitted;
    ForStranger(s.queue, f, NOBODY) by {
      assert forall k :: 0 <= k < |s.queue| ==> Names(s.queue[k], s.past.admitted);
    }
    assert SenderNames(s.senders[0], s.past.admitted);
    if s.senders[0].Holding? {
      ForStranger([s.senders[0].msg], f, NOBODY);
    }
  }

  lemma GhostRoom(s: Room, l: RoomStep, a: Fd)
    requires Inv(s) && Roster.Truthful(s) && Honest(s) && Roster.UniqueIps(s.net.peer)
    requires s.pool.on && RoomEnabled(s, l) && RoomNext(s, l).pool.on
    requires Watched(RoomNext(s, l), a) && NoGhostFor(s, a)
    ensures NoGhostFor(RoomNext(s, l), a)
  {
    var t := RoomNext(s, l);
    if l.RoomPush? {
      GhostPush(s, a);
    } else if l.EvictMember? {
      GhostEvict(s, a);
    } else {
      assert Flow(t, a) == Flow(s, a);
      SamePeers(s, t);
    }
  }

  lemma GhostPush(s: Room, a: Fd)
    requires Inv(s) && Honest(s) && s.pool.on && RoomEnabled(s, RoomPush)
    requires Watched(s, a) && NoGhostFor(s, a)
    ensures NoGhostFor(RoomNext(s, RoomPush), a)
  {
    var t := RoomNext(s, RoomPush);
    var m := s.room.msg;
    FlowPush(s, t, m, a);
    assert OtherIps(t, a) == OtherIps(s, a);
    assert Leaving(t.room) == {};
    assert a == NOBODY || Live(a, s.pool, s.net);
    if m.msgType == IMG_RECV && m.targetfd != a {
      assert m.targetfd in s.pool.activeFds && Peer(s, m.targetfd) in OtherIps(s, a);
    }
  }

  lemma GhostEvict(s: Room, a: Fd)
    requires Inv(s) && s.pool.on && RoomEnabled(s, EvictMember)
    requires Watched(RoomNext(s, EvictMember), a) && NoGhostFor(s, a)
    ensures NoGhostFor(RoomNext(s, EvictMember), a)
  {
    var t := RoomNext(s, EvictMember);
    var b := s.room.fd;
    assert Live(b, s.pool, s.net);
    WithoutIsErase(s.pool.activeFds, b);
    assert Flow(t, a) == Flow(s, a);
    forall ip | ip in OtherIps(s, a) ensures ip in OtherIps(t, a) + Leaving(t.room) {
      var fd :| fd in s.pool.activeFds && fd != a && Peer(s, fd) == ip;
      if fd != b {
        assert fd in t.pool.activeFds;
      }
    }
  }

  lemma GhostSender(s: Room, l: SenderStep, a: Fd)
    requires Inv(s) && OwnSockets(s) && Honest(s) && s.pool.on && SenderEnabled(s, 0, l)
    requires Watched(s, a) && NoGhostFor(s, a)
    ensures NoGhostFor(SenderNext(s, 0, l), a)
  {
    match l
    case Pop => GhostPop(s, a);
    case FindTargets => GhostTargets(s, a);
    case WriteOne => GhostWrite(s, a);
    case PopNothing =>
    case Release => SamePeers(s, SenderNext(s, 0, l));
  }

  lemma GhostPop(s: Room, a: Fd)
    requires SenderEnabled(s, 0, Pop) && NoGhostFor(s, a)
    ensures NoGhostFor(SenderNext(s, 0, Pop), a)
  {
    var t := SenderNext(s, 0, Pop);
    SamePeers(s, t);
    var m := s.queue[0];
    assert s.queue == [m] + t.queue;
    ForAppend([m], t.queue, a);
    assert For([m], a) == if Aimed(m, a) then [m] else [];
    assert Flow(t, a) == Flow(s, a);
  }

  /** Before, the message counts when it is aimed at `a`; now, when `a` is among the targets. */
  lemma {:induction false} GhostTargets(s: Room, a: Fd)
    requires Inv(s) && OwnSockets(s) && Honest(s) && s.pool.on && SenderEnabled(s, 0, FindTargets)
    requires Watched(s, a) && NoGhostFor(s, a)
    ensures NoGhostFor(SenderNext(s, 0, FindTargets), a)
  {
    var t := SenderNext(s, 0, FindTargets);
    SamePeers(s, t);
    if a == NOBODY {
      TargetsOfStranger(s);
    } else {
      TargetsOfMember(s, a);
    }
  }

  /** No broadcast under way reaches a connection that is not a member yet. */
  lemma {:induction false} TargetsOfStranger(s: Room)
    requires OwnSockets(s) && s.pool.on && SenderEnabled(s, 0, FindTargets)
    ensures var t := SenderNext(s, 0, FindTargets);
            ApplyAll(Partners(t.net, NOBODY), Flow(t, NOBODY)) <= ApplyAll(Partners(s.net, NOBODY), Flow(s, NOBODY))
  {
    var t := SenderNext(s, 0, FindTargets);
    var m := s.senders[0].msg;
    assert SenderNames(s.senders[0], s.past.admitted);
    assert NOBODY !in s.past.admitted;
    assert NOBODY !in s.net.partner && NOBODY !in s.net.inbox;
    SelectIsFilter(s.pool.activeFds, m.targetfd, false);
    SelectIsFilter(s.pool.activeFds, m.targetfd, true);
    assert InHandOf(t.senders, NOBODY) == [];
    var hand, later := InHandOf(s.senders, NOBODY), For(s.queue, NOBODY);
    FlowSplit({}, [], hand, later);
    FlowSplit({}, [], [], later);
    ApplyMono({}, ApplyAll({}, hand), later);
  }

  lemma {:induction false} TargetsOfMember(s: Room, a: Fd)
    requires s.pool.on && SenderEnabled(s, 0, FindTargets) && a in s.pool.activeFds
    ensures var t := SenderNext(s, 0, FindTargets);
            ApplyAll(Partners(t.net, a), Flow(t, a)) == ApplyAll(Partners(s.net, a), Flow(s, a))
  {
    var t := SenderNext(s, 0, FindTargets);
    var m := s.senders[0].msg;
    SelectIsFilter(s.pool.activeFds, m.targetfd, false);
    SelectIsFilter(s.pool.activeFds, m.targetfd, true);
    assert For([m], a) == if Aimed(m, a) then [m] else [];
    var ps, box, later := Partners(s.net, a), Inbox(s.net, a), For(s.queue, a);
    FlowSplit(ps, box, InHandOf(s.senders, a), later);
    FlowSplit(ps, box, InHandOf(t.senders, a), later);
    InertReply(m, ApplyAll(ps, box));
  }

  lemma FlowSplit(ps: set<u32>, box: seq<NetMsg>, hand: seq<NetMsg>, later: seq<NetMsg>)
    ensures ApplyAll(ps, box + hand + later) == ApplyAll(ApplyAll(ApplyAll(ps, box), hand), later)
  {
    ApplyAppend(ps, box + hand, later);
    ApplyAppend(ps, box, hand);
  }

  lemma {:induction false} InertReply(m: NetMsg, ps: set<u32>)
    ensures ApplyAll(ps, [m]) == ApplyMsg(ps, m, true)
    ensures m.msgType == CREATE_MEETING_RESPONSE ==> ApplyMsg(ps, m, true) == ps
  {
    assert [m][1..] == [];
  }

  lemma {:induction false} GhostWrite(s: Room, a: Fd)
    requires Inv(s) && OwnSockets(s) && Honest(s) && s.pool.on && SenderEnabled(s, 0, WriteOne)
    requires Watched(s, a) && NoGhostFor(s, a)
    ensures NoGhostFor(SenderNext(s, 0, WriteOne), a)
  {
    SamePeers(s, SenderNext(s, 0, WriteOne));
    WriteKeepsFlow(s, a);
  }

  /** A write moves a message from the sender's hand to the inbox. */
  lemma {:induction false} WriteKeepsFlow(s: Room, a: Fd)
    requires Inv(s) && OwnSockets(s) && OneSender(s.senders) && s.pool.on && SenderEnabled(s, 0, WriteOne)
    requires Watched(s, a)
    ensures var t := SenderNext(s, 0, WriteOne);
            Flow(t, a) == Flow(s, a) && Partners(t.net, a) == Partners(s.net, a)
  {
    var t := SenderNext(s, 0, WriteOne);
    HandAfterWrite(s, a);
    var box, later := Inbox(s.net, a), For(s.queue, a);
    if a == s.senders[0].todo[0] {
      assert box + [s.senders[0].msg] + later == (box + [s.senders[0].msg]) + [] + later;
    }
  }

  lemma {:induction false} HandAfterWrite(s: Room, a: Fd)
    requires Inv(s) && OwnSockets(s) && OneSender(s.senders) && s.pool.on && SenderEnabled(s, 0, WriteOne)
    requires Watched(s, a)
    ensures var t, m := SenderNext(s, 0, WriteOne), s.senders[0].msg;
            if a == s.senders[0].todo[0] then
              && InHandOf(s.senders, a) == [m] && InHandOf(t.senders, a) == []
              && Inbox(t.net, a) == Inbox(s.net, a) + [m]
            else InHandOf(t.senders, a) == InHandOf(s.senders, a) && Inbox(t.net, a) == Inbox(s.net, a)
  {
    var todo := s.senders[0].todo;
    assert todo == [todo[0]] + todo[1..];
    assert SenderNames(s.senders[0], s.past.admitted);
    if a == todo[0] {
      assert a in todo && a != NOBODY;
      assert Live(a, s.pool, s.net);
      assert a !in todo[1..];
    } else {
      assert a in todo <==> a in todo[1..];
    }
  }

  lemma NoGhostStep(s: Room, l: Label)
    requires Inv(s) && OwnSockets(s) && Roster.Truthful(s) && Honest(s) && Roster.UniqueIps(s.net.peer)
    requires NoGhost(s) && Enabled(s, l) && Calm(s, l)
    ensures NoGhost(Step(s, l))
  {
    var t := Step(s, l);
    if !s.pool.on {
      ShutStep(s, l);
    } else if t.pool.on {
      forall a | Watched(t, a) ensures NoGhostFor(t, a) {
        match l
        case Outside(o) => GhostOutside(s, o, a);
        case Accept(x) =>
          if !Watched(s, a) {
            GhostNewcomer(s, x);
          } else {
            GhostAccept(s, x, a);
          }
        case RoomThread(r) =>
          WithoutElems(s.pool.activeFds, if r.EvictMember? then s.room.fd else 0);
          GhostRoom(s, r, a);
        case Sender(i, d) => GhostSender(s, d, a);
      }
    }
  }

  // ---------------------------------------------------------------------------------------
  // Exactness
  // ---------------------------------------------------------------------------------------

  ghost predicate AllOf(s: Room) {
    && Inv(s) && OwnSockets(s) && Roster.Truthful(s) && Roster.RosterOk(s) && Roster.CreatorFirst(s)
    && Honest(s) && NoGhost(s)
  }

  lemma {:induction false} ExactRun(s: Room, ls: seq<Label>)
    requires AllOf(s) && CalmRun(s, ls) && Legal(s, ls) && Roster.UniqueIps(After(s, ls).net.peer)
    ensures AllOf(After(s, ls))
    decreases |ls|
  {
    if ls != [] {
      var l := ls[0];
      Roster.PeerGrows(s, ls);
      InvStep(s, l);
      OwnStep(s, l);
      Roster.TruthfulStep(s, l);
      Roster.RosterStep(s, l);
      Roster.CreatorFirstStep(s, l);
      HonestStep(s, l);
      NoGhostStep(s, l);
      ExactRun(Step(s, l), ls[1..]);
    }
  }

  /** An address that is shown, or told on the way, and of which no exit is on the way, is shown in
      the end. */
  lemma {:induction false} ToldInTheEnd(ps: set<u32>, ms: seq<NetMsg>, a: Fd, ip: u32)
    requires ip in ps || Roster.Carries(ms, a, ip)
    requires forall k :: 0 <= k < |ms| ==> !(ms[k].msgType == PARTNER_EXIT && ms[k].ip == ip)
    ensures ip in ApplyAll(ps, ms)
    decreases |ms|
  {
    if ms != [] {
      Roster.CarriesHead(ms, a, ip);
      ToldInTheEnd(ApplyMsg(ps, ms[0], true), ms[1..], a, ip);
    }
  }

  lemma {:induction false} ForCarries(ms: seq<NetMsg>, a: Fd, ip: u32)
    ensures Roster.Carries(ms, a, ip) ==> Roster.Carries(For(ms, a), a, ip)
    ensures forall k :: 0 <= k < |For(ms, a)| ==> For(ms, a)[k] in ms
  {
    if ms != [] {
      ForCarries(ms[1..], a, ip);
      Roster.CarriesHead(ms, a, ip);
      if Aimed(ms[0], a) {
        assert For(ms, a)[1..] == For(ms[1..], a);
        Roster.CarriesHead(For(ms, a), a, ip);
      } else {
        assert !Roster.Tells(ms[0], a, ip);
        assert For(ms, a) == For(ms[1..], a);
      }
      assert ms == [ms[0]] + ms[1..];
    }
  }

  lemma CarriesConcat(ms: seq<NetMsg>, ns: seq<NetMsg>, a: Fd, ip: u32)
    ensures Roster.Carries(ms, a, ip) || Roster.Carries(ns, a, ip) ==> Roster.Carries(ms + ns, a, ip)
  {
    if Roster.Carries(ms, a, ip) {
      var k :| 0 <= k < |ms| && Roster.Tells(ms[k], a, ip);
      assert Roster.Tells((ms + ns)[k], a, ip);
    } else if Roster.Carries(ns, a, ip) {
      var k :| 0 <= k < |ns| && Roster.Tells(ns[k], a, ip);
      assert Roster.Tells((ms + ns)[|ms| + k], a, ip);
    }
  }

  /** With the accept thread idle, what is on its way to `a` tells it about every member `b`. */
  lemma NobodyLeftOut(s: Room, a: Fd, b: Fd)
    requires AllOf(s) && s.pool.on && s.accept.AcceptIdle? && Roster.UniqueIps(s.net.peer)
    requires a in s.pool.activeFds && b in s.pool.activeFds && a != b
    ensures Peer(s, b) in ApplyAll(Partners(s.net, a), Flow(s, a))
  {
    var ip := Peer(s, b);
    assert Live(b, s.pool, s.net);
    assert Roster.Covered(s, a, b);
    var box, hand, later := Inbox(s.net, a), InHandOf(s.senders, a), For(s.queue, a);
    ForCarries(s.queue, a, ip);
    if Roster.AnySender(s.senders, a, ip) {
      HandTells(s.senders, a, ip);
    }
    CarriesConcat(box, hand, a, ip);
    CarriesConcat(box + hand, later, a, ip);
    NoExitOnTheWay(s, a, b);
    ToldInTheEnd(Partners(s.net, a), Flow(s, a), a, ip);
  }

  lemma HandTells(ps: seq<SenderPc>, a: Fd, ip: u32)
    requires OneSender(ps) && Roster.AnySender(ps, a, ip)
    ensures Roster.Carries(InHandOf(ps, a), a, ip)
  {
    var i :| 0 <= i < |ps| && Roster.SenderTells(ps[i], a, ip);
    assert i == 0;
    var m := ps[0].msg;
    assert Aimed(m, a);
    assert For([m], a) == [m];
    assert Roster.Tells(InHandOf(ps, a)[0], a, ip);
  }

  lemma NoExitOnTheWay(s: Room, a: Fd, b: Fd)
    requires Inv(s) && Roster.Truthful(s) && s.pool.on && Roster.UniqueIps(s.net.peer)
    requires b in s.pool.activeFds
    ensures forall k :: 0 <= k < |Flow(s, a)| ==>
              !(Flow(s, a)[k].msgType == PARTNER_EXIT && Flow(s, a)[k].ip == Peer(s, b))
  {
    var gone := GoneOf(s);
    ForCarries(s.queue, a, 0);
    assert Live(b, s.pool, s.net);
    assert Peer(s, b) !in gone;
    forall k | 0 <= k < |Flow(s, a)| ensures Roster.ExitOk(Flow(s, a)[k], gone) {
      var m := Flow(s, a)[k];
      if k < |Inbox(s.net, a)| {
        assert m == Inbox(s.net, a)[k];
      } else if k < |Inbox(s.net, a)| + |InHandOf(s.senders, a)| {
        HandIsHeld(s.senders, a);
      } else {
        var later := For(s.queue, a);
        assert m == later[k - |Inbox(s.net, a)| - |InHandOf(s.senders, a)|];
        assert m in s.queue;
      }
    }
  }

  function GoneOf(s: Room): (ips: set<u32>) {
    Roster.GoneIps(s.net)
  }

  lemma HandIsHeld(ps: seq<SenderPc>, a: Fd)
    requires InHandOf(ps, a) != []
    ensures |ps| > 0 && (ps[0].Holding? || ps[0].Sending?) && InHandOf(ps, a) == [ps[0].msg]
  {
    assert For([ps[0].msg], a) == if Aimed(ps[0].msg, a) then [ps[0].msg] else [];
  }

  /** Roster exactness. One sender, joins that are not interleaved with `fdclose`, one connection
      per address, the creator first: at every moment when no join is half done and no exit is
      about to be queued, applying what is on its way to a member yields exactly the others. */
  lemma RosterExact(roomId: u32, creator: Fd, ip: u32, ls: seq<Label>, a: Fd)
    requires creator > 0 && CalmRun(Opened(roomId, creator, ip), ls) && Legal(Opened(roomId, creator, ip), ls)
    requires var s := After(Opened(roomId, creator, ip), ls);
             && s.pool.on && s.accept.AcceptIdle? && Leaving(s.room) == {}
             && Roster.UniqueIps(s.net.peer) && a in s.pool.activeFds
    ensures var s := After(Opened(roomId, creator, ip), ls);
            ApplyAll(Partners(s.net, a), Flow(s, a)) == OtherIps(s, a)
  {
    var s1 := Opened(roomId, creator, ip);
    OpenedIsFine(roomId, creator, ip);
    ExactRun(s1, ls);
    ExactHere(After(s1, ls), a);
  }

  lemma ExactHere(s: Room, a: Fd)
    requires AllOf(s) && s.pool.on && s.accept.AcceptIdle? && Leaving(s.room) == {}
    requires Roster.UniqueIps(s.net.peer) && a in s.pool.activeFds
    ensures ApplyAll(Partners(s.net, a), Flow(s, a)) == OtherIps(s, a)
  {
    assert Watched(s, a) && NoGhostFor(s, a);
    forall b | b in s.pool.activeFds && b != a ensures Peer(s, b) in ApplyAll(Partners(s.net, a), Flow(s, a)) {
      NobodyLeftOut(s, a, b);
    }
  }

  /** At rest there are neither ghosts nor omissions. */
  lemma RosterAtRest(roomId: u32, creator: Fd, ip: u32, ls: seq<Label>, a: Fd)
    requires creator > 0 && CalmRun(Opened(roomId, creator, ip), ls) && Legal(Opened(roomId, creator, ip), ls)
    requires var s := After(Opened(roomId, creator, ip), ls);
             && s.pool.on && Roster.Quiescent(s) && Leaving(s.room) == {}
             && Roster.UniqueIps(s.net.peer) && a in s.pool.activeFds
    ensures var s := After(Opened(roomId, creator, ip), ls);
            Partners(s.net, a) == set b | b in s.pool.activeFds && b != a :: Peer(s, b)
  {
    RosterExact(roomId, creator, ip, ls, a);
    var s := After(Opened(roomId, creator, ip), ls);
    assert InHandOf(s.senders, a) == [];
    assert Flow(s, a) == [];
  }

  lemma OpenedIsFine(roomId: u32, creator: Fd, ip: u32)
    requires creator > 0
    ensures AllOf(Opened(roomId, creator, ip))
  {
    var s0 := Start(roomId);
    Roster.OpenedIsFine(roomId, creator, ip);
    InvStart(roomId);
    OwnStep(s0, Outside(HandCreate(creator, ip)));
    assert Flow(Opened(roomId, creator, ip), NOBODY) == [];
  }
}
