/** No live participant is ever missing from another's screen: over every interleaving of the accept
    thread, the room thread, the senders and the clients, each member either shows every other
    member already or a message that will make it do so is on its way. */
module Roster {
  import opened Wire
  import opened NetMsg
  import opened Pool
  import opened Room
  import opened Membership

  /** Message `m`, once delivered to `a`, puts `ip` into a's partner set. */
  predicate Tells(m: NetMsg, a: Fd, ip: u32) {
    || (m.msgType == PARTNER_JOIN && m.targetfd != a && m.ip == ip)
    || (m.msgType == PARTNER_JOIN2 && m.targetfd == a && ip in Listed(m))
  }

  ghost predicate Carries(ms: seq<NetMsg>, a: Fd, ip: u32) {
    exists k :: 0 <= k < |ms| && Tells(ms[k], a, ip)
  }

  predicate SenderTells(p: SenderPc, a: Fd, ip: u32) {
    (p.Holding? && Tells(p.msg, a, ip)) || (p.Sending? && a in p.todo && Tells(p.msg, a, ip))
  }

  ghost predicate AnySender(ps: seq<SenderPc>, a: Fd, ip: u32) {
    exists i :: 0 <= i < |ps| && SenderTells(ps[i], a, ip)
  }

  /** The accept thread is still going to tell `a` about `b`. */
  predicate AcceptWillTell(pc: AcceptPc, a: Fd, b: Fd, ip: u32) {
    || (pc.AcceptJoined? && (pc.fd == a || (pc.fd == b && pc.ip == ip)))
    || (pc.AcceptAnnounced? && pc.fd == a)
    || (pc.AcceptListed? && Tells(pc.list, a, ip))
  }

  ghost predicate Covered(s: Room, a: Fd, b: Fd) {
    var ip := Peer(s, b);
    || ip in Partners(s.net, a)
    || Carries(Inbox(s.net, a), a, ip)
    || AnySender(s.senders, a, ip)
    || Carries(s.queue, a, ip)
    || AcceptWillTell(s.accept, a, b, ip)
  }

  /** The one gap: the creator's admission announces nothing and takes no list, so the creator and
      whoever was already in the room do not hear of each other. */
  predicate Exempt(s: Room, a: Fd, b: Fd) {
    (a == s.pool.owner && b in s.past.early) || (b == s.pool.owner && a in s.past.early)
  }

  ghost predicate RosterOk(s: Room) {
    s.pool.on ==>
      forall a, b :: a in s.pool.activeFds && b in s.pool.activeFds && a != b ==> Exempt(s, a, b) || Covered(s, a, b)
  }

  // ---------------------------------------------------------------------------------------
  // Exit messages speak of closed connections only
  // ---------------------------------------------------------------------------------------

  function GoneIps(n: Net): (ips: set<u32>) {
    set fd | fd in n.closed && fd in n.peer :: n.peer[fd]
  }

  predicate ExitOk(m: NetMsg, gone: set<u32>) {
    m.msgType == PARTNER_EXIT ==> m.ip in gone
  }

  ghost predicate ExitsOk(ms: seq<NetMsg>, gone: set<u32>) {
    forall k :: 0 <= k < |ms| ==> ExitOk(ms[k], gone)
  }

  ghost predicate SendersOk(ps: seq<SenderPc>, gone: set<u32>) {
    forall i :: 0 <= i < |ps| && (ps[i].Holding? || ps[i].Sending?) ==> ExitOk(ps[i].msg, gone)
  }

  ghost predicate InboxesOk(boxes: map<Fd, seq<NetMsg>>, gone: set<u32>) {
    forall fd :: fd in boxes ==> ExitsOk(boxes[fd], gone)
  }

  predicate AcceptOk(pc: AcceptPc, peer: map<Fd, u32>) {
    match pc
    case AcceptCreated(m) => m.msgType == CREATE_MEETING_RESPONSE
    case AcceptJoined(fd, ip) => fd in peer && ip == peer[fd]
    case AcceptListed(m) => m.msgType == PARTNER_JOIN2
    case _ => true
  }

  predicate RoomMsgOk(pc: RoomPc, gone: set<u32>) {
    match pc
    case Reading(_, m, _) => m.msgType != PARTNER_EXIT
    case Pushing(m, _) => ExitOk(m, gone)
    case _ => true
  }

  ghost predicate Truthful(s: Room) {
    && AcceptOk(s.accept, s.net.peer)
    && (s.pool.on ==>
          var gone := GoneIps(s.net);
          && ExitsOk(s.queue, gone) && SendersOk(s.senders, gone) && InboxesOk(s.net.inbox, gone)
          && RoomMsgOk(s.room, gone))
  }

  lemma GoneGrows(n: Net, k: Net)
    requires n.closed <= k.closed
    requires forall fd :: fd in n.peer ==> fd in k.peer && k.peer[fd] == n.peer[fd]
    ensures GoneIps(n) <= GoneIps(k)
  {
  }

  lemma TruthfulMono(s: Room, g: set<u32>, h: set<u32>)
    requires g <= h
    ensures ExitsOk(s.queue, g) ==> ExitsOk(s.queue, h)
    ensures SendersOk(s.senders, g) ==> SendersOk(s.senders, h)
    ensures InboxesOk(s.net.inbox, g) ==> InboxesOk(s.net.inbox, h)
    ensures RoomMsgOk(s.room, g) ==> RoomMsgOk(s.room, h)
  {
  }

  lemma {:induction false} NetGrows(s: Room, l: Label)
    requires Inv(s) && Enabled(s, l)
    ensures var t := Step(s, l);
            && s.net.closed <= t.net.closed
            && (forall fd :: fd in s.net.peer ==> fd in t.net.peer && t.net.peer[fd] == s.net.peer[fd])
            && GoneIps(s.net) <= GoneIps(t.net)
  {
    GoneGrows(s.net, Step(s, l).net);
  }

  lemma {:induction false} TruthfulStep(s: Room, l: Label)
    requires Inv(s) && Truthful(s) && Enabled(s, l)
    ensures Truthful(Step(s, l))
  {
    var t := Step(s, l);
    NetGrows(s, l);
    TruthfulMono(s, GoneIps(s.net), GoneIps(t.net));
    if !s.pool.on {
      ShutStep(s, l);
    } else {
      match l
      case Outside(o) => TruthfulOutside(s, o);
      case Accept(a) => TruthfulAccept(s, a);
      case RoomThread(r) => TruthfulRoom(s, r);
      case Sender(i, d) => TruthfulSender(s, i, d);
    }
  }

  lemma TruthfulOutside(s: Room, l: OutsideStep)
    requires Inv(s) && Truthful(s) && s.pool.on && OutsideEnabled(s, l)
    requires GoneIps(s.net) <= GoneIps(OutsideNext(s, l).net)
    ensures Truthful(OutsideNext(s, l))
  {
    TruthfulMono(s, GoneIps(s.net), GoneIps(OutsideNext(s, l).net));
  }

  lemma TruthfulAccept(s: Room, l: AcceptStep)
    requires Inv(s) && Truthful(s) && s.pool.on && AcceptEnabled(s, l)
    requires GoneIps(s.net) <= GoneIps(AcceptNext(s, l).net)
    ensures Truthful(AcceptNext(s, l))
  {
    TruthfulMono(s, GoneIps(s.net), GoneIps(AcceptNext(s, l).net));
  }

  lemma TruthfulRoom(s: Room, l: RoomStep)
    requires Inv(s) && Truthful(s) && s.pool.on && RoomEnabled(s, l)
    requires GoneIps(s.net) <= GoneIps(RoomNext(s, l).net)
    ensures Truthful(RoomNext(s, l))
  {
    var t := RoomNext(s, l);
    TruthfulMono(s, GoneIps(s.net), GoneIps(t.net));
    if l.EvictMember? {
      var fd := s.room.fd;
      assert Live(fd, s.pool, s.net);
      assert fd in t.net.closed && fd in t.net.peer;
    }
  }

  lemma TruthfulSender(s: Room, i: nat, l: SenderStep)
    requires Inv(s) && Truthful(s) && s.pool.on && SenderEnabled(s, i, l)
    ensures Truthful(SenderNext(s, i, l))
  {
    assert GoneIps(SenderNext(s, i, l).net) == GoneIps(s.net);
  }

  // ---------------------------------------------------------------------------------------
  // Coverage is kept by every step
  // ---------------------------------------------------------------------------------------

  /** One connection per address over the run. */
  ghost predicate UniqueIps(peer: map<Fd, u32>) {
    forall f, g :: f in peer && g in peer && f != g ==> peer[f] != peer[g]
  }

  lemma CarriesAppend(ms: seq<NetMsg>, m: NetMsg, a: Fd, ip: u32)
    ensures Carries(ms + [m], a, ip) <==> Carries(ms, a, ip) || Tells(m, a, ip)
  {
    if Carries(ms, a, ip) {
      var k :| 0 <= k < |ms| && Tells(ms[k], a, ip);
      assert Tells((ms + [m])[k], a, ip);
    }
    if Tells(m, a, ip) {
      assert Tells((ms + [m])[|ms|], a, ip);
    }
  }

  lemma CarriesHead(ms: seq<NetMsg>, a: Fd, ip: u32)
    requires ms != []
    ensures Carries(ms, a, ip) <==> Tells(ms[0], a, ip) || Carries(ms[1..], a, ip)
  {
    if Carries(ms[1..], a, ip) {
      var k :| 0 <= k < |ms[1..]| && Tells(ms[1..][k], a, ip);
      assert Tells(ms[k + 1], a, ip);
    }
    if Carries(ms, a, ip) && !Tells(ms[0], a, ip) {
      var k :| 0 <= k < |ms| && Tells(ms[k], a, ip);
      assert Tells(ms[1..][k - 1], a, ip);
    }
  }

  lemma SenderMoves(ps: seq<SenderPc>, i: nat, p: SenderPc, a: Fd, ip: u32)
    requires i < |ps| && AnySender(ps, a, ip)
    requires SenderTells(ps[i], a, ip) ==> SenderTells(p, a, ip)
    ensures AnySender(ps[i := p], a, ip)
  {
    var j :| 0 <= j < |ps| && SenderTells(ps[j], a, ip);
    assert SenderTells(ps[i := p][j], a, ip);
  }

  lemma SenderStarts(ps: seq<SenderPc>, i: nat, p: SenderPc, a: Fd, ip: u32)
    requires i < |ps| && SenderTells(p, a, ip)
    ensures AnySender(ps[i := p], a, ip)
  {
    assert SenderTells(ps[i := p][i], a, ip);
  }

  lemma CoveredOutside(s: Room, l: OutsideStep, a: Fd, b: Fd)
    requires Inv(s) && Truthful(s) && s.pool.on && OutsideEnabled(s, l) && UniqueIps(s.net.peer)
    requires a in s.pool.activeFds && b in s.pool.activeFds && Covered(s, a, b)
    ensures Covered(OutsideNext(s, l), a, b)
  {
    assert Live(b, s.pool, s.net);
    if l.ClientReads? && l.fd == a {
      var box := Inbox(s.net, a);
      var ip := Peer(s, b);
      CarriesHead(box, a, ip);
    }
  }

  lemma CoveredAccept(s: Room, l: AcceptStep, a: Fd, b: Fd)
    requires Inv(s) && Truthful(s) && s.pool.on && AcceptEnabled(s, l)
    requires a in s.pool.activeFds && b in s.pool.activeFds && a != b && Covered(s, a, b)
    ensures Covered(AcceptNext(s, l), a, b)
  {
    var ip := Peer(s, b);
    match l
    case PushCreated => CarriesAppend(s.queue, s.accept.reply, a, ip);
    case PushJoin => CarriesAppend(s.queue, JoinMsg(s.accept.fd, s.accept.ip), a, ip);
    case PushList => CarriesAppend(s.queue, s.accept.list, a, ip);
    case TakeList =>
      if s.accept.fd == a {
        ListTells(s, b);
      }
    case _ =>
  }

  /** The list a newcomer gets names everybody who is in the room when it is taken. */
  lemma ListTells(s: Room, b: Fd)
    requires Inv(s) && s.pool.on && s.accept.AcceptAnnounced?
    requires b in s.pool.activeFds && b != s.accept.fd
    ensures Tells(AcceptNext(s, TakeList).accept.list, s.accept.fd, Peer(s, b))
  {
    var others := Others(s.pool, s.accept.fd);
    SelectIsFilter(s.pool.activeFds, s.accept.fd, false);
    assert forall x :: x in s.pool.activeFds ==> Live(x, s.pool, s.net);
    IpsOfMembers(s.pool.fdToIp, others);
    IpsRoundTrip(IpsOf(s.pool.fdToIp, others));
    assert b in others;
  }

  lemma CoveredRoom(s: Room, l: RoomStep, a: Fd, b: Fd)
    requires Inv(s) && s.pool.on && RoomEnabled(s, l)
    requires Covered(s, a, b)
    ensures Covered(RoomNext(s, l), a, b)
  {
    if l.RoomPush? {
      CarriesAppend(s.queue, s.room.msg, a, Peer(s, b));
    }
  }

  lemma CoveredSender(s: Room, i: nat, l: SenderStep, a: Fd, b: Fd)
    requires Inv(s) && s.pool.on && SenderEnabled(s, i, l)
    requires a in s.pool.activeFds && Covered(s, a, b)
    ensures Covered(SenderNext(s, i, l), a, b)
  {
    var t := SenderNext(s, i, l);
    var ip := Peer(s, b);
    var p, q := s.senders[i], t.senders[i];
    match l
    case Pop =>
      CarriesHead(s.queue, a, ip);
      if Tells(s.queue[0], a, ip) {
        SenderStarts(s.senders, i, q, a, ip);
      } else if AnySender(s.senders, a, ip) {
        SenderMoves(s.senders, i, q, a, ip);
      }
    case FindTargets =>
      SelectIsFilter(s.pool.activeFds, p.msg.targetfd, false);
      SelectIsFilter(s.pool.activeFds, p.msg.targetfd, true);
      if AnySender(s.senders, a, ip) {
        SenderMoves(s.senders, i, q, a, ip);
      }
    case WriteOne =>
      assert Live(a, s.pool, s.net);
      CarriesAppend(Inbox(s.net, a), p.msg, a, ip);
      assert p.todo == [p.todo[0]] + p.todo[1..];
      if AnySender(s.senders, a, ip) && !(SenderTells(p, a, ip) && p.todo[0] == a) {
        SenderMoves(s.senders, i, q, a, ip);
      }
    case PopNothing =>
      if AnySender(s.senders, a, ip) {
        SenderMoves(s.senders, i, q, a, ip);
      }
    case Release =>
      if AnySender(s.senders, a, ip) {
        SenderMoves(s.senders, i, q, a, ip);
      }
  }

  lemma CoveredStep(s: Room, l: Label, a: Fd, b: Fd)
    requires Inv(s) && Truthful(s) && s.pool.on && Enabled(s, l) && UniqueIps(s.net.peer)
    requires a in s.pool.activeFds && b in s.pool.activeFds && a != b && Covered(s, a, b)
    ensures Covered(Step(s, l), a, b)
  {
    match l
    case Outside(o) => CoveredOutside(s, o, a, b);
    case Accept(x) => CoveredAccept(s, x, a, b);
    case RoomThread(r) => CoveredRoom(s, r, a, b);
    case Sender(i, d) => CoveredSender(s, i, d, a, b);
  }

  lemma {:induction false} RosterStep(s: Room, l: Label)
    requires Inv(s) && Truthful(s) && RosterOk(s) && Enabled(s, l) && UniqueIps(s.net.peer)
    ensures RosterOk(Step(s, l))
  {
    var t := Step(s, l);
    if !s.pool.on {
      ShutStep(s, l);
    } else if t.pool.on {
      StillThere(s, l);
      forall a, b | a in t.pool.activeFds && b in t.pool.activeFds && a != b
        ensures Exempt(t, a, b) || Covered(t, a, b)
      {
        if a in s.pool.activeFds && b in s.pool.activeFds && !Exempt(s, a, b) {
          CoveredStep(s, l, a, b);
        }
      }
    }
  }

  /** Membership changes by eviction, by the creator and by joiners; the newcomer is covered, or
      exempt, from the moment it is admitted. */
  lemma StillThere(s: Room, l: Label)
    requires Inv(s) && s.pool.on && Enabled(s, l) && Step(s, l).pool.on
    ensures var t := Step(s, l);
            forall a, b :: a in t.pool.activeFds && b in t.pool.activeFds && a != b ==>
              || (a in s.pool.activeFds && b in s.pool.activeFds && (Exempt(s, a, b) ==> Exempt(t, a, b)))
              || Exempt(t, a, b) || Covered(t, a, b)
  {
    var t := Step(s, l);
    if l.RoomThread? && l.r.EvictMember? {
      WithoutIsErase(s.pool.activeFds, s.room.fd);
    } else if l.Accept? && (l.a.AdmitCreator? || l.a.AdmitJoiner?) {
      AppendElems(s.pool.activeFds, s.accept.conn.sockfd);
    } else {
      SameMembers(s, l);
    }
  }

  predicate AlikeInMembers(s: Room, t: Room) {
    t.pool.activeFds == s.pool.activeFds && t.pool.owner == s.pool.owner && t.past.early == s.past.early
  }

  lemma {:induction false} SameMembers(s: Room, l: Label)
    requires Enabled(s, l) && Step(s, l).pool.on
    requires l != RoomThread(EvictMember) && l != Accept(AdmitCreator) && l != Accept(AdmitJoiner)
    ensures AlikeInMembers(s, Step(s, l))
  {
    match l
    case Outside(o) => assert AlikeInMembers(s, OutsideNext(s, o));
    case Accept(a) => assert AlikeInMembers(s, AcceptNext(s, a));
    case RoomThread(r) => SameMembersInRoom(s, r);
    case Sender(i, d) => assert AlikeInMembers(s, SenderNext(s, i, d));
  }

  lemma {:induction false} SameMembersInRoom(s: Room, r: RoomStep)
    requires RoomEnabled(s, r) && RoomNext(s, r).pool.on && r != EvictMember
    ensures AlikeInMembers(s, RoomNext(s, r))
  {
  }

  lemma {:induction false} PeerGrows(s: Room, ls: seq<Label>)
    requires Legal(s, ls)
    requires Inv(s)
    ensures forall fd :: fd in s.net.peer ==> fd in After(s, ls).net.peer && After(s, ls).net.peer[fd] == s.net.peer[fd]
    decreases |ls|
  {
    if ls != [] {
      NetGrows(s, ls[0]);
      InvStep(s, ls[0]);
      PeerGrows(Step(s, ls[0]), ls[1..]);
    }
  }

  lemma {:induction false} RosterRun(s: Room, ls: seq<Label>)
    requires Inv(s) && Truthful(s) && RosterOk(s) && Legal(s, ls) && UniqueIps(After(s, ls).net.peer)
    ensures var t := After(s, ls); Inv(t) && Truthful(t) && RosterOk(t)
    decreases |ls|
  {
    if ls != [] {
      var n := Step(s, ls[0]);
      PeerGrows(s, ls);
      InvStep(s, ls[0]);
      TruthfulStep(s, ls[0]);
      RosterStep(s, ls[0]);
      RosterRun(n, ls[1..]);
    }
  }

  /** Nothing is on its way: no join half done, nothing queued or held, everything delivered read. */
  ghost predicate Quiescent(s: Room) {
    && s.accept.AcceptIdle?
    && s.queue == []
    && (forall i :: 0 <= i < |s.senders| ==> s.senders[i].SenderIdle?)
    && (forall fd :: fd in s.pool.activeFds ==> Inbox(s.net, fd) == [])
  }

  /** In every run, with one connection per address: when an open room is quiescent, each member's
      partner set has the address of every other member; only the creator and those admitted before
      the creator may miss each other. */
  lemma NobodyIsMissing(roomId: u32, ls: seq<Label>, a: Fd, b: Fd)
    requires Legal(Start(roomId), ls)
    requires var s := After(Start(roomId), ls);
             && s.pool.on && Quiescent(s) && UniqueIps(s.net.peer)
             && a in s.pool.activeFds && b in s.pool.activeFds && a != b && !Exempt(s, a, b)
    ensures var s := After(Start(roomId), ls);
            b in s.net.peer && s.net.peer[b] in Partners(s.net, a)
  {
    InvStart(roomId);
    RosterRun(Start(roomId), ls);
    var s := After(Start(roomId), ls);
    assert Live(b, s.pool, s.net);
    assert Covered(s, a, b);
  }

  // ---------------------------------------------------------------------------------------
  // When the creator comes first nobody is exempt
  // ---------------------------------------------------------------------------------------

  /** Nobody is in the room before the creator: until it is admitted it is first in line. */
  predicate CreatorFirst(s: Room) {
    && s.past.created
    && s.past.early == {}
    && (s.pool.owner == 0 && s.pool.on ==>
          && s.pool.activeFds == []
          && (if CreatorInHand(InHand(s.accept)) then true
              else s.accept.AcceptIdle? && s.conns != [] && s.conns[0].cmd == Create))
  }

  lemma CreatorFirstStep(s: Room, l: Label)
    requires Inv(s) && CreatorFirst(s) && Enabled(s, l)
    ensures CreatorFirst(Step(s, l))
  {
    match l
    case Outside(o) =>
    case Accept(a) => CreatorFirstAccept(s, a);
    case RoomThread(r) => CreatorFirstRoom(s, r);
    case Sender(i, d) =>
  }

  lemma CreatorFirstAccept(s: Room, l: AcceptStep)
    requires Inv(s) && CreatorFirst(s) && AcceptEnabled(s, l)
    ensures CreatorFirst(AcceptNext(s, l))
  {
  }

  lemma CreatorFirstRoom(s: Room, l: RoomStep)
    requires Inv(s) && CreatorFirst(s) && RoomEnabled(s, l)
    ensures CreatorFirst(RoomNext(s, l))
  {
  }

  lemma {:induction false} CreatorFirstRun(s: Room, ls: seq<Label>)
    requires Inv(s) && CreatorFirst(s) && Legal(s, ls)
    ensures CreatorFirst(After(s, ls))
    decreases |ls|
  {
    if ls != [] {
      InvStep(s, ls[0]);
      CreatorFirstStep(s, ls[0]);
      CreatorFirstRun(Step(s, ls[0]), ls[1..]);
    }
  }

  /** The usual case: the creator's connection is handed over before any other. Then, at rest,
      everybody shows everybody. */
  lemma EverybodyShowsEverybody(roomId: u32, creator: Fd, ip: u32, ls: seq<Label>, a: Fd, b: Fd)
    requires creator > 0 && Legal(Opened(roomId, creator, ip), ls)
    requires var s := After(Opened(roomId, creator, ip), ls);
             && s.pool.on && Quiescent(s) && UniqueIps(s.net.peer)
             && a in s.pool.activeFds && b in s.pool.activeFds && a != b
    ensures var s := After(Opened(roomId, creator, ip), ls);
            b in s.net.peer && s.net.peer[b] in Partners(s.net, a)
  {
    var s1 := Opened(roomId, creator, ip);
    OpenedIsFine(roomId, creator, ip);
    CreatorFirstRun(s1, ls);
    RosterRun(s1, ls);
    var s := After(s1, ls);
    assert Live(b, s.pool, s.net);
    assert Covered(s, a, b);
  }

  lemma OpenedIsFine(roomId: u32, creator: Fd, ip: u32)
    requires creator > 0
    ensures var s := Opened(roomId, creator, ip);
            Inv(s) && Truthful(s) && RosterOk(s) && CreatorFirst(s)
  {
    InvStart(roomId);
    InvStep(Start(roomId), Outside(HandCreate(creator, ip)));
  }
}
