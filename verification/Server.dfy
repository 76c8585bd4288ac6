/** The whole server: acceptor threads, the global room table, and any number of rooms. A connection
    has one place at a time, and a room only ever writes to connections that were handed to it. */
module Server {
  import opened Wire
  import opened NetMsg
  import opened Pool
  import opened Room
  import opened Membership
  import opened Handles

  // An acceptor thread, by what it holds between two steps of `dowithuser`.
  datatype Acceptor =
    | Listening
    | Talking(fd: Fd)                 // reading requests
    | Created(fd: Fd, room: nat)      // room published, 'C' not yet queued
    | Found(fd: Fd, room: nat)        // room looked up, status not yet checked
    | Admissible(fd: Fd, room: nat)   // status and size checked, 'J' not yet queued
    | Replying(fd: Fd)                // 'J' queued, reply not yet written

  // `rooms` keeps every Pool object ever made; `table` is g_rooms; `address` is what getpeerip says.
  datatype Server = Server(rooms: seq<Room>, table: map<u32, nat>, acceptors: seq<Acceptor>, address: map<Fd, u32>)

  datatype Action =
    | Accepted(t: nat, fd: Fd, ip: u32)
    | HangUp(t: nat)
    | CreateRoom(t: nat, id: u32)
    | HandOverCreator(t: nat)
    | LookUp(t: nat, id: u32)
    | CheckRoom(t: nat)
    | HandOverJoiner(t: nat)
    | Reply(t: nat)
    | InRoom(r: nat, l: Label)
    | EraseRoom(r: nat)

  predicate Internal(l: Label) {
    l.Outside? ==> l.o.ClientReads?
  }

  predicate Can(s: Server, a: Action) {
    match a
    case Accepted(t, fd, ip) => t < |s.acceptors| && s.acceptors[t].Listening? && fd > 0 && fd !in s.address
    case HangUp(t) => t < |s.acceptors| && s.acceptors[t].Talking?
    case CreateRoom(t, id) => t < |s.acceptors| && s.acceptors[t].Talking?
    case HandOverCreator(t) =>
      t < |s.acceptors| && s.acceptors[t].Created? && s.acceptors[t].room < |s.rooms| && s.acceptors[t].fd in s.address
      && OutsideEnabled(s.rooms[s.acceptors[t].room], HandCreate(s.acceptors[t].fd, s.address[s.acceptors[t].fd]))
    case LookUp(t, id) => t < |s.acceptors| && s.acceptors[t].Talking?
    case CheckRoom(t) => t < |s.acceptors| && s.acceptors[t].Found? && s.acceptors[t].room < |s.rooms|
    case HandOverJoiner(t) =>
      t < |s.acceptors| && s.acceptors[t].Admissible? && s.acceptors[t].room < |s.rooms|
      && s.acceptors[t].fd in s.address
      && OutsideEnabled(s.rooms[s.acceptors[t].room], HandJoin(s.acceptors[t].fd, s.address[s.acceptors[t].fd]))
    case Reply(t) => t < |s.acceptors| && s.acceptors[t].Replying?
    case InRoom(r, l) => r < |s.rooms| && Internal(l) && Enabled(s.rooms[r], l)
    case EraseRoom(r) => r < |s.rooms| && s.rooms[r].room.Finished?
  }

  function SetAcceptor(s: Server, t: nat, a: Acceptor): (n: Server)
    requires t < |s.acceptors|
  {
    s.(acceptors := s.acceptors[t := a])
  }

  function SetRoom(s: Server, r: nat, room: Room): (n: Server)
    requires r < |s.rooms|
  {
    s.(rooms := s.rooms[r := room])
  }

  function Do(s: Server, a: Action): (n: Server)
    requires Can(s, a)
  {
    match a
    case Accepted(t, fd, ip) => SetAcceptor(s, t, Talking(fd)).(address := s.address[fd := ip])
    case HangUp(t) => SetAcceptor(s, t, Listening)
    case CreateRoom(t, id) =>
      SetAcceptor(s, t, Created(s.acceptors[t].fd, |s.rooms|)).(
        rooms := s.rooms + [Start(id)], table := s.table[id := |s.rooms|])
    case HandOverCreator(t) =>
      var h := s.acceptors[t];
      SetRoom(SetAcceptor(s, t, Listening), h.room, OutsideNext(s.rooms[h.room], HandCreate(h.fd, s.address[h.fd])))
    case LookUp(t, id) =>
      if id in s.table then SetAcceptor(s, t, Found(s.acceptors[t].fd, s.table[id])) else s
    case CheckRoom(t) =>
      var h := s.acceptors[t];
      var p := s.rooms[h.room].pool;
      SetAcceptor(s, t, if !p.on || p.num >= FD_SETSIZE then Talking(h.fd) else Admissible(h.fd, h.room))
    case HandOverJoiner(t) =>
      var h := s.acceptors[t];
      SetRoom(SetAcceptor(s, t, Replying(h.fd)), h.room, OutsideNext(s.rooms[h.room], HandJoin(h.fd, s.address[h.fd])))
    case Reply(t) => SetAcceptor(s, t, Listening)
    case InRoom(r, l) => SetRoom(s, r, Step(s.rooms[r], l))
    case EraseRoom(r) => s.(table := s.table - {s.rooms[r].roomId})
  }

  predicate History(s: Server, acts: seq<Action>)
    decreases |acts|
  {
    acts == [] || (Can(s, acts[0]) && History(Do(s, acts[0]), acts[1..]))
  }

  function Then(s: Server, acts: seq<Action>): (n: Server)
    requires History(s, acts)
    decreases |acts|
  {
    if acts == [] then s else Then(Do(s, acts[0]), acts[1..])
  }

  function Boot(threads: nat): (s: Server) {
    Server([], map[], seq(threads, _ => Listening), map[])
  }

  // ---------------------------------------------------------------------------------------
  // Places
  // ---------------------------------------------------------------------------------------

  /** The connection an acceptor still owns. Once 'J' is queued the room owns it. */
  function Held(a: Acceptor): (o: Option<Fd>) {
    match a
    case Talking(fd) => Some(fd)
    case Created(fd, _) => Some(fd)
    case Found(fd, _) => Some(fd)
    case Admissible(fd, _) => Some(fd)
    case _ => None
  }

  datatype Place = AtAcceptor(t: nat) | InLine(r: nat, i: nat) | BeingAdmitted(r: nat) | Member(r: nat, i: nat)

  predicate Occupies(s: Server, p: Place, fd: Fd) {
    match p
    case AtAcceptor(t) => t < |s.acceptors| && Held(s.acceptors[t]) == Some(fd)
    case InLine(r, i) =>
      r < |s.rooms| && i < |s.rooms[r].conns| && s.rooms[r].conns[i].cmd != Stop && s.rooms[r].conns[i].sockfd == fd
    case BeingAdmitted(r) =>
      r < |s.rooms| && s.rooms[r].accept.AcceptGot? && s.rooms[r].accept.conn.cmd != Stop
      && s.rooms[r].accept.conn.sockfd == fd
    case Member(r, i) =>
      r < |s.rooms| && i < |s.rooms[r].pool.activeFds| && s.rooms[r].pool.activeFds[i] == fd
  }

  ghost predicate RoomsFine(s: Server) {
    forall r :: 0 <= r < |s.rooms| ==> Inv(s.rooms[r]) && OwnSockets(s.rooms[r])
  }

  ghost predicate RoomsApart(s: Server) {
    forall q, r :: 0 <= q < r < |s.rooms| ==> s.rooms[q].net.peer.Keys !! s.rooms[r].net.peer.Keys
  }

  predicate NotHandedOver(s: Server, fd: Fd) {
    forall r :: 0 <= r < |s.rooms| ==> fd !in s.rooms[r].net.peer
  }

  ghost predicate HeldFresh(s: Server) {
    forall t :: 0 <= t < |s.acceptors| && Held(s.acceptors[t]).Some? ==>
      Held(s.acceptors[t]).value in s.address && NotHandedOver(s, Held(s.acceptors[t]).value)
  }

  ghost predicate HeldApart(s: Server) {
    forall t, u :: 0 <= t < u < |s.acceptors| && Held(s.acceptors[t]).Some? ==>
      Held(s.acceptors[t]) != Held(s.acceptors[u])
  }

  ghost predicate PeersKnown(s: Server) {
    forall r :: 0 <= r < |s.rooms| ==> s.rooms[r].net.peer.Keys <= s.address.Keys
  }

  ghost predicate OnePlace(s: Server) {
    RoomsFine(s) && RoomsApart(s) && HeldFresh(s) && HeldApart(s) && PeersKnown(s)
  }

  /** The room's side of a hand-over. */
  lemma RoomTakesOver(s: Server, t: nat, joiner: bool)
    requires OnePlace(s)
    requires Can(s, if joiner then HandOverJoiner(t) else HandOverCreator(t))
    ensures var n := Do(s, if joiner then HandOverJoiner(t) else HandOverCreator(t));
            RoomsFine(n) && Moved(s, n, t)
  {
    var h := s.acceptors[t];
    var r := h.room;
    var o := if joiner then HandJoin(h.fd, s.address[h.fd]) else HandCreate(h.fd, s.address[h.fd]);
    InvStep(s.rooms[r], Outside(o));
    OwnStep(s.rooms[r], Outside(o));
  }

  /** Acceptor `t` lets go of its connection and one room has it now. */
  ghost predicate Moved(s: Server, n: Server, t: nat) {
    && t < |s.acceptors| && (s.acceptors[t].Created? || s.acceptors[t].Admissible?)
    && |n.acceptors| == |s.acceptors| && Held(n.acceptors[t]) == None
    && (forall u :: 0 <= u < |s.acceptors| && u != t ==> n.acceptors[u] == s.acceptors[u])
    && n.address == s.address && |n.rooms| == |s.rooms| && s.acceptors[t].room < |s.rooms|
    && n.rooms[s.acceptors[t].room].net.peer.Keys == s.rooms[s.acceptors[t].room].net.peer.Keys + {s.acceptors[t].fd}
    && (forall q :: 0 <= q < |s.rooms| && q != s.acceptors[t].room ==> n.rooms[q] == s.rooms[q])
  }

  lemma MovedKeeps(s: Server, n: Server, t: nat)
    requires OnePlace(s) && RoomsFine(n) && Moved(s, n, t)
    ensures OnePlace(n)
  {
    MovedApart(s, n, t);
    assert forall u :: 0 <= u < |s.acceptors| && u != t ==> Held(n.acceptors[u]) == Held(s.acceptors[u]);
  }

  lemma MovedApart(s: Server, n: Server, t: nat)
    requires OnePlace(s) && Moved(s, n, t)
    ensures RoomsApart(n) && PeersKnown(n)
  {
    assert Held(s.acceptors[t]) == Some(s.acceptors[t].fd);
    assert NotHandedOver(s, s.acceptors[t].fd);
  }

  lemma {:induction false} HandOverKeeps(s: Server, t: nat, joiner: bool)
    requires OnePlace(s)
    requires Can(s, if joiner then HandOverJoiner(t) else HandOverCreator(t))
    ensures OnePlace(Do(s, if joiner then HandOverJoiner(t) else HandOverCreator(t)))
  {
    RoomTakesOver(s, t, joiner);
    MovedKeeps(s, Do(s, if joiner then HandOverJoiner(t) else HandOverCreator(t)), t);
  }

  lemma SamePeersKeep(s: Server, r: nat, room: Room)
    requires OnePlace(s) && r < |s.rooms|
    requires Inv(room) && OwnSockets(room) && room.net.peer == s.rooms[r].net.peer
    ensures OnePlace(SetRoom(s, r, room))
  {
    var n := SetRoom(s, r, room);
    assert forall q :: 0 <= q < |s.rooms| ==> n.rooms[q].net.peer == s.rooms[q].net.peer;
  }

  lemma {:induction false} InRoomKeeps(s: Server, r: nat, l: Label)
    requires OnePlace(s) && Can(s, InRoom(r, l))
    ensures OnePlace(Do(s, InRoom(r, l)))
  {
    InvStep(s.rooms[r], l);
    OwnStep(s.rooms[r], l);
    PeersStay(s.rooms[r], l);
    SamePeersKeep(s, r, Step(s.rooms[r], l));
  }

  lemma CreateKeeps(s: Server, t: nat, id: u32)
    requires OnePlace(s) && Can(s, CreateRoom(t, id))
    ensures OnePlace(Do(s, CreateRoom(t, id)))
  {
    var n := Do(s, CreateRoom(t, id));
    NewRoomFine(id);
    assert n.rooms[|s.rooms|] == Start(id);
    assert forall q :: 0 <= q < |s.rooms| ==> n.rooms[q] == s.rooms[q];
    assert forall u :: 0 <= u < |s.acceptors| ==> Held(n.acceptors[u]) == Held(s.acceptors[u]);
  }

  lemma NewRoomFine(id: u32)
    ensures Inv(Start(id)) && OwnSockets(Start(id)) && Start(id).net.peer.Keys == {}
  {
  }

  lemma {:induction false} OnePlaceStep(s: Server, a: Action)
    requires OnePlace(s) && Can(s, a)
    ensures OnePlace(Do(s, a))
  {
    match a
    case HandOverCreator(t) => HandOverKeeps(s, t, false);
    case HandOverJoiner(t) => HandOverKeeps(s, t, true);
    case InRoom(r, l) => InRoomKeeps(s, r, l);
    case CreateRoom(t, id) => CreateKeeps(s, t, id);
    case _ => AcceptorKeeps(s, a);
  }

  lemma {:induction false} AcceptorKeeps(s: Server, a: Action)
    requires OnePlace(s) && Can(s, a)
    requires !a.HandOverCreator? && !a.HandOverJoiner? && !a.InRoom? && !a.CreateRoom?
    ensures OnePlace(Do(s, a))
  {
    match a
    case Accepted(t, fd, ip) => AcceptedKeeps(s, t, fd, ip);
    case EraseRoom(r) =>
    case LookUp(t, id) =>
      if id in s.table {
        HeldKeeps(s, t, Found(s.acceptors[t].fd, s.table[id]));
      }
    case CheckRoom(t) => HeldKeeps(s, t, Do(s, a).acceptors[t]);
    case HangUp(t) => HeldKeeps(s, t, Listening);
    case Reply(t) => HeldKeeps(s, t, Listening);
  }

  /** An acceptor that moves on with the connection it has, or without one. */
  lemma {:induction false} HeldKeeps(s: Server, t: nat, p: Acceptor)
    requires OnePlace(s) && t < |s.acceptors| && (Held(p) == Held(s.acceptors[t]) || Held(p) == None)
    ensures OnePlace(SetAcceptor(s, t, p))
  {
    assert forall fd :: NotHandedOver(s, fd) <==> NotHandedOver(SetAcceptor(s, t, p), fd);
  }

  lemma {:induction false} AcceptedKeeps(s: Server, t: nat, fd: Fd, ip: u32)
    requires OnePlace(s) && Can(s, Accepted(t, fd, ip))
    ensures OnePlace(Do(s, Accepted(t, fd, ip)))
  {
    assert forall r :: 0 <= r < |s.rooms| ==> fd !in s.rooms[r].net.peer.Keys;
  }

  lemma {:induction false} OnePlaceRun(s: Server, acts: seq<Action>)
    requires OnePlace(s) && History(s, acts)
    ensures OnePlace(Then(s, acts))
    decreases |acts|
  {
    if acts != [] {
      OnePlaceStep(s, acts[0]);
      OnePlaceRun(Do(s, acts[0]), acts[1..]);
    }
  }

  /** Everything a room's line, hand and list contain was handed to that room. */
  lemma PlaceIsPeer(s: Server, p: Place, fd: Fd)
    requires OnePlace(s) && Occupies(s, p, fd) && !p.AtAcceptor?
    ensures p.r < |s.rooms| && fd in s.rooms[p.r].net.peer
  {
    var room := s.rooms[p.r];
    assert Inv(room) && OwnSockets(room);
    if p.InLine? {
      assert Fresh(room.conns[p.i].sockfd, room.net, room.pool.activeFds);
    } else if p.Member? {
      assert room.pool.activeFds[p.i] in room.pool.activeFds;
    }
  }

  /** A connection is in at most one place: one acceptor's hand, one position of one room's line,
      one accept thread's hand, or one entry of one member list. */
  lemma ConnectionInOnePlace(threads: nat, acts: seq<Action>, p: Place, q: Place, fd: Fd)
    requires History(Boot(threads), acts)
    requires var s := Then(Boot(threads), acts); Occupies(s, p, fd) && Occupies(s, q, fd)
    ensures p == q
  {
    var s := Then(Boot(threads), acts);
    OnePlaceRun(Boot(threads), acts);
    if p.AtAcceptor? || q.AtAcceptor? {
      if !p.AtAcceptor? { PlaceIsPeer(s, p, fd); }
      if !q.AtAcceptor? { PlaceIsPeer(s, q, fd); }
    } else {
      PlaceIsPeer(s, p, fd);
      PlaceIsPeer(s, q, fd);
      assert p.r == q.r;
      OncePerRoom(s.rooms[p.r], p, q, fd);
    }
  }

  /** Within one room. */
  lemma OncePerRoom(room: Room, p: Place, q: Place, fd: Fd)
    requires Inv(room) && !p.AtAcceptor? && !q.AtAcceptor? && p.r == q.r
    requires InRoomAt(room, p, fd) && InRoomAt(room, q, fd)
    ensures p == q
  {
    MemberOrNot(room, p, fd);
    MemberOrNot(room, q, fd);
  }

  lemma MemberOrNot(room: Room, p: Place, fd: Fd)
    requires Inv(room) && InRoomAt(room, p, fd)
    ensures p.Member? <==> fd in room.pool.activeFds
  {
  }

  predicate InRoomAt(room: Room, p: Place, fd: Fd) {
    match p
    case AtAcceptor(t) => false
    case InLine(r, i) => i < |room.conns| && room.conns[i].cmd != Stop && room.conns[i].sockfd == fd
    case BeingAdmitted(r) => room.accept.AcceptGot? && room.accept.conn.cmd != Stop && room.accept.conn.sockfd == fd
    case Member(r, i) => i < |room.pool.activeFds| && room.pool.activeFds[i] == fd
  }

  /** Isolation: whatever a sender of room `r` is about to write, it writes to a connection that was
      handed to room `r`; so that connection is in no other room and with no acceptor. */
  lemma RoomsAreIsolated(threads: nat, acts: seq<Action>, r: nat, i: nat, fd: Fd)
    requires History(Boot(threads), acts)
    requires var s := Then(Boot(threads), acts);
             && r < |s.rooms| && i < |s.rooms[r].senders|
             && s.rooms[r].senders[i].Sending? && fd in s.rooms[r].senders[i].todo
    ensures var s := Then(Boot(threads), acts);
            && fd in s.rooms[r].past.admitted
            && (forall q :: 0 <= q < |s.rooms| && q != r ==>
                  fd !in s.rooms[q].net.peer && fd !in s.rooms[q].pool.activeFds && fd !in s.rooms[q].past.admitted)
            && (forall t :: 0 <= t < |s.acceptors| ==> Held(s.acceptors[t]) != Some(fd))
  {
    OnePlaceRun(Boot(threads), acts);
    var s := Then(Boot(threads), acts);
    var room := s.rooms[r];
    assert OwnSockets(room);
    assert SenderNames(room.senders[i], room.past.admitted);
    assert fd in room.net.peer.Keys;
    forall q | 0 <= q < |s.rooms| && q != r
      ensures fd !in s.rooms[q].net.peer && fd !in s.rooms[q].pool.activeFds && fd !in s.rooms[q].past.admitted
    {
      assert Inv(s.rooms[q]) && OwnSockets(s.rooms[q]);
      assert s.rooms[q].net.peer.Keys !! room.net.peer.Keys;
    }
  }
}
