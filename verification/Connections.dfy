/** What becomes of every connection that is handed to a room. */
module Connections {
  import opened Wire
  import opened NetMsg
  import opened Pool
  import opened Room
  import opened Membership

  // ---------------------------------------------------------------------------------------
  // The record of the past is what the labels say
  // ---------------------------------------------------------------------------------------

  /** The connections handed over in a run. */
  function Handed(ls: seq<Label>): (fds: set<Fd>) {
    if ls == [] then {} else HandedAt(ls[0]) + Handed(ls[1..])
  }

  function HandedAt(l: Label): (fds: set<Fd>) {
    match l
    case Outside(HandCreate(fd, ip)) => {fd}
    case Outside(HandJoin(fd, ip)) => {fd}
    case _ => {}
  }

  /** The connection that a step admits. */
  function AdmittedAt(s: Room, l: Label): (fds: set<Fd>)
    requires Enabled(s, l)
  {
    if l == Accept(AdmitCreator) || l == Accept(AdmitJoiner) then {s.accept.conn.sockfd} else {}
  }

  function Max(m: nat, n: int): (k: nat) {
    if n > m then n else m
  }

  function Recorded(p: Past, s: Room, l: Label): (q: Past)
    requires Enabled(s, l)
  {
    Past(p.created || (l.Outside? && l.o.HandCreate?),
         p.admitted + AdmittedAt(s, l),
         if l == Accept(AdmitCreator) then Elems(s.pool.activeFds) else p.early,
         Max(p.peak, |Step(s, l).pool.activeFds|),
         if l.RoomThread? && l.r.ReadHeader? then Max(p.longest, l.r.len) else p.longest)
  }

  function RecordOf(p: Past, s: Room, ls: seq<Label>): (q: Past)
    requires Legal(s, ls)
    decreases |ls|
  {
    if ls == [] then p else RecordOf(Recorded(p, s, ls[0]), Step(s, ls[0]), ls[1..])
  }

  ghost predicate PeakKept(s: Room) {
    |s.pool.activeFds| <= s.past.peak
  }

  lemma {:induction false} RecordedStep(s: Room, l: Label)
    requires Inv(s) && PeakKept(s) && Enabled(s, l)
    ensures Step(s, l).past == Recorded(s.past, s, l) && PeakKept(Step(s, l))
  {
    match l
    case Outside(o) =>
    case Accept(a) => assert AcceptNext(s, a).past == Recorded(s.past, s, l);
    case RoomThread(r) => RecordedRoom(s, r);
    case Sender(i, d) => assert SenderNext(s, i, d).pool == s.pool;
  }

  lemma {:induction false} RecordedRoom(s: Room, r: RoomStep)
    requires Inv(s) && PeakKept(s) && RoomEnabled(s, r)
    ensures RoomNext(s, r).past == Recorded(s.past, s, RoomThread(r)) && PeakKept(RoomNext(s, r))
  {
    if r.EvictMember? && s.pool.on {
      WithoutIsErase(s.pool.activeFds, s.room.fd);
    }
  }

  lemma {:induction false} RecordedRun(s: Room, ls: seq<Label>)
    requires Inv(s) && PeakKept(s) && Legal(s, ls)
    ensures After(s, ls).past == RecordOf(s.past, s, ls)
    ensures After(s, ls).net.peer.Keys == s.net.peer.Keys + Handed(ls)
    decreases |ls|
  {
    if ls != [] {
      RecordedStep(s, ls[0]);
      PeersStep(s, ls[0]);
      InvStep(s, ls[0]);
      RecordedRun(Step(s, ls[0]), ls[1..]);
    }
  }

  lemma {:induction false} PeersStep(s: Room, l: Label)
    requires Enabled(s, l)
    ensures Step(s, l).net.peer.Keys == s.net.peer.Keys + HandedAt(l)
  {
    if l.Outside? ==> l.o.ClientReads? {
      PeersStay(s, l);
    }
  }

  /** In every run the record is the run's: the creator was handed over, these were admitted, these were
      members before the creator, this was the largest membership and this the longest announcement; and
      the room knows the addresses of exactly the connections that were handed over. */
  lemma {:induction false} RecordIsTheRuns(roomId: u32, ls: seq<Label>)
    requires Legal(Start(roomId), ls)
    ensures After(Start(roomId), ls).past == RecordOf(Past(false, {}, {}, 0, 0), Start(roomId), ls)
    ensures After(Start(roomId), ls).net.peer.Keys == Handed(ls)
  {
    InvReachable(roomId, []);
    RecordedRun(Start(roomId), ls);
  }

  // ---------------------------------------------------------------------------------------
  // Nobody is left hanging
  // ---------------------------------------------------------------------------------------

  predicate InLine(conns: seq<ClientConn>, fd: Fd) {
    exists i :: 0 <= i < |conns| && conns[i].cmd != Stop && conns[i].sockfd == fd
  }

  predicate AtAccept(a: AcceptPc, fd: Fd) {
    a.AcceptGot? && a.conn.cmd != Stop && a.conn.sockfd == fd
  }

  /** A connection is waiting, about to be admitted, a member of the open room, or closed. */
  predicate Placed(s: Room, fd: Fd) {
    InLine(s.conns, fd) || AtAccept(s.accept, fd) || (s.pool.on && fd in s.pool.activeFds) || fd in s.net.closed
  }

  ghost predicate AllPlaced(s: Room) {
    && (forall fd :: fd in s.net.peer ==> Placed(s, fd))
    && (forall fd :: fd in s.past.admitted ==> (s.pool.on && fd in s.pool.activeFds) || fd in s.net.closed)
  }

  lemma {:induction false} LineKeeps(conns: seq<ClientConn>, c: ClientConn, fd: Fd)
    requires InLine(conns, fd) || (c.cmd != Stop && c.sockfd == fd)
    ensures InLine(conns + [c], fd)
  {
    if InLine(conns, fd) {
      var i :| 0 <= i < |conns| && conns[i].cmd != Stop && conns[i].sockfd == fd;
      assert (conns + [c])[i] == conns[i];
    } else {
      assert (conns + [c])[|conns|] == c;
    }
  }

  lemma {:induction false} LineHead(conns: seq<ClientConn>, fd: Fd)
    requires InLine(conns, fd)
    ensures InLine(conns[1..], fd) || (conns[0].cmd != Stop && conns[0].sockfd == fd)
  {
    var i :| 0 <= i < |conns| && conns[i].cmd != Stop && conns[i].sockfd == fd;
    if i > 0 {
      assert conns[1..][i - 1] == conns[i];
    }
  }

  lemma {:induction false} PlacedOutside(s: Room, o: OutsideStep)
    requires AllPlaced(s) && OutsideEnabled(s, o)
    ensures AllPlaced(OutsideNext(s, o))
  {
    var t := OutsideNext(s, o);
    forall fd | fd in t.net.peer ensures Placed(t, fd) {
      if !o.ClientReads? && (InLine(s.conns, fd) || fd == o.fd) {
        LineKeeps(s.conns, ClientConn(if o.HandCreate? then Create else Join, o.fd), fd);
      }
    }
  }

  lemma {:induction false} PlacedAccept(s: Room, a: AcceptStep)
    requires Inv(s) && AllPlaced(s) && AcceptEnabled(s, a)
    ensures AllPlaced(AcceptNext(s, a))
  {
    var t := AcceptNext(s, a);
    forall fd | fd in t.net.peer ensures Placed(t, fd) {
      if a.TakeConn? && InLine(s.conns, fd) {
        LineHead(s.conns, fd);
      }
    }
  }

  lemma {:induction false} PlacedRoom(s: Room, r: RoomStep)
    requires Inv(s) && AllPlaced(s) && RoomEnabled(s, r)
    ensures AllPlaced(RoomNext(s, r))
  {
    match r
    case EvictMember => PlacedEvict(s);
    case StopAccept =>
      forall fd | fd in s.net.peer ensures Placed(RoomNext(s, r), fd) {
        if InLine(s.conns, fd) {
          LineKeeps(s.conns, ClientConn(Stop, INVALID_SOCKET), fd);
        }
      }
    case _ => PlacedQuiet(s, r);
  }

  lemma {:induction false} PlacedQuiet(s: Room, r: RoomStep)
    requires Inv(s) && AllPlaced(s) && RoomEnabled(s, r) && !r.EvictMember? && !r.StopAccept?
    ensures AllPlaced(RoomNext(s, r))
  {
    var t := RoomNext(s, r);
    assert t.conns == s.conns && t.accept == s.accept && t.net.peer == s.net.peer && t.past.admitted == s.past.admitted;
    assert forall fd :: (s.pool.on && fd in s.pool.activeFds) || fd in s.net.closed ==>
        (t.pool.on && fd in t.pool.activeFds) || fd in t.net.closed;
  }

  lemma {:induction false} PlacedEvict(s: Room)
    requires Inv(s) && AllPlaced(s) && RoomEnabled(s, EvictMember)
    ensures AllPlaced(RoomNext(s, EvictMember))
  {
    var t := RoomNext(s, EvictMember);
    if s.pool.on {
      WithoutIsErase(s.pool.activeFds, s.room.fd);
    }
    assert forall fd :: (s.pool.on && fd in s.pool.activeFds) || fd in s.net.closed ==>
        (t.pool.on && fd in t.pool.activeFds) || fd in t.net.closed;
  }

  lemma {:induction false} PlacedStep(s: Room, l: Label)
    requires Inv(s) && AllPlaced(s) && Enabled(s, l)
    ensures AllPlaced(Step(s, l))
  {
    match l
    case Outside(o) => PlacedOutside(s, o);
    case Accept(a) => PlacedAccept(s, a);
    case RoomThread(r) => PlacedRoom(s, r);
    case Sender(i, d) => assert SenderNext(s, i, d).net.closed == s.net.closed;
  }

  lemma {:induction false} PlacedRun(s: Room, ls: seq<Label>)
    requires Inv(s) && AllPlaced(s) && Legal(s, ls)
    ensures AllPlaced(After(s, ls))
    decreases |ls|
  {
    if ls != [] {
      PlacedStep(s, ls[0]);
      InvStep(s, ls[0]);
      PlacedRun(Step(s, ls[0]), ls[1..]);
    }
  }

  /** In every run each connection that was handed over waits in line, is in the accept thread's hand, is a
      member of the open room, or has been closed. */
  lemma {:induction false} NobodyLeftHanging(roomId: u32, ls: seq<Label>, fd: Fd)
    requires Legal(Start(roomId), ls) && fd in Handed(ls)
    ensures Placed(After(Start(roomId), ls), fd)
  {
    InvReachable(roomId, []);
    PlacedRun(Start(roomId), ls);
    RecordIsTheRuns(roomId, ls);
  }

  /** Closing a room disconnects everybody who was ever admitted; and whoever is taken out of the line
      after that is turned away and closed. */
  lemma {:induction false} ClosingDisconnects(roomId: u32, ls: seq<Label>)
    requires Legal(Start(roomId), ls) && !After(Start(roomId), ls).pool.on
    ensures var s := After(Start(roomId), ls);
            && RecordOf(Past(false, {}, {}, 0, 0), Start(roomId), ls).admitted <= s.net.closed
            && (s.accept.AcceptGot? && s.accept.conn.cmd != Stop ==>
                  forall a :: AcceptEnabled(s, a) ==>
                    a == RejectJoiner && s.accept.conn.sockfd in AcceptNext(s, a).net.closed)
  {
    InvReachable(roomId, []);
    PlacedRun(Start(roomId), ls);
    RecordIsTheRuns(roomId, ls);
    InvReachable(roomId, ls);
    var s := After(Start(roomId), ls);
    assert forall fd :: fd in s.past.admitted ==> fd in s.net.closed;
  }

  /** While a room stays open, a step closes a connection only if the room thread gives up that one; and a
      joiner that the accept thread has taken can only be admitted. */
  lemma {:induction false} OnlyTheLostAreClosed(roomId: u32, ls: seq<Label>, l: Label)
    requires Legal(Start(roomId), ls) && Enabled(After(Start(roomId), ls), l)
    requires Step(After(Start(roomId), ls), l).pool.on
    ensures var s := After(Start(roomId), ls);
            && Step(s, l).net.closed == s.net.closed + (if l == RoomThread(EvictMember) then {s.room.fd} else {})
            && (l.Accept? && s.accept.AcceptGot? && s.accept.conn.cmd == Join ==>
                  AdmittedAt(s, l) == {s.accept.conn.sockfd})
  {
    InvReachable(roomId, ls);
    var s := After(Start(roomId), ls);
    InvStep(s, l);
    if !s.pool.on {
      ShutStep(s, l);
    }
    match l {
      case Outside(o) =>
      case Accept(a) => assert AcceptNext(s, a).net.closed == s.net.closed;
      case RoomThread(r) => ClosedInRoom(s, r);
      case Sender(i, d) => assert SenderNext(s, i, d).net.closed == s.net.closed;
    }
  }

  lemma {:induction false} ClosedInRoom(s: Room, r: RoomStep)
    requires RoomEnabled(s, r) && RoomNext(s, r).pool.on
    ensures RoomNext(s, r).net.closed == s.net.closed + (if r.EvictMember? then {s.room.fd} else {})
  {
  }

  // ---------------------------------------------------------------------------------------
  // Who closes a room
  // ---------------------------------------------------------------------------------------

  /** The connection handed over as the creator's. */
  function CreatorIn(c: Option<Fd>, ls: seq<Label>): (d: Option<Fd>)
    decreases |ls|
  {
    if ls == [] then c else CreatorIn(CreatorBy(c, ls[0]), ls[1..])
  }

  function CreatorBy(c: Option<Fd>, l: Label): (d: Option<Fd>) {
    match l
    case Outside(HandCreate(fd, ip)) => Some(fd)
    case _ => c
  }

  /** The creator's connection is in line, in the accept thread's hand, or the owner's; nobody else is. */
  ghost predicate OwnerIsCreator(s: Room, c: Option<Fd>) {
    && (c.Some? <==> s.past.created)
    && (forall i :: 0 <= i < |s.conns| && s.conns[i].cmd == Create ==> c == Some(s.conns[i].sockfd))
    && (s.accept.AcceptGot? && s.accept.conn.cmd == Create ==> c == Some(s.accept.conn.sockfd))
    && (s.pool.owner != 0 ==> c == Some(s.pool.owner))
    && (s.pool.on && c.Some? && s.pool.owner == 0 ==> CreatorInHand(InHand(s.accept)) || CreatorQueued(s.conns))
  }

  lemma {:induction false} OwnerStep(s: Room, c: Option<Fd>, l: Label)
    requires Inv(s) && OwnerIsCreator(s, c) && Enabled(s, l)
    ensures OwnerIsCreator(Step(s, l), CreatorBy(c, l))
  {
    match l
    case Outside(o) => OwnerOutside(s, c, o);
    case Accept(a) => OwnerAccept(s, c, a);
    case RoomThread(r) => OwnerRoom(s, c, r);
    case Sender(i, d) =>
      var t := SenderNext(s, i, d);
      assert t.pool == s.pool && t.conns == s.conns && t.accept == s.accept && t.past == s.past;
  }

  lemma {:induction false} QueuedMore(conns: seq<ClientConn>, c: ClientConn)
    ensures CreatorQueued(conns) || c.cmd == Create ==> CreatorQueued(conns + [c])
  {
    if CreatorQueued(conns) {
      var i :| 0 <= i < |conns| && conns[i].cmd == Create;
      assert (conns + [c])[i].cmd == Create;
    } else if c.cmd == Create {
      assert (conns + [c])[|conns|].cmd == Create;
    }
  }

  lemma {:induction false} OwnerOutside(s: Room, c: Option<Fd>, o: OutsideStep)
    requires Inv(s) && OwnerIsCreator(s, c) && OutsideEnabled(s, o)
    ensures OwnerIsCreator(OutsideNext(s, o), CreatorBy(c, Outside(o)))
  {
    if !o.ClientReads? {
      QueuedMore(s.conns, ClientConn(if o.HandCreate? then Create else Join, o.fd));
    }
  }

  lemma {:induction false} OwnerAccept(s: Room, c: Option<Fd>, a: AcceptStep)
    requires Inv(s) && OwnerIsCreator(s, c) && AcceptEnabled(s, a)
    ensures OwnerIsCreator(AcceptNext(s, a), c)
  {
    if a.TakeConn? && CreatorQueued(s.conns) && s.conns[0].cmd != Create {
      var i :| 0 <= i < |s.conns| && s.conns[i].cmd == Create;
      assert s.conns[1..][i - 1].cmd == Create;
    }
  }

  lemma {:induction false} OwnerRoom(s: Room, c: Option<Fd>, r: RoomStep)
    requires Inv(s) && OwnerIsCreator(s, c) && RoomEnabled(s, r)
    ensures OwnerIsCreator(RoomNext(s, r), c)
  {
    if r.StopAccept? {
      QueuedMore(s.conns, ClientConn(Stop, INVALID_SOCKET));
    }
  }

  lemma {:induction false} OwnerRun(s: Room, c: Option<Fd>, ls: seq<Label>)
    requires Inv(s) && OwnerIsCreator(s, c) && Legal(s, ls)
    ensures OwnerIsCreator(After(s, ls), CreatorIn(c, ls))
    decreases |ls|
  {
    if ls != [] {
      OwnerStep(s, c, ls[0]);
      InvStep(s, ls[0]);
      OwnerRun(Step(s, ls[0]), CreatorBy(c, ls[0]), ls[1..]);
    }
  }

  /** A room is closed exactly when its creator is lost: in every run, the step that closes an open room is
      the one in which the room thread gives up a connection and that connection is the creator's; and the
      room thread evicts nobody else in any other way, and never the creator. */
  lemma {:induction false} CreatorCloses(roomId: u32, ls: seq<Label>, l: Label)
    requires Legal(Start(roomId), ls) && Enabled(After(Start(roomId), ls), l) && After(Start(roomId), ls).pool.on
    ensures var s := After(Start(roomId), ls);
            && (!Step(s, l).pool.on ==> s.room.Closing? && CreatorIn(None, ls) == Some(s.room.fd))
            && (l.RoomThread? && s.room.Closing? ==>
                  (!Step(s, l).pool.on <==> CreatorIn(None, ls) == Some(s.room.fd)))
  {
    InvReachable(roomId, ls);
    InvReachable(roomId, []);
    OwnerRun(Start(roomId), None, ls);
    var s := After(Start(roomId), ls);
    if l.RoomThread? && s.room.Closing? {
      assert s.room.fd in s.pool.activeFds;
      CreatorNotWaiting(s, s.room.fd);
    }
    if l != RoomThread(CloseRoom) {
      StaysOpen(s, l);
    }
  }

  lemma {:induction false} StaysOpen(s: Room, l: Label)
    requires Inv(s) && s.pool.on && Enabled(s, l) && l != RoomThread(CloseRoom)
    ensures Step(s, l).pool.on
  {
    match l
    case Outside(o) => assert OutsideNext(s, o).pool == s.pool;
    case Accept(a) => assert AcceptNext(s, a).pool.on;
    case RoomThread(r) => assert RoomNext(s, r).pool.on;
    case Sender(i, d) => assert SenderNext(s, i, d).pool == s.pool;
  }

  /** A member is neither in line nor in the accept thread's hand. */
  lemma {:induction false} CreatorNotWaiting(s: Room, fd: Fd)
    requires Inv(s) && fd in s.pool.activeFds
    ensures forall i :: 0 <= i < |s.conns| && s.conns[i].cmd == Create ==> s.conns[i].sockfd != fd
    ensures s.accept.AcceptGot? && s.accept.conn.cmd == Create ==> s.accept.conn.sockfd != fd
  {
  }
}
