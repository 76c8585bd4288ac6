/** When the threads of a room have to wait, and that they never all wait for each other. (Wakeups are the
    subject of module Wakeups: here a thread waits exactly as long as its condition does not hold.) */
module Progress {
  import opened Wire
  import opened NetMsg
  import opened Pool
  import opened Room
  import opened Membership
  import opened Drain

  predicate QueueFull(s: Room) {
    |s.queue| >= MAXSIZE && !s.down
  }

  predicate AtPush(a: AcceptPc) {
    a.AcceptCreated? || a.AcceptJoined? || a.AcceptListed?
  }

  /** The accept thread waits for a connection or for room in the queue, and for nothing else. */
  lemma {:induction false} AcceptWaits(s: Room)
    ensures (exists a :: AcceptEnabled(s, a)) <==>
            !((s.accept.AcceptIdle? && s.conns == []) || (AtPush(s.accept) && QueueFull(s)) || s.accept.AcceptDone?)
  {
    match s.accept
    case AcceptIdle => assert s.conns != [] ==> AcceptEnabled(s, TakeConn);
    case AcceptGot(c) =>
      match c.cmd {
        case Create => assert AcceptEnabled(s, AdmitCreator);
        case Join => assert AcceptEnabled(s, if s.pool.on then AdmitJoiner else RejectJoiner);
        case Stop => assert AcceptEnabled(s, AcceptStop);
      }
    case AcceptCreated(m) => assert !QueueFull(s) ==> AcceptEnabled(s, PushCreated);
    case AcceptJoined(fd, ip) => assert !QueueFull(s) ==> AcceptEnabled(s, PushJoin);
    case AcceptAnnounced(fd) => assert AcceptEnabled(s, TakeList);
    case AcceptListed(m) => assert !QueueFull(s) ==> AcceptEnabled(s, PushList);
    case AcceptDone =>
  }

  /** The room thread waits for room in the queue and, when the room is closed, for the other threads to
      end. */
  lemma {:induction false} RoomWaits(s: Room)
    ensures (exists r :: RoomEnabled(s, r)) <==>
            !((s.room.Pushing? && QueueFull(s)) || (s.room.JoiningAccept? && !s.accept.AcceptDone?)
              || (s.room.JoiningSenders? && exists p :: p in s.senders && !p.SenderExited?) || s.room.Finished?)
  {
    match s.room
    case Looping => assert RoomEnabled(s, if s.shutdown then StopAccept else CopyFdset);
    case Selecting(rset) => assert RoomEnabled(s, SelectReady({}));
    case Selected(ready) => assert RoomEnabled(s, TakeSnapshot);
    case Passing(p) =>
      assert RoomEnabled(s, if p.todo == [] then EndPass else if p.todo[0] in p.ready then ReadBad else SkipIdle);
    case Reading(fd, m, p) => assert RoomEnabled(s, PayloadGood) && RoomEnabled(s, PayloadBad);
    case Closing(fd, p) => assert RoomEnabled(s, if s.pool.owner == fd then CloseRoom else EvictMember);
    case Clearing(p) => assert RoomEnabled(s, ClearQueue);
    case Pushing(m, p) => assert !QueueFull(s) ==> RoomEnabled(s, RoomPush);
    case JoiningAccept => assert s.accept.AcceptDone? ==> RoomEnabled(s, AcceptJoinedBack);
    case JoiningSenders =>
      assert (forall p :: p in s.senders ==> p.SenderExited?) ==> RoomEnabled(s, SendersJoinedBack);
    case Finished =>
  }

  /** A sender waits for a message, and for nothing else. */
  lemma {:induction false} SenderWaits(s: Room, i: nat)
    requires i < |s.senders|
    ensures (exists d :: SenderEnabled(s, i, d)) <==>
            !(s.senders[i].SenderExited? || (s.senders[i].SenderIdle? && s.queue == [] && !s.down))
  {
    match s.senders[i]
    case SenderIdle =>
      assert s.queue != [] ==> SenderEnabled(s, i, Pop);
      assert s.queue == [] && s.down ==> SenderEnabled(s, i, PopNothing);
    case Holding(m) => assert SenderEnabled(s, i, FindTargets);
    case Sending(m, todo) => assert SenderEnabled(s, i, if todo == [] then Release else WriteOne);
    case SenderExited =>
  }

  /** While the room thread waits for the accept thread, the stop is on its way to it. */
  ghost predicate StopComing(s: Room) {
    s.room.JoiningAccept? && !s.accept.AcceptDone? ==>
      (exists i :: 0 <= i < |s.conns| && s.conns[i].cmd == Stop) || (s.accept.AcceptGot? && s.accept.conn.cmd == Stop)
  }

  lemma {:induction false} StopStep(s: Room, l: Label)
    requires StopComing(s) && Enabled(s, l)
    ensures StopComing(Step(s, l))
  {
    match l
    case Outside(o) => StopOutside(s, o);
    case Accept(a) => StopAcceptStep(s, a);
    case RoomThread(r) => StopRoom(s, r);
    case Sender(i, d) =>
      assert SenderNext(s, i, d).conns == s.conns && SenderNext(s, i, d).accept == s.accept;
      assert SenderNext(s, i, d).room == s.room;
  }

  lemma {:induction false} StopOutside(s: Room, o: OutsideStep)
    requires StopComing(s) && OutsideEnabled(s, o)
    ensures StopComing(OutsideNext(s, o))
  {
    var t := OutsideNext(s, o);
    if exists i :: 0 <= i < |s.conns| && s.conns[i].cmd == Stop {
      var i :| 0 <= i < |s.conns| && s.conns[i].cmd == Stop;
      assert t.conns[i].cmd == Stop;
    }
  }

  lemma {:induction false} StopAcceptStep(s: Room, a: AcceptStep)
    requires StopComing(s) && AcceptEnabled(s, a)
    ensures StopComing(AcceptNext(s, a))
  {
    var t := AcceptNext(s, a);
    if exists i :: 0 <= i < |s.conns| && s.conns[i].cmd == Stop {
      var i :| 0 <= i < |s.conns| && s.conns[i].cmd == Stop;
      if a.TakeConn? && i > 0 {
        assert t.conns[i - 1].cmd == Stop;
      } else if !a.TakeConn? {
        assert t.conns[i].cmd == Stop;
      }
    }
  }

  lemma {:induction false} StopRoom(s: Room, r: RoomStep)
    requires StopComing(s) && RoomEnabled(s, r)
    ensures StopComing(RoomNext(s, r))
  {
    if r.StopAccept? {
      assert RoomNext(s, r).conns[|s.conns|].cmd == Stop;
    }
  }

  lemma {:induction false} StopRun(s: Room, ls: seq<Label>)
    requires StopComing(s) && Legal(s, ls)
    ensures StopComing(After(s, ls))
    decreases |ls|
  {
    if ls != [] {
      StopStep(s, ls[0]);
      StopRun(Step(s, ls[0]), ls[1..]);
    }
  }

  ghost predicate Moves(s: Room) {
    exists l :: Enabled(s, l) && !l.Outside?
  }

  lemma {:induction false} SomeoneMoves(s: Room)
    requires (exists a :: AcceptEnabled(s, a)) || (exists r :: RoomEnabled(s, r))
             || (exists i: nat, d :: SenderEnabled(s, i, d))
    ensures Moves(s)
  {
    if exists a :: AcceptEnabled(s, a) {
      var a :| AcceptEnabled(s, a);
      assert Enabled(s, Accept(a));
    } else if exists r :: RoomEnabled(s, r) {
      var r :| RoomEnabled(s, r);
      assert Enabled(s, RoomThread(r));
    } else {
      var i: nat, d :| SenderEnabled(s, i, d);
      assert Enabled(s, Sender(i, d));
    }
  }

  /** A full queue is being drained. */
  lemma {:induction false} FullQueueDrains(s: Room)
    requires Draining(s) && QueueFull(s)
    ensures exists d :: SenderEnabled(s, 0, d)
  {
    AllLive(s.senders, 0);
    SenderWaits(s, 0);
  }

  lemma {:induction false} AllLive(ps: seq<SenderPc>, i: nat)
    requires LiveSenders(ps) == |ps| && i < |ps|
    ensures !ps[i].SenderExited?
  {
    LiveUpdate(ps, i, SenderIdle);
    LiveNone(ps[i := SenderIdle]);
  }

  /** No deadlock: in every run, until the room thread has returned, some thread of the room can take a
      step. */
  lemma {:induction false} NoDeadlock(roomId: u32, ls: seq<Label>)
    requires Legal(Start(roomId), ls) && !After(Start(roomId), ls).room.Finished?
    ensures Moves(After(Start(roomId), ls))
  {
    var s := After(Start(roomId), ls);
    EndStart(roomId);
    EndRun(Start(roomId), ls);
    StopRun(Start(roomId), ls);
    RoomWaits(s);
    if s.room.Pushing? && QueueFull(s) {
      FullQueueDrains(s);
    } else if s.room.JoiningAccept? && !s.accept.AcceptDone? {
      AcceptWaits(s);
      if QueueFull(s) {
        FullQueueDrains(s);
      }
    } else if s.room.JoiningSenders? && exists p :: p in s.senders && !p.SenderExited? {
      var p :| p in s.senders && !p.SenderExited?;
      var i: nat :| i < |s.senders| && s.senders[i] == p;
      SenderWaits(s, i);
    }
    SomeoneMoves(s);
  }
}
