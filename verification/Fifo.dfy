/** The two queues of a room, told from the labels of a run alone: what a thread holds when it pushes goes
    in, and what goes in comes out in the same order. */
module Fifo {
  import opened Wire
  import opened NetMsg
  import opened Room
  import opened Membership
  import opened Drain

  // What went into a queue and what came out of it, since it was last emptied.
  datatype Log<T> = Log(pushed: seq<T>, popped: seq<T>)

  // ---------------------------------------------------------------------------------------
  // Messages
  // ---------------------------------------------------------------------------------------

  /** The message a thread holds where it pushes; and the pills of the shutdown. */
  function PushedAt(s: Room, l: Label): (ms: seq<NetMsg>)
    requires Enabled(s, l)
  {
    match l
    case RoomThread(RoomPush) => [s.room.msg]
    case Accept(PushCreated) => [s.accept.reply]
    case Accept(PushJoin) => [NetMsg(PARTNER_JOIN, s.accept.ip, s.accept.fd, 0, None)]
    case Accept(PushList) => [s.accept.list]
    case RoomThread(AcceptJoinedBack) => [PILL, PILL, PILL, PILL, PILL]
    case _ => []
  }

  /** What a sender has in its hand after a pop; or it has left with a pill. */
  function PoppedAt(s: Room, l: Label): (ms: seq<NetMsg>)
    requires Enabled(s, l)
  {
    if l.Sender? && l.s.Pop? then
      var t := Step(s, l);
      if l.i < |t.senders| && t.senders[l.i].Holding? then [t.senders[l.i].msg] else [PILL]
    else []
  }

  function Logged(g: Log<NetMsg>, s: Room, l: Label): (k: Log<NetMsg>)
    requires Enabled(s, l)
  {
    if l == RoomThread(ClearQueue) then Log([], [])
    else Log(g.pushed + PushedAt(s, l), g.popped + PoppedAt(s, l))
  }

  function LogOf(g: Log<NetMsg>, s: Room, ls: seq<Label>): (k: Log<NetMsg>)
    requires Legal(s, ls)
    decreases |ls|
  {
    if ls == [] then g else LogOf(Logged(g, s, ls[0]), Step(s, ls[0]), ls[1..])
  }

  /** Nobody pushes after the shutdown. */
  lemma {:induction false} NoPushWhenDown(s: Room, l: Label)
    requires Draining(s) && s.down && Enabled(s, l)
    ensures PushedAt(s, l) == []
  {
  }

  lemma {:induction false} LoggedStep(s: Room, g: Log<NetMsg>, l: Label)
    requires Draining(s) && Enabled(s, l) && g.pushed == g.popped + s.queue
    ensures var k := Logged(g, s, l); k.pushed == k.popped + Step(s, l).queue
  {
    if l == RoomThread(ClearQueue) {
      assert RoomNext(s, ClearQueue).queue == [];
    } else {
      QueueMoves(s, l);
      Regroup(g.popped, s.queue, PushedAt(s, l), PoppedAt(s, l), Step(s, l).queue);
    }
  }

  lemma {:induction false} QueueMoves(s: Room, l: Label)
    requires Draining(s) && Enabled(s, l) && l != RoomThread(ClearQueue)
    ensures s.queue + PushedAt(s, l) == PoppedAt(s, l) + Step(s, l).queue
  {
    match l
    case Outside(o) =>
    case Accept(a) => QueueAccept(s, a);
    case RoomThread(r) => QueueRoom(s, r);
    case Sender(i, d) =>
  }

  lemma {:induction false} QueueAccept(s: Room, a: AcceptStep)
    requires Draining(s) && AcceptEnabled(s, a)
    ensures AcceptNext(s, a).queue == s.queue + PushedAt(s, Accept(a))
  {
    if s.down {
      NoPushWhenDown(s, Accept(a));
    }
  }

  lemma {:induction false} QueueRoom(s: Room, r: RoomStep)
    requires Draining(s) && RoomEnabled(s, r) && r != ClearQueue
    ensures RoomNext(s, r).queue == s.queue + PushedAt(s, RoomThread(r))
  {
    if s.down {
      NoPushWhenDown(s, RoomThread(r));
    }
    if r.AcceptJoinedBack? {
      assert Pills(5) == [PILL, PILL, PILL, PILL, PILL];
    }
  }

  lemma {:induction false} LoggedRun(s: Room, g: Log<NetMsg>, ls: seq<Label>)
    requires Inv(s) && Draining(s) && Ledger(s) && g.pushed == g.popped + s.queue && Legal(s, ls)
    ensures var k := LogOf(g, s, ls); k.pushed == k.popped + After(s, ls).queue
    decreases |ls|
  {
    if ls != [] {
      InvStep(s, ls[0]);
      DrainingStep(s, ls[0]);
      LedgerStep(s, ls[0]);
      LoggedStep(s, g, ls[0]);
      LoggedRun(Step(s, ls[0]), Logged(g, s, ls[0]), ls[1..]);
    }
  }

  /** First in, first out, in every run, the shutdown included: the messages held at the pushes since the
      queue was last cleared, in order, are the messages taken by senders since then, in order, followed
      by what is queued. */
  lemma {:induction false} QueueIsFifo(roomId: u32, ls: seq<Label>)
    requires Legal(Start(roomId), ls)
    ensures var g := LogOf(Log([], []), Start(roomId), ls);
            g.pushed == g.popped + After(Start(roomId), ls).queue
  {
    EndStart(roomId);
    LoggedRun(Start(roomId), Log([], []), ls);
  }

  // ---------------------------------------------------------------------------------------
  // Who frees a payload
  // ---------------------------------------------------------------------------------------

  /** The step frees the payload of a message that its thread is done with. */
  predicate MayFree(s: Room, l: Label, id: nat)
    requires Enabled(s, l)
  {
    || (l.Sender? && l.s.Release? && InMsg(s.senders[l.i].msg, id) == 1)
    || (l == RoomThread(PayloadBad) && InMsg(s.room.msg, id) == 1)
  }

  /** As long as a room is open nothing is dropped: a payload is freed by a sender that has passed it on,
      or by the reader of a bad frame, and by nobody else. */
  lemma {:induction false} FreedByItsOwner(roomId: u32, ls: seq<Label>, l: Label, id: nat)
    requires Legal(Start(roomId), ls) && Enabled(After(Start(roomId), ls), l)
    requires Step(After(Start(roomId), ls), l).pool.on
    ensures var s := After(Start(roomId), ls);
            Step(s, l).heap.freed[id] == s.heap.freed[id] + (if MayFree(s, l, id) then 1 else 0)
  {
    InvReachable(roomId, ls);
    var s := After(Start(roomId), ls);
    InvStep(s, l);
    if !s.pool.on {
      ShutStep(s, l);
    }
    match l
    case Outside(o) =>
    case Accept(a) => assert AcceptNext(s, a).heap.freed == s.heap.freed;
    case RoomThread(r) => FreedInRoom(s, r, id);
    case Sender(i, d) =>
  }

  lemma {:induction false} FreedInRoom(s: Room, r: RoomStep, id: nat)
    requires Inv(s) && s.pool.on && RoomEnabled(s, r)
    ensures RoomNext(s, r).heap.freed[id] == s.heap.freed[id] + (if MayFree(s, RoomThread(r), id) then 1 else 0)
  {
  }

  /** How often a payload was freed by one that may. */
  function Frees(n: nat, s: Room, ls: seq<Label>, id: nat): (k: nat)
    requires Legal(s, ls)
    decreases |ls|
  {
    if ls == [] then n
    else Frees(n + (if MayFree(s, ls[0], id) then 1 else 0), Step(s, ls[0]), ls[1..], id)
  }

  lemma {:induction false} FreesRun(roomId: u32, past: seq<Label>, ls: seq<Label>, n: nat, id: nat)
    requires Legal(Start(roomId), past) && Legal(After(Start(roomId), past), ls)
    requires After(After(Start(roomId), past), ls).pool.on
    requires After(Start(roomId), past).heap.freed[id] == n
    ensures After(After(Start(roomId), past), ls).heap.freed[id] == Frees(n, After(Start(roomId), past), ls, id)
    decreases |ls|
  {
    if ls != [] {
      var s, l := After(Start(roomId), past), ls[0];
      StillOpen(roomId, past, ls);
      FreedByItsOwner(roomId, past, l, id);
      OneMore(Start(roomId), past, l);
      FreesRun(roomId, past + [l], ls[1..], n + (if MayFree(s, l, id) then 1 else 0), id);
    }
  }

  /** A room that is open in the end was open all along. */
  lemma {:induction false} StillOpen(roomId: u32, past: seq<Label>, ls: seq<Label>)
    requires Legal(Start(roomId), past) && ls != [] && Legal(After(Start(roomId), past), ls)
    requires After(After(Start(roomId), past), ls).pool.on
    ensures Step(After(Start(roomId), past), ls[0]).pool.on
  {
    var s := After(Start(roomId), past);
    InvReachable(roomId, past);
    InvStep(s, ls[0]);
    if !Step(s, ls[0]).pool.on {
      ShutRun(Step(s, ls[0]), ls[1..]);
    }
  }

  lemma {:induction false} OneMore(s: Room, ls: seq<Label>, l: Label)
    requires Legal(s, ls) && Enabled(After(s, ls), l)
    ensures Legal(s, ls + [l]) && After(s, ls + [l]) == Step(After(s, ls), l)
    decreases |ls|
  {
    if ls == [] {
      assert ls + [l] == [l];
      assert [l][1..] == [];
    } else {
      OneMore(Step(s, ls[0]), ls[1..], l);
      assert (ls + [l])[1..] == ls[1..] + [l];
    }
  }

  /** So in an open room a payload that was handed out is with the accept thread, the reader or a sender,
      or queued, unless it was passed on or its frame was bad. */
  lemma {:induction false} NothingIsLost(roomId: u32, ls: seq<Label>, id: nat)
    requires Legal(Start(roomId), ls) && After(Start(roomId), ls).pool.on && id < After(Start(roomId), ls).heap.next
    ensures var s := After(Start(roomId), ls);
            var held := InAccept(s.accept, id) + InReader(s.room, id) + InQueue(s.queue, id) + InSenders(s.senders, id);
            held + Frees(0, Start(roomId), ls, id) == 1
  {
    PayloadsConserved(roomId, ls);
    assert Places(After(Start(roomId), ls), id) == 1;
    assert After(Start(roomId), []) == Start(roomId);
    FreesRun(roomId, [], ls, 0, id);
  }

  // ---------------------------------------------------------------------------------------
  // Connections
  // ---------------------------------------------------------------------------------------

  /** What is handed over, by command and socket; the last thing is the room thread's stop. */
  function HandedAt(l: Label): (cs: seq<(Cmd, Fd)>) {
    match l
    case Outside(HandCreate(fd, ip)) => [(Create, fd)]
    case Outside(HandJoin(fd, ip)) => [(Join, fd)]
    case RoomThread(StopAccept) => [(Stop, INVALID_SOCKET)]
    case _ => []
  }

  /** What the accept thread has in its hand after it took one. */
  function TakenAt(s: Room, l: Label): (cs: seq<(Cmd, Fd)>)
    requires Enabled(s, l)
  {
    if l == Accept(TakeConn) && Step(s, l).accept.AcceptGot? then
      [(Step(s, l).accept.conn.cmd, Step(s, l).accept.conn.sockfd)]
    else []
  }

  function Line(cs: seq<ClientConn>): (ps: seq<(Cmd, Fd)>)
    ensures |ps| == |cs|
  {
    seq(|cs|, i requires 0 <= i < |cs| => (cs[i].cmd, cs[i].sockfd))
  }

  function ConnLog(g: Log<(Cmd, Fd)>, s: Room, ls: seq<Label>): (k: Log<(Cmd, Fd)>)
    requires Legal(s, ls)
    decreases |ls|
  {
    if ls == [] then g
    else ConnLog(Log(g.pushed + HandedAt(ls[0]), g.popped + TakenAt(s, ls[0])), Step(s, ls[0]), ls[1..])
  }

  lemma {:induction false} LineStep(s: Room, g: Log<(Cmd, Fd)>, l: Label)
    requires Enabled(s, l) && g.pushed == g.popped + Line(s.conns)
    ensures g.pushed + HandedAt(l) == g.popped + TakenAt(s, l) + Line(Step(s, l).conns)
  {
    LineMoves(s, l);
    Regroup(g.popped, Line(s.conns), HandedAt(l), TakenAt(s, l), Line(Step(s, l).conns));
  }

  lemma Regroup<T>(a: seq<T>, b: seq<T>, c: seq<T>, d: seq<T>, e: seq<T>)
    requires b + c == d + e
    ensures a + b + c == a + d + e
  {
    assert a + b + c == a + (b + c);
    assert a + d + e == a + (d + e);
  }

  lemma {:induction false} LineMoves(s: Room, l: Label)
    requires Enabled(s, l)
    ensures Line(s.conns) + HandedAt(l) == TakenAt(s, l) + Line(Step(s, l).conns)
  {
    match l
    case Outside(o) => assert Line(OutsideNext(s, o).conns) == Line(s.conns) + HandedAt(l);
    case Accept(a) => assert Line(s.conns) == TakenAt(s, l) + Line(AcceptNext(s, a).conns);
    case RoomThread(r) => assert Line(RoomNext(s, r).conns) == Line(s.conns) + HandedAt(l);
    case Sender(i, d) => assert SenderNext(s, i, d).conns == s.conns;
  }

  lemma {:induction false} LineRun(s: Room, g: Log<(Cmd, Fd)>, ls: seq<Label>)
    requires g.pushed == g.popped + Line(s.conns) && Legal(s, ls)
    ensures var k := ConnLog(g, s, ls); k.pushed == k.popped + Line(After(s, ls).conns)
    decreases |ls|
  {
    if ls != [] {
      LineStep(s, g, ls[0]);
      LineRun(Step(s, ls[0]), Log(g.pushed + HandedAt(ls[0]), g.popped + TakenAt(s, ls[0])), ls[1..]);
    }
  }

  /** In every run the connections handed over, in order, are those the accept thread has taken, in order,
      followed by those that wait. */
  lemma {:induction false} LineIsFifo(roomId: u32, ls: seq<Label>)
    requires Legal(Start(roomId), ls)
    ensures var g := ConnLog(Log([], []), Start(roomId), ls);
            g.pushed == g.popped + Line(After(Start(roomId), ls).conns)
  {
    LineRun(Start(roomId), Log([], []), ls);
  }
}
