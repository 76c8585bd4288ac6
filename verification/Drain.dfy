/** The end of a room: the queue drains cleanly, every payload is freed exactly once. */
module Drain {
  import opened Wire
  import opened NetMsg
  import opened Room
  import opened Membership

  // ---------------------------------------------------------------------------------------
  // Pills
  // ---------------------------------------------------------------------------------------

  predicate IsPill(m: NetMsg) {
    m.msgType == POISON
  }

  function LiveSenders(ps: seq<SenderPc>): (n: nat) {
    if ps == [] then 0 else (if ps[0].SenderExited? then 0 else 1) + LiveSenders(ps[1..])
  }

  lemma {:induction false} LiveUpdate(ps: seq<SenderPc>, i: nat, p: SenderPc)
    requires i < |ps|
    ensures LiveSenders(ps[i := p]) ==
            LiveSenders(ps) - (if ps[i].SenderExited? then 0 else 1) + (if p.SenderExited? then 0 else 1)
    ensures !ps[i].SenderExited? ==> LiveSenders(ps) > 0
  {
    if i == 0 {
      assert ps[i := p][1..] == ps[1..];
    } else {
      assert ps[i := p][1..] == ps[1..][i - 1 := p];
      LiveUpdate(ps[1..], i - 1, p);
    }
  }

  lemma {:induction false} LiveNone(ps: seq<SenderPc>)
    ensures LiveSenders(ps) == 0 <==> forall i :: 0 <= i < |ps| ==> ps[i].SenderExited?
    ensures LiveSenders(ps) <= |ps|
    ensures (forall i :: 0 <= i < |ps| ==> !ps[i].SenderExited?) ==> LiveSenders(ps) == |ps|
  {
    if ps != [] {
      LiveNone(ps[1..]);
      assert forall i :: 0 < i < |ps| ==> ps[i] == ps[1..][i - 1];
      assert forall i :: 0 <= i < |ps[1..]| ==> ps[1..][i] == ps[i + 1];
    }
  }

  /** Real messages, then exactly `k` pills. */
  ghost predicate EndsInPills(q: seq<NetMsg>, k: nat) {
    && k <= |q|
    && (forall i :: 0 <= i < |q| - k ==> !IsPill(q[i]))
    && (forall i :: |q| - k <= i < |q| ==> q[i] == PILL)
  }

  predicate RealMsgs(a: AcceptPc, r: RoomPc) {
    && (a.AcceptCreated? ==> !IsPill(a.reply)) && (a.AcceptListed? ==> !IsPill(a.list))
    && ((r.Reading? || r.Pushing?) ==> !IsPill(r.msg))
  }

  predicate SenderReal(p: SenderPc) {
    p.Holding? || p.Sending? ==> !IsPill(p.msg)
  }

  ghost predicate Draining(s: Room) {
    && RealMsgs(s.accept, s.room)
    && |s.senders| == SENDTHREADSIZE
    && (forall i :: 0 <= i < |s.senders| ==> SenderReal(s.senders[i]))
    && (s.down <==> s.room.JoiningSenders? || s.room.Finished?)
    && (!s.down ==> EndsInPills(s.queue, 0) && LiveSenders(s.senders) == SENDTHREADSIZE)
    && (s.down ==>
          && s.accept.AcceptDone?
          && EndsInPills(s.queue, LiveSenders(s.senders))
          && (LiveSenders(s.senders) < SENDTHREADSIZE ==> |s.queue| == LiveSenders(s.senders)))
    && (s.room.Finished? ==> LiveSenders(s.senders) == 0)
  }

  lemma DrainingSender(s: Room, i: nat, l: SenderStep)
    requires Draining(s) && SenderEnabled(s, i, l)
    ensures Draining(SenderNext(s, i, l)) && !l.PopNothing?
  {
    var t := SenderNext(s, i, l);
    LiveUpdate(s.senders, i, t.senders[i]);
    LiveNone(s.senders);
    if l.Pop? {
      assert forall k :: 0 <= k < |t.queue| ==> t.queue[k] == s.queue[k + 1];
    }
  }

  lemma DrainingRoom(s: Room, l: RoomStep)
    requires Inv(s) && Draining(s) && RoomEnabled(s, l)
    ensures Draining(RoomNext(s, l))
  {
    match l
    case SendersJoinedBack =>
      forall i | 0 <= i < |s.senders| ensures s.senders[i].SenderExited? {
        assert s.senders[i] in s.senders;
      }
      LiveNone(s.senders);
    case AcceptJoinedBack => assert Pills(5) == [PILL, PILL, PILL, PILL, PILL];
    case _ =>
  }

  lemma DrainingStep(s: Room, l: Label)
    requires Inv(s) && Draining(s) && Enabled(s, l)
    ensures Draining(Step(s, l))
  {
    match l
    case Outside(o) =>
    case Accept(a) => DrainingAccept(s, a);
    case RoomThread(r) => DrainingRoom(s, r);
    case Sender(i, d) => DrainingSender(s, i, d);
  }

  lemma DrainingAccept(s: Room, l: AcceptStep)
    requires Draining(s) && AcceptEnabled(s, l)
    ensures Draining(AcceptNext(s, l))
  {
  }

  // ---------------------------------------------------------------------------------------
  // Payloads
  // ---------------------------------------------------------------------------------------

  function InMsg(m: NetMsg, id: nat): (n: nat) {
    if m.data.Some? && m.data.value.id == id then 1 else 0
  }

  function InQueue(q: seq<NetMsg>, id: nat): (n: nat) {
    if q == [] then 0 else InMsg(q[0], id) + InQueue(q[1..], id)
  }

  function InSender(p: SenderPc, id: nat): (n: nat) {
    if p.Holding? || p.Sending? then InMsg(p.msg, id) else 0
  }

  function InSenders(ps: seq<SenderPc>, id: nat): (n: nat) {
    if ps == [] then 0 else InSender(ps[0], id) + InSenders(ps[1..], id)
  }

  function InAccept(a: AcceptPc, id: nat): (n: nat) {
    if a.AcceptCreated? then InMsg(a.reply, id) else if a.AcceptListed? then InMsg(a.list, id) else 0
  }

  function InReader(r: RoomPc, id: nat): (n: nat) {
    if r.Reading? || r.Pushing? then InMsg(r.msg, id) else 0
  }

  /** In how many places payload `id` is: with the accept thread or the reader, queued, with a
      sender, or freed (once for each call of free). */
  function Places(s: Room, id: nat): (n: nat) {
    InAccept(s.accept, id) + InReader(s.room, id) + InQueue(s.queue, id) + InSenders(s.senders, id)
    + s.heap.freed[id]
  }

  lemma {:induction false} InQueueAppend(q: seq<NetMsg>, r: seq<NetMsg>, id: nat)
    ensures InQueue(q + r, id) == InQueue(q, id) + InQueue(r, id)
  {
    if q == [] {
      assert q + r == r;
    } else {
      assert (q + r)[1..] == q[1..] + r;
      InQueueAppend(q[1..], r, id);
    }
  }

  lemma {:induction false} InSendersUpdate(ps: seq<SenderPc>, i: nat, p: SenderPc, id: nat)
    requires i < |ps|
    ensures InSenders(ps[i := p], id) + InSender(ps[i], id) == InSenders(ps, id) + InSender(p, id)
  {
    if i == 0 {
      assert ps[i := p][1..] == ps[1..];
    } else {
      assert ps[i := p][1..] == ps[1..][i - 1 := p];
      InSendersUpdate(ps[1..], i - 1, p, id);
    }
  }

  lemma {:induction false} FreeQueueFrees(h: Heap, q: seq<NetMsg>, id: nat)
    ensures FreeQueue(h, q).freed[id] == h.freed[id] + InQueue(q, id)
    ensures FreeQueue(h, q).next == h.next
    decreases |q|
  {
    if q != [] {
      FreeQueueFrees(FreeData(h, q[0]), q[1..], id);
    }
  }

  lemma PushPlaces(s: Room, m: NetMsg, id: nat)
    ensures var t := PushMsg(s, m);
            InQueue(t.queue, id) + t.heap.freed[id] == InQueue(s.queue, id) + s.heap.freed[id] + InMsg(m, id)
            && t.heap.next == s.heap.next
  {
    InQueueAppend(s.queue, [m], id);
    assert [m][1..] == [];
  }

  /** Each payload that was handed out is in exactly one place; no other id is anywhere. */
  ghost predicate Ledger(s: Room) {
    forall id: nat :: Places(s, id) == if id < s.heap.next then 1 else 0
  }

  predicate Accounted(s: Room, id: nat) {
    Places(s, id) == if id < s.heap.next then 1 else 0
  }

  lemma LedgerAccept(s: Room, l: AcceptStep, id: nat)
    requires Accounted(s, id) && AcceptEnabled(s, l)
    ensures Accounted(AcceptNext(s, l), id)
  {
    match l
    case PushCreated => PushPlaces(s, s.accept.reply, id);
    case PushJoin => PushPlaces(s, JoinMsg(s.accept.fd, s.accept.ip), id);
    case PushList => PushPlaces(s, s.accept.list, id);
    case _ =>
  }

  lemma LedgerRoom(s: Room, l: RoomStep, id: nat)
    requires Accounted(s, id) && RoomEnabled(s, l)
    ensures Accounted(RoomNext(s, l), id)
  {
    match l
    case RoomPush => PushPlaces(s, s.room.msg, id);
    case ClearQueue => FreeQueueFrees(s.heap, s.queue, id);
    case AcceptJoinedBack =>
      InQueueAppend(s.queue, Pills(SENDTHREADSIZE), id);
      PillsEmpty(SENDTHREADSIZE, id);
    case _ =>
  }

  lemma {:induction false} PillsEmpty(n: nat, id: nat)
    ensures InQueue(Pills(n), id) == 0
  {
    if n > 0 {
      PillsEmpty(n - 1, id);
      assert Pills(n)[1..] == Pills(n - 1);
    }
  }

  lemma LedgerSender(s: Room, i: nat, l: SenderStep, id: nat)
    requires Draining(s) && Accounted(s, id) && SenderEnabled(s, i, l)
    ensures Accounted(SenderNext(s, i, l), id)
  {
    InSendersUpdate(s.senders, i, SenderNext(s, i, l).senders[i], id);
    if l.Pop? && IsPill(s.queue[0]) {
      assert s.queue[0] == PILL;
    }
  }

  lemma LedgerStep(s: Room, l: Label)
    requires Draining(s) && Ledger(s) && Enabled(s, l)
    ensures Ledger(Step(s, l))
  {
    forall id: nat ensures Places(Step(s, l), id) == if id < Step(s, l).heap.next then 1 else 0 {
      assert Accounted(s, id);
      match l
      case Outside(o) =>
      case Accept(a) => LedgerAccept(s, a, id);
      case RoomThread(r) => LedgerRoom(s, r, id);
      case Sender(i, d) => LedgerSender(s, i, d, id);
    }
  }

  lemma {:induction false} EndRun(s: Room, ls: seq<Label>)
    requires Inv(s) && Draining(s) && Ledger(s) && Legal(s, ls)
    ensures var t := After(s, ls); Inv(t) && Draining(t) && Ledger(t)
    decreases |ls|
  {
    if ls != [] {
      InvStep(s, ls[0]);
      DrainingStep(s, ls[0]);
      LedgerStep(s, ls[0]);
      EndRun(Step(s, ls[0]), ls[1..]);
    }
  }

  lemma EndStart(roomId: u32)
    ensures Inv(Start(roomId)) && Draining(Start(roomId)) && Ledger(Start(roomId))
  {
    var s := Start(roomId);
    LiveNone(s.senders);
    forall id: nat ensures Places(s, id) == 0 {
      EmptyHanded(s.senders, id);
    }
  }

  lemma {:induction false} EmptyHanded(ps: seq<SenderPc>, id: nat)
    requires forall i :: 0 <= i < |ps| ==> ps[i].SenderIdle? || ps[i].SenderExited?
    ensures InSenders(ps, id) == 0
  {
    if ps != [] {
      EmptyHanded(ps[1..], id);
    }
  }

  /** Clean drain. Once the queue is shut down nothing is pushed any more and the queue is real
      messages followed by exactly one pill for each sender that still runs; a pill is taken only
      when no real message is left; and no sender ever finds the queue empty. When the senders have
      been joined the queue is empty. */
  lemma CleanDrain(roomId: u32, ls: seq<Label>)
    requires Legal(Start(roomId), ls)
    ensures var s := After(Start(roomId), ls);
            && (s.down ==>
                  && EndsInPills(s.queue, LiveSenders(s.senders))
                  && (LiveSenders(s.senders) < SENDTHREADSIZE ==> forall k :: 0 <= k < |s.queue| ==> s.queue[k] == PILL)
                  && s.accept.AcceptDone? && !s.room.Pushing?)
            && (!s.down ==> LiveSenders(s.senders) == SENDTHREADSIZE)
            && (forall i :: !SenderEnabled(s, i, PopNothing))
            && (s.room.Finished? ==> s.queue == [] && forall i :: 0 <= i < |s.senders| ==> s.senders[i].SenderExited?)
  {
    EndStart(roomId);
    EndRun(Start(roomId), ls);
    var s := After(Start(roomId), ls);
    LiveNone(s.senders);
    forall i ensures !SenderEnabled(s, i, PopNothing) {
      if SenderEnabled(s, i, PopNothing) {
        DrainingSender(s, i, PopNothing);
      }
    }
  }

  /** Payload conservation, at every moment of every run, and at the end: when the room thread
      returns, every payload the room ever allocated has been freed, once. */
  lemma PayloadsConserved(roomId: u32, ls: seq<Label>)
    requires Legal(Start(roomId), ls)
    ensures var s := After(Start(roomId), ls);
            && (forall id: nat :: Places(s, id) == if id < s.heap.next then 1 else 0)
            && (forall id: nat :: s.heap.freed[id] <= 1)
            && (s.room.Finished? ==> forall id: nat :: id < s.heap.next ==> s.heap.freed[id] == 1)
  {
    EndStart(roomId);
    EndRun(Start(roomId), ls);
    var s := After(Start(roomId), ls);
    forall id: nat ensures s.heap.freed[id] <= 1 {
      assert Places(s, id) <= 1;
    }
    if s.room.Finished? {
      LiveNone(s.senders);
      forall id: nat | id < s.heap.next ensures s.heap.freed[id] == 1 {
        EmptyHanded(s.senders, id);
        assert Places(s, id) == 1;
      }
    }
  }
}
