/** How often a payload is written to whom, over whole runs: five senders, in any interleaving with the
    accept thread, the room thread and the clients, write a message to each member it is meant for
    exactly once. */
module Delivery {
  import opened Wire
  import opened NetMsg
  import opened Pool
  import opened Room
  import opened Membership
  import opened Drain
  import opened Relay

  // ---------------------------------------------------------------------------------------
  // The messages a run makes
  // ---------------------------------------------------------------------------------------

  /** The message with a payload that a step makes, if it makes one. Payload ids count up, so the
      message with payload `id` is the id-th one made. */
  function NewMsgs(s: Room, l: Label): (ms: seq<NetMsg>)
    requires Enabled(s, l)
  {
    match l
    case Accept(AdmitCreator) => [AcceptNext(s, AdmitCreator).accept.reply]
    case Accept(TakeList) => [AcceptNext(s, TakeList).accept.list]
    case RoomThread(ReadHeader(kind, len, bytes)) =>
      if len >= 0 then [RoomNext(s, ReadHeader(kind, len, bytes)).room.msg] else []
    case _ => []
  }

  function Made(h: seq<NetMsg>, s: Room, ls: seq<Label>): (k: seq<NetMsg>)
    requires Legal(s, ls)
    decreases |ls|
  {
    if ls == [] then h else Made(h + NewMsgs(s, ls[0]), Step(s, ls[0]), ls[1..])
  }

  /** A message with a payload is the message that was made with it. */
  predicate Known(m: NetMsg, h: seq<NetMsg>) {
    m.data.Some? ==> m.data.value.id < |h| && h[m.data.value.id] == m
  }

  ghost predicate AllKnown(s: Room, h: seq<NetMsg>) {
    && |h| == s.heap.next
    && (forall k :: 0 <= k < |s.queue| ==> Known(s.queue[k], h))
    && (forall i :: 0 <= i < |s.senders| && (s.senders[i].Holding? || s.senders[i].Sending?) ==>
          Known(s.senders[i].msg, h))
    && (s.accept.AcceptCreated? ==> Known(s.accept.reply, h))
    && (s.accept.AcceptListed? ==> Known(s.accept.list, h))
    && (s.room.Reading? || s.room.Pushing? ==> Known(s.room.msg, h))
  }

  lemma KnownMore(s: Room, h: seq<NetMsg>, more: seq<NetMsg>)
    requires AllKnown(s, h)
    ensures AllKnown(s.(heap := s.heap.(next := |h + more|)), h + more)
  {
  }

  lemma {:induction false} KnownAccept(s: Room, h: seq<NetMsg>, l: AcceptStep)
    requires AllKnown(s, h) && AcceptEnabled(s, l)
    ensures AllKnown(AcceptNext(s, l), h + NewMsgs(s, Accept(l)))
  {
    KnownMore(s, h, NewMsgs(s, Accept(l)));
  }

  lemma {:induction false} KnownRoom(s: Room, h: seq<NetMsg>, l: RoomStep)
    requires AllKnown(s, h) && RoomEnabled(s, l)
    ensures AllKnown(RoomNext(s, l), h + NewMsgs(s, RoomThread(l)))
  {
    match l
    case ReadHeader(kind, len, bytes) => KnownMore(s, h, NewMsgs(s, RoomThread(l)));
    case ClearQueue => FreeQueueFrees(s.heap, s.queue, 0);
    case _ => KnownQuiet(s, h, l);
    assert h + [] == h;
  }

  lemma {:induction false} KnownQuiet(s: Room, h: seq<NetMsg>, l: RoomStep)
    requires AllKnown(s, h) && RoomEnabled(s, l) && !l.ReadHeader? && !l.ClearQueue?
    ensures AllKnown(RoomNext(s, l), h)
  {
  }

  lemma {:induction false} KnownSender(s: Room, h: seq<NetMsg>, i: nat, l: SenderStep)
    requires AllKnown(s, h) && SenderEnabled(s, i, l)
    ensures AllKnown(SenderNext(s, i, l), h)
  {
  }

  lemma {:induction false} KnownStep(s: Room, h: seq<NetMsg>, l: Label)
    requires AllKnown(s, h) && Enabled(s, l)
    ensures AllKnown(Step(s, l), h + NewMsgs(s, l))
  {
    assert h + [] == h;
    match l
    case Outside(o) =>
    case Accept(a) => KnownAccept(s, h, a);
    case RoomThread(r) => KnownRoom(s, h, r);
    case Sender(i, d) => KnownSender(s, h, i, d);
  }

  // ---------------------------------------------------------------------------------------
  // Counting writes
  // ---------------------------------------------------------------------------------------

  // About one payload and one connection `a`: how often a sender found targets for the payload, how
  // often `a` was meant, how often it was written to `a`, and how often a sender let go of it.
  datatype Tally = Tally(finds: nat, aims: nat, hits: nat, releases: nat)

  const NOTHING: Tally := Tally(0, 0, 0, 0)

  predicate Has(p: SenderPc, id: nat) {
    (p.Holding? || p.Sending?) && InMsg(p.msg, id) == 1
  }

  /** Whom a message is meant for, given the members of the moment. */
  predicate Meant(p: PoolState, m: NetMsg, a: Fd) {
    if m.msgType == CREATE_MEETING_RESPONSE then a == m.targetfd
    else if IsBroadcast(m.msgType) then a in p.activeFds && a != m.targetfd
    else m.msgType == PARTNER_JOIN2 && a in p.activeFds && a == m.targetfd
  }

  function One(b: bool): (n: nat) {
    if b then 1 else 0
  }

  function Noted(x: Tally, s: Room, l: Label, a: Fd, id: nat): (y: Tally)
    requires Enabled(s, l)
  {
    if l.Sender? && Has(s.senders[l.i], id) then
      match l.s
      case FindTargets => x.(finds := x.finds + 1, aims := x.aims + One(Meant(s.pool, s.senders[l.i].msg, a)))
      case WriteOne => x.(hits := x.hits + One(s.senders[l.i].todo[0] == a))
      case Release => x.(releases := x.releases + 1)
      case _ => x
    else x
  }

  /** The tally of a run. */
  function Count(x: Tally, s: Room, ls: seq<Label>, a: Fd, id: nat): (y: Tally)
    requires Legal(s, ls)
    decreases |ls|
  {
    if ls == [] then x else Count(Noted(x, s, ls[0], a, id), Step(s, ls[0]), ls[1..], a, id)
  }

  lemma TargetsAreMeant(p: PoolState, m: NetMsg, a: Fd)
    ensures a in Targets(p, m) <==> Meant(p, m, a)
    ensures NoDup(p.activeFds) ==> NoDup(Targets(p, m))
  {
    SelectIsFilter(p.activeFds, m.targetfd, false);
    SelectIsFilter(p.activeFds, m.targetfd, true);
  }

  function SendingOne(p: SenderPc, id: nat): (n: nat) {
    One(p.Sending? && Has(p, id))
  }

  function AheadOne(p: SenderPc, a: Fd, id: nat): (n: nat) {
    One(p.Sending? && Has(p, id) && a in p.todo)
  }

  /** How many senders are writing the payload, and how many of them have `a` still ahead. */
  function Sendings(ps: seq<SenderPc>, id: nat): (n: nat) {
    if ps == [] then 0 else SendingOne(ps[0], id) + Sendings(ps[1..], id)
  }

  function Ahead(ps: seq<SenderPc>, a: Fd, id: nat): (n: nat) {
    if ps == [] then 0 else AheadOne(ps[0], a, id) + Ahead(ps[1..], a, id)
  }

  lemma {:induction false} SendingsUpdate(ps: seq<SenderPc>, i: nat, p: SenderPc, a: Fd, id: nat)
    requires i < |ps|
    ensures Sendings(ps[i := p], id) + SendingOne(ps[i], id) == Sendings(ps, id) + SendingOne(p, id)
    ensures Ahead(ps[i := p], a, id) + AheadOne(ps[i], a, id) == Ahead(ps, a, id) + AheadOne(p, a, id)
  {
    if i == 0 {
      assert ps[i := p][1..] == ps[1..];
    } else {
      assert ps[i := p][1..] == ps[1..][i - 1 := p];
      SendingsUpdate(ps[1..], i - 1, p, a, id);
    }
  }

  lemma {:induction false} SendingsBound(ps: seq<SenderPc>, a: Fd, id: nat)
    ensures Ahead(ps, a, id) <= Sendings(ps, id) <= InSenders(ps, id)
  {
    if ps != [] {
      SendingsBound(ps[1..], a, id);
    }
  }

  ghost predicate TodosOnce(ps: seq<SenderPc>) {
    forall i :: 0 <= i < |ps| && ps[i].Sending? ==> NoDup(ps[i].todo)
  }

  /** Every find is still being written or was released; every aim was hit or is still ahead. */
  ghost predicate Counted(s: Room, x: Tally, a: Fd, id: nat) {
    && x.finds == Sendings(s.senders, id) + x.releases
    && x.releases <= s.heap.freed[id]
    && x.aims == x.hits + Ahead(s.senders, a, id)
    && x.aims <= x.finds
  }

  /** A step of anybody but a sender. */
  lemma {:induction false} CountedQuiet(s: Room, x: Tally, l: Label, a: Fd, id: nat)
    requires Counted(s, x, a, id) && Enabled(s, l) && !l.Sender?
    ensures Counted(Step(s, l), Noted(x, s, l, a, id), a, id)
  {
    match l
    case Outside(o) =>
    case Accept(q) => assert AcceptNext(s, q).senders == s.senders;
    case RoomThread(r) =>
      assert RoomNext(s, r).senders == s.senders;
      if r.ClearQueue? {
        FreeQueueFrees(s.heap, s.queue, id);
      }
  }

  lemma {:induction false} CountedSender(s: Room, x: Tally, i: nat, l: SenderStep, a: Fd, id: nat)
    requires Counted(s, x, a, id) && TodosOnce(s.senders) && SenderEnabled(s, i, l)
    ensures Counted(SenderNext(s, i, l), Noted(x, s, Sender(i, l), a, id), a, id)
  {
    var p, q := s.senders[i], SenderNext(s, i, l).senders[i];
    SendingsUpdate(s.senders, i, q, a, id);
    match l
    case FindTargets => TargetsAreMeant(s.pool, p.msg, a);
    case WriteOne => HeadOnce(p.todo, a);
    case _ =>
  }

  lemma HeadOnce(todo: seq<Fd>, a: Fd)
    requires todo != [] && NoDup(todo)
    ensures a in todo <==> a == todo[0] || a in todo[1..]
    ensures !(a == todo[0] && a in todo[1..])
    ensures NoDup(todo[1..])
  {
    assert todo == [todo[0]] + todo[1..];
  }

  lemma {:induction false} TodosStep(s: Room, l: Label)
    requires Inv(s) && TodosOnce(s.senders) && Enabled(s, l)
    ensures TodosOnce(Step(s, l).senders)
  {
    match l
    case Outside(o) =>
    case Accept(q) => assert AcceptNext(s, q).senders == s.senders;
    case RoomThread(r) => assert RoomNext(s, r).senders == s.senders;
    case Sender(i, d) =>
      if d.FindTargets? {
        TargetsAreMeant(s.pool, s.senders[i].msg, 0);
      } else if d.WriteOne? {
        HeadOnce(s.senders[i].todo, 0);
      }
  }

  // ---------------------------------------------------------------------------------------
  // Who is never meant
  // ---------------------------------------------------------------------------------------

  /** A message that goes to everybody but `a`. */
  predicate Spares(m: NetMsg, a: Fd) {
    IsBroadcast(m.msgType) && m.targetfd == a
  }

  ghost predicate Spared(x: Tally, h: seq<NetMsg>, a: Fd, id: nat) {
    && (id >= |h| ==> x.finds == 0)
    && (id < |h| && Spares(h[id], a) ==> x.aims == 0)
  }

  lemma {:induction false} SparedStep(s: Room, x: Tally, h: seq<NetMsg>, l: Label, a: Fd, id: nat)
    requires AllKnown(s, h) && Counted(s, x, a, id) && Spared(x, h, a, id) && Enabled(s, l)
    ensures Spared(Noted(x, s, l, a, id), h + NewMsgs(s, l), a, id)
  {
    if l.Sender? && Has(s.senders[l.i], id) {
      assert Known(s.senders[l.i].msg, h);
      assert NewMsgs(s, l) == [];
    }
  }

  // ---------------------------------------------------------------------------------------
  // What goes out on a connection
  // ---------------------------------------------------------------------------------------

  /** What a step puts on the socket of `a`: nothing once it is closed. */
  function Written(s: Room, l: Label, a: Fd): (ms: seq<NetMsg>)
    requires Enabled(s, l)
  {
    if l.Sender? && l.s.WriteOne? && s.senders[l.i].todo[0] == a && a !in s.net.closed then [s.senders[l.i].msg] else []
  }

  /** The messages written to `a` in a run, in the order of the writes. */
  function Output(out: seq<NetMsg>, s: Room, ls: seq<Label>, a: Fd): (more: seq<NetMsg>)
    requires Legal(s, ls)
    decreases |ls|
  {
    if ls == [] then out else Output(out + Written(s, ls[0], a), Step(s, ls[0]), ls[1..], a)
  }

  function Copies(ms: seq<NetMsg>, id: nat): (n: nat) {
    InQueue(ms, id)
  }

  ghost predicate OutputFine(s: Room, x: Tally, h: seq<NetMsg>, out: seq<NetMsg>, a: Fd, id: nat) {
    && Copies(out, id) <= x.hits && (a !in s.net.closed ==> Copies(out, id) == x.hits)
    && forall k :: 0 <= k < |out| ==> Known(out[k], h) && Framed(out[k])
  }

  lemma {:induction false} OutputStep(s: Room, x: Tally, h: seq<NetMsg>, out: seq<NetMsg>, l: Label, a: Fd, id: nat)
    requires Inv(s) && AllKnown(s, h) && AllFramed(s) && OutputFine(s, x, h, out, a, id) && Enabled(s, l)
    ensures OutputFine(Step(s, l), Noted(x, s, l, a, id), h + NewMsgs(s, l), out + Written(s, l, a), a, id)
  {
    InQueueAppend(out, Written(s, l, a), id);
    ClosedGrows(s, l);
    if Written(s, l, a) != [] {
      var m := s.senders[l.i].msg;
      assert Known(m, h) && Framed(m);
      assert [m][1..] == [];
    }
  }

  lemma {:induction false} ClosedGrows(s: Room, l: Label)
    requires Enabled(s, l)
    ensures s.net.closed <= Step(s, l).net.closed
  {
    match l
    case Outside(o) =>
    case Accept(q) => assert s.net.closed <= AcceptNext(s, q).net.closed;
    case RoomThread(r) => assert s.net.closed <= RoomNext(s, r).net.closed;
    case Sender(i, d) => assert SenderNext(s, i, d).net.closed == s.net.closed;
  }

  // ---------------------------------------------------------------------------------------
  // Runs
  // ---------------------------------------------------------------------------------------

  ghost predicate Kept(s: Room, x: Tally, h: seq<NetMsg>, out: seq<NetMsg>, a: Fd, id: nat) {
    && Inv(s) && Draining(s) && Ledger(s) && AllFramed(s) && TodosOnce(s.senders)
    && AllKnown(s, h) && Counted(s, x, a, id) && Spared(x, h, a, id) && OutputFine(s, x, h, out, a, id)
  }

  lemma {:induction false} KeptStep(s: Room, x: Tally, h: seq<NetMsg>, out: seq<NetMsg>, l: Label, a: Fd, id: nat)
    requires Kept(s, x, h, out, a, id) && Enabled(s, l)
    ensures Kept(Step(s, l), Noted(x, s, l, a, id), h + NewMsgs(s, l), out + Written(s, l, a), a, id)
  {
    InvStep(s, l);
    DrainingStep(s, l);
    LedgerStep(s, l);
    FramedStep(s, l);
    TodosStep(s, l);
    KnownStep(s, h, l);
    SparedStep(s, x, h, l, a, id);
    OutputStep(s, x, h, out, l, a, id);
    if l.Sender? {
      CountedSender(s, x, l.i, l.s, a, id);
    } else {
      CountedQuiet(s, x, l, a, id);
    }
  }

  lemma {:induction false} KeptRun(s: Room, x: Tally, h: seq<NetMsg>, out: seq<NetMsg>, ls: seq<Label>, a: Fd, id: nat)
    requires Kept(s, x, h, out, a, id) && Legal(s, ls)
    ensures Kept(After(s, ls), Count(x, s, ls, a, id), Made(h, s, ls), Output(out, s, ls, a), a, id)
    decreases |ls|
  {
    if ls != [] {
      var l := ls[0];
      KeptStep(s, x, h, out, l, a, id);
      KeptRun(Step(s, l), Noted(x, s, l, a, id), h + NewMsgs(s, l), out + Written(s, l, a), ls[1..], a, id);
    }
  }

  lemma {:induction false} KeptStart(roomId: u32, a: Fd, id: nat)
    ensures Kept(Start(roomId), NOTHING, [], [], a, id)
  {
    var s := Start(roomId);
    EndStart(roomId);
    EmptyHanded(s.senders, id);
    SendingsBound(s.senders, a, id);
  }

  /** Exactly once. In every run a payload is written to a connection at most once, and only if the
      connection was meant when a sender found the targets; once a sender has let go of it, it has been
      written to each connection meant. A message that goes to everybody but `a` is never meant for `a`. */
  lemma {:induction false} WrittenOnce(roomId: u32, ls: seq<Label>, a: Fd, id: nat)
    requires Legal(Start(roomId), ls)
    ensures var x := Count(NOTHING, Start(roomId), ls, a, id);
            var h := Made([], Start(roomId), ls);
            && x.hits <= x.aims <= x.finds <= 1
            && (x.releases > 0 ==> x.finds == 1 && x.hits == x.aims)
            && (id < |h| && Spares(h[id], a) ==> x.aims == 0)
  {
    KeptStart(roomId, a, id);
    KeptRun(Start(roomId), NOTHING, [], [], ls, a, id);
    var s := After(Start(roomId), ls);
    SendingsBound(s.senders, a, id);
    assert Places(s, id) <= 1;
  }

  /** What went out on a connection that is open is what was counted, and each message went out as it
      was made. */
  lemma {:induction false} OutputCounted(roomId: u32, ls: seq<Label>, a: Fd, id: nat)
    requires Legal(Start(roomId), ls)
    ensures var x := Count(NOTHING, Start(roomId), ls, a, id);
            var out := Output([], Start(roomId), ls, a);
            && Copies(out, id) <= x.hits
            && (a !in After(Start(roomId), ls).net.closed ==> Copies(out, id) == x.hits)
            && forall k :: 0 <= k < |out| ==> Framed(out[k]) && Known(out[k], Made([], Start(roomId), ls))
  {
    KeptStart(roomId, a, id);
    KeptRun(Start(roomId), NOTHING, [], [], ls, a, id);
  }

  // ---------------------------------------------------------------------------------------
  // The inbox of a connection is the end of its output
  // ---------------------------------------------------------------------------------------

  function Read(s: Room, l: Label, a: Fd): (ms: seq<NetMsg>)
    requires Enabled(s, l)
  {
    if l.Outside? && l.o.ClientReads? && l.o.fd == a then [Inbox(s.net, a)[0]] else []
  }

  /** The messages the client behind `a` has read in a run. */
  function ReadBy(got: seq<NetMsg>, s: Room, ls: seq<Label>, a: Fd): (more: seq<NetMsg>)
    requires Legal(s, ls)
    decreases |ls|
  {
    if ls == [] then got else ReadBy(got + Read(s, ls[0], a), Step(s, ls[0]), ls[1..], a)
  }

  lemma {:induction false} InboxStep(s: Room, got: seq<NetMsg>, l: Label, a: Fd)
    requires Enabled(s, l)
    ensures got + Read(s, l, a) + Inbox(Step(s, l).net, a) == got + Inbox(s.net, a) + Written(s, l, a)
  {
    match l
    case Outside(o) => InboxOutside(s, o, a);
    case Accept(q) => InboxQuiet(s, l);
    case RoomThread(r) => InboxQuiet(s, l);
    case Sender(i, d) => InboxSender(s, i, d, a);
    assert got + Read(s, l, a) + Inbox(Step(s, l).net, a) == got + (Read(s, l, a) + Inbox(Step(s, l).net, a));
    assert got + (Inbox(s.net, a) + Written(s, l, a)) == got + Inbox(s.net, a) + Written(s, l, a);
  }

  lemma {:induction false} InboxQuiet(s: Room, l: Label)
    requires Enabled(s, l) && (l.Accept? || l.RoomThread?)
    ensures Step(s, l).net.inbox == s.net.inbox
  {
    if l.Accept? {
      assert AcceptNext(s, l.a).net.inbox == s.net.inbox;
    } else {
      assert RoomNext(s, l.r).net.inbox == s.net.inbox;
    }
  }

  lemma {:induction false} InboxOutside(s: Room, o: OutsideStep, a: Fd)
    requires OutsideEnabled(s, o)
    ensures Read(s, Outside(o), a) + Inbox(OutsideNext(s, o).net, a) == Inbox(s.net, a)
  {
  }

  lemma {:induction false} InboxSender(s: Room, i: nat, d: SenderStep, a: Fd)
    requires SenderEnabled(s, i, d)
    ensures Inbox(SenderNext(s, i, d).net, a) == Inbox(s.net, a) + Written(s, Sender(i, d), a)
  {
  }

  lemma {:induction false} InboxRun(s: Room, got: seq<NetMsg>, out: seq<NetMsg>, ls: seq<Label>, a: Fd)
    requires Legal(s, ls) && got + Inbox(s.net, a) == out
    ensures ReadBy(got, s, ls, a) + Inbox(After(s, ls).net, a) == Output(out, s, ls, a)
    decreases |ls|
  {
    if ls != [] {
      var l := ls[0];
      InboxStep(s, got, l, a);
      InboxRun(Step(s, l), got + Read(s, l, a), out + Written(s, l, a), ls[1..], a);
    }
  }

  /** What a client has read and has still to read is what was written to it, in the order of the
      writes. */
  lemma {:induction false} InboxIsOutput(roomId: u32, ls: seq<Label>, a: Fd)
    requires Legal(Start(roomId), ls)
    ensures ReadBy([], Start(roomId), ls, a) + Inbox(After(Start(roomId), ls).net, a)
         == Output([], Start(roomId), ls, a)
  {
    InboxRun(Start(roomId), [], [], ls, a);
  }
}
