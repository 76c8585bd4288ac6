/** One meeting room as a state machine over its threads.

    Each step is one critical section, one queue operation, or one system call: the accept thread
    (`accept_fd`), the room thread (`room_thread_main` with `fdclose`), any number of senders
    (`send_func`), and the outside: acceptor threads that hand connections over, and the clients
    that read what was delivered to them. Any thread may take its next step at any time. */
module Room {
  import opened Wire
  import opened NetMsg
  import opened Pool

  const MAXSIZE: nat := 10000
  const SENDTHREADSIZE: nat := 5

  datatype Cmd = Create | Join | Stop
  datatype ClientConn = ClientConn(cmd: Cmd, sockfd: Fd)

  // The accept thread, by what it holds between two steps.
  datatype AcceptPc =
    | AcceptIdle
    | AcceptGot(conn: ClientConn)
    | AcceptCreated(reply: NetMsg)              // 'C' admitted, reply not yet queued
    | AcceptJoined(fd: Fd, ip: u32)             // 'J' admitted, not yet announced
    | AcceptAnnounced(fd: Fd)                   // PARTNER_JOIN queued, list not yet taken
    | AcceptListed(list: NetMsg)                // list taken, PARTNER_JOIN2 not yet queued
    | AcceptDone

  // One pass over the sockets: those still to look at, those select found ready, the count of
  // ready ones that ends the pass early, and (for the record) those already handled.
  datatype Pass = Pass(todo: seq<Fd>, ready: set<Fd>, nsel: int, seen: set<Fd>)

  datatype RoomPc =
    | Looping
    | Selecting(rset: set<Fd>)
    | Selected(ready: set<Fd>)
    | Passing(pass: Pass)
    | Reading(fd: Fd, msg: NetMsg, pass: Pass)  // header read and payload allocated
    | Closing(fd: Fd, pass: Pass)               // about to call fdclose
    | Clearing(pass: Pass)                      // members cleared, queue not yet
    | Pushing(msg: NetMsg, pass: Pass)
    | JoiningAccept
    | JoiningSenders
    | Finished

  datatype SenderPc = SenderIdle | Holding(msg: NetMsg) | Sending(msg: NetMsg, todo: seq<Fd>) | SenderExited

  // Payload allocations: ids below `next` were handed out; `freed` counts the calls of free.
  datatype Heap = Heap(next: nat, freed: multiset<nat>)

  // The outside: the address behind each connection, closed sockets, and per connection the
  // frames delivered but not yet read and the client's partner set.
  datatype Net = Net(peer: map<Fd, u32>, closed: set<Fd>, inbox: map<Fd, seq<NetMsg>>, partner: map<Fd, set<u32>>)

  // Facts about the run so far, used only to state properties: whether the creator was handed over,
  // who was ever admitted, who was in the room before the creator, the largest membership, and the
  // largest length that a media header announced.
  datatype Past = Past(created: bool, admitted: set<Fd>, early: set<Fd>, peak: nat, longest: nat)

  datatype Room = Room(
    roomId: u32,
    pool: PoolState,
    shutdown: bool,
    conns: seq<ClientConn>,
    queue: seq<NetMsg>,
    down: bool,
    accept: AcceptPc,
    room: RoomPc,
    senders: seq<SenderPc>,
    heap: Heap,
    net: Net,
    past: Past)

  datatype OutsideStep =
    | HandCreate(fd: Fd, ip: u32)
    | HandJoin(fd: Fd, ip: u32)
    | ClientReads(fd: Fd, shown: bool)

  datatype AcceptStep =
    | TakeConn | AcceptStop | AdmitCreator | PushCreated
    | RejectJoiner | AdmitJoiner | PushJoin | TakeList | PushList

  datatype RoomStep =
    | CopyFdset
    | SelectReady(ready: set<Fd>)
    | TakeSnapshot
    | SkipIdle
    | EndPass
    | ReadShort
    | ReadBad
    | ReadCamera(ip: u32)
    | ReadHeader(kind: u16, len: int, bytes: seq<byte>)
    | PayloadGood
    | PayloadBad
    | EvictMember
    | CloseRoom
    | ClearQueue
    | RoomPush
    | StopAccept
    | AcceptJoinedBack
    | SendersJoinedBack

  datatype SenderStep = Pop | PopNothing | FindTargets | WriteOne | Release

  datatype Label =
    | Outside(o: OutsideStep)
    | Accept(a: AcceptStep)
    | RoomThread(r: RoomStep)
    | Sender(i: nat, s: SenderStep)

  // ---------------------------------------------------------------------------------------
  // Clients
  // ---------------------------------------------------------------------------------------

  /** What one delivered message does to a client's partner set. `shown` tells whether an image
      could be decoded; only then does it reach the dispatch, which adds an unknown sender. */
  function ApplyMsg(ps: set<u32>, m: NetMsg, shown: bool): (qs: set<u32>) {
    if m.msgType == PARTNER_JOIN || (m.msgType == IMG_RECV && shown) then ps + {m.ip}
    else if m.msgType == PARTNER_EXIT then ps - {m.ip}
    else if m.msgType == PARTNER_JOIN2 then ps + set ip | ip in Listed(m)
    else ps
  }

  function Inbox(n: Net, fd: Fd): (ms: seq<NetMsg>) {
    if fd in n.inbox then n.inbox[fd] else []
  }

  function Partners(n: Net, fd: Fd): (ps: set<u32>) {
    if fd in n.partner then n.partner[fd] else {}
  }

  // ---------------------------------------------------------------------------------------
  // Outside
  // ---------------------------------------------------------------------------------------

  predicate OutsideEnabled(s: Room, l: OutsideStep) {
    match l
    case HandCreate(fd, ip) => !s.past.created && fd > 0 && fd !in s.net.peer
    case HandJoin(fd, ip) => fd > 0 && fd !in s.net.peer
    case ClientReads(fd, shown) => Inbox(s.net, fd) != []
  }

  function OutsideNext(s: Room, l: OutsideStep): (t: Room)
    requires OutsideEnabled(s, l)
  {
    match l
    case HandCreate(fd, ip) =>
      s.(conns := s.conns + [ClientConn(Create, fd)], net := s.net.(peer := s.net.peer[fd := ip]),
         past := s.past.(created := true))
    case HandJoin(fd, ip) =>
      s.(conns := s.conns + [ClientConn(Join, fd)], net := s.net.(peer := s.net.peer[fd := ip]))
    case ClientReads(fd, shown) =>
      var box := Inbox(s.net, fd);
      s.(net := s.net.(inbox := s.net.inbox[fd := box[1..]],
                       partner := s.net.partner[fd := ApplyMsg(Partners(s.net, fd), box[0], shown)]))
  }

  // ---------------------------------------------------------------------------------------
  // The accept thread
  // ---------------------------------------------------------------------------------------

  predicate MayPush(s: Room) {
    |s.queue| < MAXSIZE || s.down
  }

  /** `push_msg`: after shutdown the message is dropped and its payload freed. */
  function PushMsg(s: Room, m: NetMsg): (t: Room) {
    if s.down then s.(heap := FreeData(s.heap, m)) else s.(queue := s.queue + [m])
  }

  function FreeData(h: Heap, m: NetMsg): (k: Heap) {
    if m.data.Some? then h.(freed := h.freed + multiset{m.data.value.id}) else h
  }

  function Peer(s: Room, fd: Fd): (ip: u32) {
    if fd in s.net.peer then s.net.peer[fd] else 0
  }

  function Joined(s: Room, fd: Fd): (p: Past) {
    var n := |s.pool.activeFds| + 1;
    s.past.(admitted := s.past.admitted + {fd}, peak := if n > s.past.peak then n else s.past.peak)
  }

  predicate AcceptEnabled(s: Room, l: AcceptStep) {
    match l
    case TakeConn => s.accept.AcceptIdle? && s.conns != []
    case AcceptStop => s.accept.AcceptGot? && s.accept.conn.cmd == Stop
    case AdmitCreator => s.accept.AcceptGot? && s.accept.conn.cmd == Create
    case PushCreated => s.accept.AcceptCreated? && MayPush(s)
    case RejectJoiner => s.accept.AcceptGot? && s.accept.conn.cmd == Join && !s.pool.on
    case AdmitJoiner => s.accept.AcceptGot? && s.accept.conn.cmd == Join && s.pool.on
    case PushJoin => s.accept.AcceptJoined? && MayPush(s)
    case TakeList => s.accept.AcceptAnnounced?
    case PushList => s.accept.AcceptListed? && MayPush(s)
  }

  function JoinMsg(fd: Fd, ip: u32): (m: NetMsg) {
    NetMsg(PARTNER_JOIN, ip, fd, 0, None)
  }

  function ListMsg(fd: Fd, ips: seq<u32>, id: nat): (m: NetMsg) {
    NetMsg(PARTNER_JOIN2, 0, fd, 4 * |ips|, Some(Block(id, EncodeIps(ips))))
  }

  function AcceptNext(s: Room, l: AcceptStep): (t: Room)
    requires AcceptEnabled(s, l)
  {
    match l
    case TakeConn => s.(accept := AcceptGot(s.conns[0]), conns := s.conns[1..])
    case AcceptStop => s.(accept := AcceptDone)
    case AdmitCreator =>
      var fd := s.accept.conn.sockfd;
      var reply := NetMsg(CREATE_MEETING_RESPONSE, 0, fd, 4, Some(Block(s.heap.next, PutBe32(s.roomId))));
      s.(pool := AdmitCreate(s.pool, fd, Peer(s, fd)), accept := AcceptCreated(reply),
         heap := s.heap.(next := s.heap.next + 1),
         past := Joined(s, fd).(early := set x | x in s.pool.activeFds))
    case PushCreated => PushMsg(s, s.accept.reply).(accept := AcceptIdle)
    case RejectJoiner =>
      s.(accept := AcceptIdle, net := s.net.(closed := s.net.closed + {s.accept.conn.sockfd}))
    case AdmitJoiner =>
      var fd := s.accept.conn.sockfd;
      s.(pool := AdmitJoin(s.pool, fd, Peer(s, fd)), accept := AcceptJoined(fd, Peer(s, fd)), past := Joined(s, fd))
    case PushJoin =>
      PushMsg(s, JoinMsg(s.accept.fd, s.accept.ip)).(accept := AcceptAnnounced(s.accept.fd))
    case TakeList =>
      var others := Others(s.pool, s.accept.fd);
      var list := ListMsg(s.accept.fd, IpsOf(s.pool.fdToIp, others), s.heap.next);
      s.(pool := s.pool.(fdToIp := TouchAll(s.pool.fdToIp, others)), accept := AcceptListed(list),
         heap := s.heap.(next := s.heap.next + 1))
    case PushList => PushMsg(s, s.accept.list).(accept := AcceptIdle)
  }

  // ---------------------------------------------------------------------------------------
  // The room thread
  // ---------------------------------------------------------------------------------------

  predicate AtReady(s: Room) {
    s.room.Passing? && s.room.pass.todo != [] && s.room.pass.todo[0] in s.room.pass.ready
  }

  /** A closed socket gives nothing but an error. */
  predicate Readable(s: Room) {
    AtReady(s) && s.room.pass.todo[0] !in s.net.closed
  }

  predicate RoomEnabled(s: Room, l: RoomStep) {
    match l
    case CopyFdset => s.room.Looping? && !s.shutdown
    case SelectReady(ready) => s.room.Selecting? && ready <= s.room.rset
    case TakeSnapshot => s.room.Selected?
    case SkipIdle => s.room.Passing? && s.room.pass.todo != [] && s.room.pass.todo[0] !in s.room.pass.ready
    case EndPass => s.room.Passing? && s.room.pass.todo == []
    case ReadShort => Readable(s)
    case ReadBad => AtReady(s)
    case ReadCamera(ip) => Readable(s)
    case ReadHeader(kind, len, bytes) =>
      Readable(s) && (kind == IMG_RECV || kind == AUDIO_RECV || kind == TEXT_RECV)
      && -0x8000_0000 <= len < 0x8000_0000  // a C int
      && (len >= 0 ==> |bytes| == len)
    case PayloadGood => s.room.Reading?
    case PayloadBad => s.room.Reading?
    case EvictMember => s.room.Closing? && s.pool.owner != s.room.fd
    case CloseRoom => s.room.Closing? && s.pool.owner == s.room.fd
    case ClearQueue => s.room.Clearing?
    case RoomPush => s.room.Pushing? && MayPush(s)
    case StopAccept => s.room.Looping? && s.shutdown
    case AcceptJoinedBack => s.room.JoiningAccept? && s.accept.AcceptDone?
    case SendersJoinedBack => s.room.JoiningSenders? && forall p <- s.senders :: p.SenderExited?
  }

  function Rest(p: Pass): (q: Pass)
    requires p.todo != []
  {
    p.(todo := p.todo[1..], seen := p.seen + {p.todo[0]})
  }

  /** After a ready socket: `if (--nsel <= 0) break;`. */
  function Counted(p: Pass): (pc: RoomPc) {
    if p.nsel - 1 <= 0 then Looping else Passing(p.(nsel := p.nsel - 1))
  }

  /** `SEND_QUEUE::clear` frees every queued payload. */
  function FreeQueue(h: Heap, q: seq<NetMsg>): (k: Heap)
    decreases |q|
  {
    if q == [] then h else FreeQueue(FreeData(h, q[0]), q[1..])
  }

  function Pills(n: nat): (q: seq<NetMsg>) {
    seq(n, _ => PILL)
  }

  function RoomNext(s: Room, l: RoomStep): (t: Room)
    requires RoomEnabled(s, l)
  {
    match l
    case CopyFdset => s.(room := if s.pool.fdset == {} then Looping else Selecting(s.pool.fdset))
    case SelectReady(ready) => s.(room := if ready == {} then Looping else Selected(ready))
    case TakeSnapshot => s.(room := Passing(Pass(s.pool.activeFds, s.room.ready, |s.room.ready|, {})))
    case SkipIdle => s.(room := Passing(s.room.pass.(todo := s.room.pass.todo[1..])))
    case EndPass => s.(room := Looping)
    case ReadShort => s.(room := Counted(Rest(s.room.pass)))
    case ReadBad => s.(room := Closing(s.room.pass.todo[0], Rest(s.room.pass)))
    case ReadCamera(ip) =>
      var fd := s.room.pass.todo[0];
      s.(room := Pushing(NetMsg(CLOSE_CAMERA, ip, fd, 0, None), Rest(s.room.pass)))
    case ReadHeader(kind, len, bytes) =>
      var fd := s.room.pass.todo[0];
      var data := if len >= 0 then Some(Block(s.heap.next, bytes)) else None;
      s.(room := Reading(fd, NetMsg(kind, IpOf(s.pool, fd), fd, len, data), Rest(s.room.pass)),
         pool := s.pool.(fdToIp := Touch(s.pool.fdToIp, fd)),
         heap := if len >= 0 then s.heap.(next := s.heap.next + 1) else s.heap,
         past := if len > s.past.longest then s.past.(longest := len) else s.past)
    case PayloadGood => s.(room := Pushing(s.room.msg, s.room.pass))
    case PayloadBad => s.(heap := FreeData(s.heap, s.room.msg), room := Closing(s.room.fd, s.room.pass))
    case EvictMember =>
      var fd := s.room.fd;
      s.(pool := Evict(s.pool, fd), net := s.net.(closed := s.net.closed + {fd}),
         room := Pushing(NetMsg(PARTNER_EXIT, IpOf(s.pool, fd), INVALID_SOCKET, 0, None), s.room.pass))
    case CloseRoom =>
      s.(shutdown := true, pool := Cleared(s.pool), room := Clearing(s.room.pass),
         net := s.net.(closed := s.net.closed + set x | x in s.pool.activeFds))
    case ClearQueue =>
      s.(queue := [], heap := FreeQueue(s.heap, s.queue), room := Counted(s.room.pass))
    case RoomPush => PushMsg(s, s.room.msg).(room := Counted(s.room.pass))
    case StopAccept => s.(conns := s.conns + [ClientConn(Stop, INVALID_SOCKET)], room := JoiningAccept)
    case AcceptJoinedBack => s.(down := true, queue := s.queue + Pills(SENDTHREADSIZE), room := JoiningSenders)
    case SendersJoinedBack => s.(room := Finished)
  }

  // ---------------------------------------------------------------------------------------
  // Senders
  // ---------------------------------------------------------------------------------------

  predicate SenderEnabled(s: Room, i: nat, l: SenderStep) {
    i < |s.senders| && match l
    case Pop => s.senders[i].SenderIdle? && s.queue != []
    case PopNothing => s.senders[i].SenderIdle? && s.queue == [] && s.down
    case FindTargets => s.senders[i].Holding?
    case WriteOne => s.senders[i].Sending? && s.senders[i].todo != []
    case Release => s.senders[i].Sending? && s.senders[i].todo == []
  }

  function Deliver(n: Net, fd: Fd, m: NetMsg): (k: Net) {
    if fd in n.closed then n else n.(inbox := n.inbox[fd := Inbox(n, fd) + [m]])
  }

  function SenderNext(s: Room, i: nat, l: SenderStep): (t: Room)
    requires SenderEnabled(s, i, l)
  {
    match l
    case Pop =>
      var m := s.queue[0];
      s.(queue := s.queue[1..], senders := s.senders[i := if m.msgType == POISON then SenderExited else Holding(m)])
    case PopNothing => s.(senders := s.senders[i := SenderExited])
    case FindTargets =>
      var m := s.senders[i].msg;
      s.(senders := s.senders[i := Sending(m, Targets(s.pool, m))])
    case WriteOne =>
      var p := s.senders[i];
      s.(net := Deliver(s.net, p.todo[0], p.msg), senders := s.senders[i := Sending(p.msg, p.todo[1..])])
    case Release => s.(heap := FreeData(s.heap, s.senders[i].msg), senders := s.senders[i := SenderIdle])
  }

  // ---------------------------------------------------------------------------------------
  // Runs
  // ---------------------------------------------------------------------------------------

  predicate Enabled(s: Room, l: Label) {
    match l
    case Outside(o) => OutsideEnabled(s, o)
    case Accept(a) => AcceptEnabled(s, a)
    case RoomThread(r) => RoomEnabled(s, r)
    case Sender(i, d) => SenderEnabled(s, i, d)
  }

  function Step(s: Room, l: Label): (t: Room)
    requires Enabled(s, l)
  {
    match l
    case Outside(o) => OutsideNext(s, o)
    case Accept(a) => AcceptNext(s, a)
    case RoomThread(r) => RoomNext(s, r)
    case Sender(i, d) => SenderNext(s, i, d)
  }

  predicate Legal(s: Room, ls: seq<Label>)
    decreases |ls|
  {
    ls == [] || (Enabled(s, ls[0]) && Legal(Step(s, ls[0]), ls[1..]))
  }

  function After(s: Room, ls: seq<Label>): (t: Room)
    requires Legal(s, ls)
    decreases |ls|
  {
    if ls == [] then s else After(Step(s, ls[0]), ls[1..])
  }

  /** A room as `room_thread_main` starts it. */
  function Start(roomId: u32): (s: Room) {
    Room(roomId, NEW_POOL, false, [], [], false, AcceptIdle, Looping, seq(SENDTHREADSIZE, _ => SenderIdle),
         Heap(0, multiset{}), Net(map[], {}, map[], map[]), Past(false, {}, {}, 0, 0))
  }

  /** A room as `dowithuser` hands it over: the creator's connection is first in line. */
  function Opened(roomId: u32, creator: Fd, ip: u32): (s: Room)
    requires creator > 0
  {
    OutsideNext(Start(roomId), HandCreate(creator, ip))
  }
}
