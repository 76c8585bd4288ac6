/** Before the meeting: the client's requests, the server's answers, and what the client makes of
    them. */
module Handshake {
  import opened Wire
  import opened NetMsg
  import opened NetIo
  import opened FrameReader
  import opened FrameWriter
  import opened Room
  import Pool
  import Framing

  // ---------------------------------------------------------------------------------------
  // The client's side of a request
  // ---------------------------------------------------------------------------------------

  /** Types whose length is written; the payload is not. */
  predicate LengthOnly(t: u16) {
    t == CREATE_MEETING || t == AUDIO_SEND || t == CLOSE_CAMERA || t == IMG_SEND || t == TEXT_SEND
  }

  /** The four bytes of an integer as they lie in memory. */
  function Native32(n: u32): (b: seq<byte>) {
    [n % 256, n / 0x100 % 256, n / 0x1_0000 % 256, n / 0x100_0000]
  }

  function FromNative32(b: seq<byte>): (n: u32)
    requires |b| == 4
  {
    b[3] as int * 0x100_0000 + b[2] as int * 0x1_0000 + b[1] as int * 0x100 + b[0] as int
  }

  /** `sendData` for a message with `data`; a join request carries the room number. */
  function ClientBytes(t: u16, ip: u32, data: seq<byte>): (b: seq<byte>)
    requires t == JOIN_MEETING ==> |data| == 4
  {
    if LengthOnly(t) then Header(t, ip, |data| % 0x1_0000_0000) + [HASH]
    else if t == JOIN_MEETING then Header(t, ip, 4) + PutBe32(FromNative32(data)) + [HASH]
    else [DOLLAR] + PutBe16(t) + PutBe32(ip) + data + [HASH]
  }

  /** The same, written into the send buffer by cursor. */
  method PrepareRequest(buf: SendBuffer, t: u16, ip: u32, data: seq<byte>) returns (len: nat)
    requires buf.sendbuf.Length == MAX_BUF && |data| <= MAX_PAYLOAD
    requires t == JOIN_MEETING ==> |data| == 4
    modifies buf.sendbuf
    ensures len <= MAX_BUF && buf.sendbuf[..len] == ClientBytes(t, ip, data)
  {
    len := buf.Put(0, [DOLLAR]);
    assert buf.sendbuf[..len] == [DOLLAR];
    len := buf.Put(len, PutBe16(t));
    len := buf.Put(len, PutBe32(ip));
    if LengthOnly(t) {
      len := buf.Put(len, PutBe32(|data| % 0x1_0000_0000));
    } else if t == JOIN_MEETING {
      len := buf.Put(len, PutBe32(|data|));
      len := buf.Put(len, PutBe32(FromNative32(data)));
    } else {
      len := buf.Put(len, data);
    }
    len := buf.Put(len, [HASH]);
  }

  lemma NativeRoundTrip(n: u32)
    ensures FromNative32(Native32(n)) == n
  {
    Split32(n);
  }

  /** Where the length is written without the payload, the request is a proper frame exactly when
      there is no payload: so for creating a meeting and closing the camera, not for media. */
  lemma LengthOnlyFrame(t: u16, ip: u32, data: seq<byte>)
    requires LengthOnly(t)
    ensures ClientBytes(t, ip, data) == Encode(Frame(t, ip, data)) <==> data == []
  {
    if data == [] {
      var h := Header(t, ip, 0);
      assert h + [] == h;
    }
  }

  lemma {:induction false} JoinFrame(ip: u32, room: u32)
    ensures ClientBytes(JOIN_MEETING, ip, Native32(room)) == Encode(Frame(JOIN_MEETING, ip, PutBe32(room)))
  {
    NativeRoundTrip(room);
  }

  // ---------------------------------------------------------------------------------------
  // The server's side of a request
  // ---------------------------------------------------------------------------------------

  datatype Request =
    | Hangup                  // the stream ended or failed
    | Retry                   // reported, and the next request is read
    | WantCreate(ip: u32)
    | WantJoin(room: u32)
    | Garbled                 // a join request that makes the server reach beyond its local variables

  // What the local variables hold that nothing was read into: the tail of a create request and the
  // room number, as it lies in memory.
  datatype Stale = Stale(tail: byte, room: u32)

  // The size of the local buffer for a request.
  const HEAD_SIZE: nat := 15

  /** The body of a join request, `size` bytes and a tail, is read over the header in the same buffer.
      The comparison of what was read with what was wanted is unsigned: an error passes for enough. */
  function JoinBody(head: seq<byte>, size: u32, ret: int, got: seq<byte>, stale: Stale): (r: Request)
    requires |head| == MSG_HEADER
  {
    var wanted := AsU32(size as int + 1);
    if wanted > HEAD_SIZE then
      // A length that is negative as an int makes recv fail.
      if 0 <= ret < wanted < 0x8000_0000 && |got| <= HEAD_SIZE then Retry else Garbled
    else if 0 <= ret < wanted then Retry
    else if size >= HEAD_SIZE || (ret < 0 && size > 4) then Garbled
    else
      var buf := got + head[if |got| <= |head| then |got| else |head|..];
      if size >= |buf| then Garbled
      else if buf[size] != HASH then Retry
      else if size > 4 then Garbled
      else WantJoin(GetBe32(buf[..size] + Native32(stale.room)[size..], 0))
  }

  /** One turn of the loop of `dowithuser`. */
  function ReadRequest(t: Tape, stale: Stale): (r: (Request, Tape)) {
    var head := Take(t, MSG_HEADER);
    if head.ret <= 0 then (Hangup, head.left)
    else if head.ret < MSG_HEADER || head.got[0] != DOLLAR then (Retry, head.left)
    else
      var kind, size := GetBe16(head.got, 1), GetBe32(head.got, 7);
      if kind == CREATE_MEETING then
        var tail := Take(head.left, 1);
        var c := if tail.ret == 1 then tail.got[0] else stale.tail;
        (if size == 0 && c == HASH then WantCreate(GetBe32(head.got, 3)) else Retry, tail.left)
      else if kind == JOIN_MEETING then
        var body := Take(head.left, AsU32(size as int + 1));
        (JoinBody(head.got, size, body.ret, body.got, stale), body.left)
      else (Retry, head.left)
  }

  method ServeRequest(sock: Socket, stale: Stale) returns (r: Request)
    modifies sock`incoming
    ensures (r, TapeOf(sock.incoming)) == ReadRequest(TapeOf(old(sock.incoming)), stale)
  {
    var ret, head := sock.Readn(MSG_HEADER);
    if ret <= 0 {
      return Hangup;
    }
    if ret < MSG_HEADER {
      return Retry;
    }
    if head[0] != DOLLAR {
      return Retry;
    }
    var kind, size := GetBe16(head, 1), GetBe32(head, 7);
    if kind == CREATE_MEETING {
      var tail := stale.tail;
      var k, b := sock.Readn(1);
      if k == 1 {
        tail := b[0];
      }
      return if size == 0 && tail == HASH then WantCreate(GetBe32(head, 3)) else Retry;
    }
    if kind == JOIN_MEETING {
      r := ServeJoin(sock, head, size, stale);
      return;
    }
    return Retry;
  }

  method ServeJoin(sock: Socket, head: seq<byte>, size: u32, stale: Stale) returns (r: Request)
    requires |head| == MSG_HEADER
    modifies sock`incoming
    ensures var body := Take(TapeOf(old(sock.incoming)), AsU32(size as int + 1));
            r == JoinBody(head, size, body.ret, body.got, stale) && TapeOf(sock.incoming) == body.left
  {
    var wanted := AsU32(size as int + 1);
    var k, b := sock.Readn(wanted);
    if |b| > HEAD_SIZE || wanted >= 0x8000_0000 {
      return Garbled;
    }
    if 0 <= k < wanted {
      return Retry;
    }
    if size >= HEAD_SIZE || (k < 0 && size > 4) {
      return Garbled;
    }
    var buf := b + head[if |b| <= |head| then |b| else |head|..];
    if buf[size] != HASH {
      return Retry;
    }
    if size > 4 {
      return Garbled;
    }
    return WantJoin(GetBe32(buf[..size] + Native32(stale.room)[size..], 0));
  }

  lemma CreateIsRead(ip: u32, post: seq<byte>, broken: bool, stale: Stale)
    ensures ReadRequest(Tape(ClientBytes(CREATE_MEETING, ip, []) + post, broken), stale)
         == (WantCreate(ip), Tape(post, broken))
  {
    HeaderIsTaken(CREATE_MEETING, ip, 0, [HASH] + post, broken);
    assert ClientBytes(CREATE_MEETING, ip, []) + post == Header(CREATE_MEETING, ip, 0) + ([HASH] + post);
  }

  lemma {:induction false} JoinIsRead(ip: u32, room: u32, post: seq<byte>, broken: bool, stale: Stale)
    ensures ReadRequest(Tape(ClientBytes(JOIN_MEETING, ip, Native32(room)) + post, broken), stale)
         == (WantJoin(room), Tape(post, broken))
  {
    var body := PutBe32(room) + [HASH];
    HeaderIsTaken(JOIN_MEETING, ip, 4, body + post, broken);
    NativeRoundTrip(room);
    assert ClientBytes(JOIN_MEETING, ip, Native32(room)) + post == Header(JOIN_MEETING, ip, 4) + (body + post);
  }

  /** The stream begins with a join request for `room`; of a body shorter than four bytes the rest of the
      number is what the variable held. */
  predicate BeginsWithJoin(t: Tape, ip: u32, size: nat, room: u32, left: Tape, stale: Stale) {
    && size <= 4
    && t.bytes == Header(JOIN_MEETING, ip, size) + (PutBe32(room)[..size] + [HASH]) + left.bytes
    && PutBe32(room)[size..] == Native32(stale.room)[size..]
  }

  /** The converse: a request is taken for one only if the stream begins with it (for a join, on a stream
      that does not fail), and the server hangs up only when there is nothing to read. */
  lemma {:induction false} RequestOnlyIf(t: Tape, stale: Stale)
    ensures var o := ReadRequest(t, stale);
            && (o.0.WantCreate? ==> Begins(t, Header(CREATE_MEETING, o.0.ip, 0), o.1, stale.tail))
            && (o.0.WantJoin? && !t.broken ==> exists ip, size :: BeginsWithJoin(t, ip, size, o.0.room, o.1, stale))
            && (o.0.Hangup? <==> t.bytes == [] || (t.broken && |t.bytes| < MSG_HEADER))
  {
    if |t.bytes| >= MSG_HEADER && t.bytes[0] == DOLLAR {
      HeaderRead(t.bytes);
      SameFields(t.bytes);
      var head, rest := t.bytes[..MSG_HEADER], Tape(t.bytes[MSG_HEADER..], t.broken);
      assert head + rest.bytes == t.bytes;
      if GetBe16(head, 1) == CREATE_MEETING {
        CreateOnlyIf(t, head, rest, stale);
      } else if GetBe16(head, 1) == JOIN_MEETING && ReadRequest(t, stale).0.WantJoin? && !t.broken {
        JoinStands(t, head, rest, stale);
      }
    }
  }

  /** The header and what is behind it. */
  predicate Parts(t: Tape, head: seq<byte>, rest: Tape) {
    && t.bytes == head + rest.bytes && t.broken == rest.broken && |head| == MSG_HEADER
    && head == Header(GetBe16(head, 1), GetBe32(head, 3), GetBe32(head, 7))
    && Take(t, MSG_HEADER) == ReadResult(MSG_HEADER, head, rest)
  }

  lemma {:induction false} CreateOnlyIf(t: Tape, head: seq<byte>, rest: Tape, stale: Stale)
    requires Parts(t, head, rest) && GetBe16(head, 1) == CREATE_MEETING
    ensures var o := ReadRequest(t, stale);
            o.0.WantCreate? ==> Begins(t, Header(CREATE_MEETING, o.0.ip, 0), o.1, stale.tail)
  {
    TailOnlyIf(rest, stale.tail);
    var tail := Take(rest, 1);
    assert head + ([HASH] + tail.left.bytes) == head + [HASH] + tail.left.bytes;
    assert head + [] == head;
  }

  lemma {:induction false} JoinStands(t: Tape, head: seq<byte>, rest: Tape, stale: Stale)
    requires Parts(t, head, rest) && GetBe16(head, 1) == JOIN_MEETING && head[0] == DOLLAR
    requires ReadRequest(t, stale).0.WantJoin? && !t.broken
    ensures var o := ReadRequest(t, stale);
            BeginsWithJoin(t, GetBe32(head, 3), GetBe32(head, 7), o.0.room, o.1, stale)
  {
    var o, size := ReadRequest(t, stale), GetBe32(head, 7);
    JoinOnlyIf(head, rest, size, o.0.room, stale);
    assert head + (PutBe32(o.0.room)[..size] + [HASH] + o.1.bytes)
        == head + (PutBe32(o.0.room)[..size] + [HASH]) + o.1.bytes;
  }

  lemma {:induction false} JoinOnlyIf(head: seq<byte>, rest: Tape, size: u32, room: u32, stale: Stale)
    requires |head| == MSG_HEADER && !rest.broken
    requires var body := Take(rest, AsU32(size as int + 1));
             JoinBody(head, size, body.ret, body.got, stale) == WantJoin(room)
    ensures size <= 4 && PutBe32(room)[size..] == Native32(stale.room)[size..]
    ensures rest.bytes == PutBe32(room)[..size] + [HASH] + Take(rest, AsU32(size as int + 1)).left.bytes
  {
    var body := Take(rest, AsU32(size as int + 1));
    TakeParts(rest, size as int + 1);
    NumberParts(body.got, head, size, stale);
  }

  lemma {:induction false} NumberParts(got: seq<byte>, head: seq<byte>, size: nat, stale: Stale)
    requires size <= 4 && |got| == size + 1 && |head| == MSG_HEADER
    ensures var buf := got + head[|got|..];
            var room := GetBe32(buf[..size] + Native32(stale.room)[size..], 0);
            && PutBe32(room)[..size] == got[..size] && PutBe32(room)[size..] == Native32(stale.room)[size..]
            && got == got[..size] + [got[size]] && buf[size] == got[size]
  {
    var buf := got + head[|got|..];
    assert buf[..size] == got[..size];
    var number := got[..size] + Native32(stale.room)[size..];
    Be32Read(number, 0);
    assert number[0..4] == number;
  }

  // ---------------------------------------------------------------------------------------
  // The answer
  // ---------------------------------------------------------------------------------------

  const MIN_ROOM: u32 := 10000000
  const MAX_ROOM: u32 := 99999999

  /** Draw until the number is not in use. `draws` is what the generator yields, each in its range. */
  method GenerateRoomId(draws: seq<u32>, inUse: set<u32>) returns (id: Option<u32>)
    requires forall i :: 0 <= i < |draws| ==> MIN_ROOM <= draws[i] <= MAX_ROOM
    ensures id.Some? ==> MIN_ROOM <= id.value <= MAX_ROOM && id.value !in inUse && id.value in draws
    ensures id.None? ==> forall i :: 0 <= i < |draws| ==> draws[i] in inUse
  {
    var i := 0;
    while i < |draws|
      invariant 0 <= i <= |draws|
      invariant forall k :: 0 <= k < i ==> draws[k] in inUse
    {
      if draws[i] !in inUse {
        return Some(draws[i]);
      }
      i := i + 1;
    }
    return None;
  }

  datatype Branch = NoSuchRoom | Refused | LetIn

  // What the server looks at under the lock: is the room open, and how many are in it.
  datatype RoomInfo = RoomInfo(on: bool, num: int)

  function Decide(table: map<u32, RoomInfo>, room: u32): (b: Branch) {
    if room !in table then NoSuchRoom
    else if !table[room].on || table[room].num >= 1024 then Refused
    else LetIn
  }

  function Answer(b: Branch, room: u32): (n: u32) {
    match b
    case NoSuchRoom => 0
    case Refused => 0xFFFF_FFFF
    case LetIn => room
  }

  /** `writetofd`: the reply goes out whole, in a buffer of 100 bytes. */
  method WriteToFd(sock: Socket, msgType: u16, payload: seq<byte>) returns (whole: bool)
    requires |payload| <= 88
    modifies sock`sends, sock`sent
    ensures FailsAfter(old(sock.sends)) < 0 ==> FailsAfter(sock.sends) < 0
    ensures whole ==> sock.sent == old(sock.sent) + Encode(Frame(msgType, 0, payload))
    ensures whole <==> !(0 <= FailsAfter(old(sock.sends)) < MSG_HEADER + |payload| + 1)
  {
    var buf := new SendBuffer(100);
    var n := FillReply(buf, msgType, payload);
    var ret := sock.Writen(buf.sendbuf[..n]);
    whole := ret >= n;
  }

  method FillReply(buf: SendBuffer, msgType: u16, payload: seq<byte>) returns (n: nat)
    requires buf.sendbuf.Length == 100 && |payload| <= 88
    modifies buf.sendbuf
    ensures n <= 100 && buf.sendbuf[..n] == Encode(Frame(msgType, 0, payload))
  {
    n := FillHeader(buf, msgType, |payload|);
    n := buf.Put(n, payload);
    n := buf.Put(n, [HASH]);
  }

  method FillHeader(buf: SendBuffer, msgType: u16, size: u32) returns (n: nat)
    requires buf.sendbuf.Length == 100
    modifies buf.sendbuf
    ensures n == MSG_HEADER && buf.sendbuf[..n] == Header(msgType, 0, size)
  {
    n := buf.Put(0, [DOLLAR]);
    assert buf.sendbuf[..n] == [DOLLAR];
    n := buf.Put(n, PutBe16(msgType));
    n := buf.Put(n, [0, 0, 0, 0]);  // the address is skipped
    n := buf.Put(n, PutBe32(size));
    assert PutBe32(0) == [0, 0, 0, 0];
  }

  // How the conversation of `dowithuser` ends: the connection is closed, handed to a new room, or
  // handed to an existing one. (Or it leaves the modelled requests.)
  datatype Ending = Closed | ToNewRoom | ToRoom(room: u32) | OffTheRails

  datatype Talk = Talk(ending: Ending, replies: seq<Frame>, left: Tape)

  function JoinReply(b: Branch, room: u32): (f: Frame) {
    Frame(JOIN_MEETING_RESPONSE, 0, PutBe32(Answer(b, room)))
  }

  lemma RequestEats(t: Tape, stale: Stale)
    ensures var r := ReadRequest(t, stale);
            r.0.Hangup? || |r.1.bytes| < |t.bytes|
  {
  }

  // What the server sees when it looks a room up for its n-th request. Other acceptors and the rooms
  // change the table in between.
  type Tables = nat -> map<u32, RoomInfo>

  // The uninitialised locals of the n-th turn of the loop.
  type Stales = nat -> Stale

  /** The whole conversation from request `n` on: requests are read until one ends it; a refused join
      is answered and the next request is read. */
  function Converse(t: Tape, tables: Tables, n: nat, stales: Stales): (k: Talk)
    decreases |t.bytes|
  {
    RequestEats(t, stales(n));
    var r := ReadRequest(t, stales(n));
    match r.0
    case Hangup => Talk(Closed, [], r.1)
    case Garbled => Talk(OffTheRails, [], r.1)
    case WantCreate(ip) => Talk(ToNewRoom, [], r.1)
    case Retry => Converse(r.1, tables, n + 1, stales)
    case WantJoin(room) =>
      var b := Decide(tables(n), room);
      if b == LetIn then Talk(ToRoom(room), [JoinReply(b, room)], r.1)
      else
        var k := Converse(r.1, tables, n + 1, stales);
        Talk(k.ending, [JoinReply(b, room)] + k.replies, k.left)
  }

  /** A write that fails is reported and changes nothing in the conversation. */
  method DoWithUser(sock: Socket, tables: Tables, stales: Stales) returns (ending: Ending)
    modifies sock`incoming, sock`sends, sock`sent
    ensures var k := Converse(TapeOf(old(sock.incoming)), tables, 0, stales);
            && ending == k.ending && TapeOf(sock.incoming) == k.left
            && (FailsAfter(old(sock.sends)) < 0 ==> sock.sent == old(sock.sent) + EncodeAll(k.replies))
  {
    ghost var sound := FailsAfter(sock.sends) < 0;
    ghost var whole := Converse(TapeOf(sock.incoming), tables, 0, stales);
    ghost var replies: seq<Frame> := [];
    var n := 0;
    assert [] + whole.replies == whole.replies;
    assert sock.sent + EncodeAll([]) == sock.sent;
    while true
      invariant sound ==> FailsAfter(sock.sends) < 0 && sock.sent == old(sock.sent) + EncodeAll(replies)
      invariant n >= 0
      invariant var k := Converse(TapeOf(sock.incoming), tables, n, stales);
                whole == Talk(k.ending, replies + k.replies, k.left)
      decreases |TapeOf(sock.incoming).bytes|
    {
      RequestEats(TapeOf(sock.incoming), stales(n));
      var r := ServeRequest(sock, stales(n));
      match r {
        case Hangup => assert replies + [] == replies; return Closed;
        case Garbled => assert replies + [] == replies; return OffTheRails;
        case WantCreate(ip) => assert replies + [] == replies; return ToNewRoom;
        case Retry =>
        case WantJoin(room) =>
          var b := Decide(tables(n), room);
          var _ := WriteToFd(sock, JOIN_MEETING_RESPONSE, PutBe32(Answer(b, room)));
          EncodeSnoc(replies, JoinReply(b, room));
          Framing.Assoc(old(sock.sent), EncodeAll(replies), Encode(JoinReply(b, room)));
          if b == LetIn {
            return ToRoom(room);
          }
          Framing.Assoc(replies, [JoinReply(b, room)], Converse(TapeOf(sock.incoming), tables, n + 1, stales).replies);
          replies := replies + [JoinReply(b, room)];
      }
      n := n + 1;
    }
  }

  // A client that tries one room after the other.

  function JoinRequests(ip: u32, rooms: seq<u32>): (b: seq<byte>) {
    if rooms == [] then [] else ClientBytes(JOIN_MEETING, ip, Native32(rooms[0])) + JoinRequests(ip, rooms[1..])
  }

  /** The branch taken for the i-th room when the first is request `n`. */
  function BranchFor(tables: Tables, n: nat, rooms: seq<u32>, i: nat): (b: Branch)
    requires i < |rooms|
  {
    Decide(tables(n + i), rooms[i])
  }

  lemma BranchesShift(tables: Tables, n: nat, rooms: seq<u32>)
    requires rooms != []
    ensures forall i :: 0 < i < |rooms| ==>
              BranchFor(tables, n, rooms, i) == BranchFor(tables, n + 1, rooms[1..], i - 1)
  {
  }

  /** How many of the rooms are asked for: up to the first that lets the client in. */
  function Tries(tables: Tables, n: nat, rooms: seq<u32>): (k: nat)
    ensures k <= |rooms|
    ensures forall i :: 0 <= i < k - 1 ==> BranchFor(tables, n, rooms, i) != LetIn
    ensures k < |rooms| ==> k > 0 && BranchFor(tables, n, rooms, k - 1) == LetIn
    decreases |rooms|
  {
    if rooms == [] then 0
    else if BranchFor(tables, n, rooms, 0) == LetIn then 1
    else
      BranchesShift(tables, n, rooms);
      Tries(tables, n + 1, rooms[1..]) + 1
  }

  /** What the conversation should come to. */
  predicate Answered(talk: Talk, tables: Tables, n: nat, ip: u32, rooms: seq<u32>) {
    var k := Tries(tables, n, rooms);
    && |talk.replies| == k
    && (forall i :: 0 <= i < k ==> talk.replies[i] == JoinReply(BranchFor(tables, n, rooms, i), rooms[i]))
    && talk.ending == (if k > 0 && BranchFor(tables, n, rooms, k - 1) == LetIn then ToRoom(rooms[k - 1]) else Closed)
    && talk.left == Tape(JoinRequests(ip, rooms[k..]), false)
  }

  /** Each request is answered in turn, by the branch that room takes at its moment; the first room
      that lets the client in ends the conversation, and what the client sends after it is left to
      the room. */
  lemma {:induction false} EveryTryIsAnswered(tables: Tables, n: nat, ip: u32, rooms: seq<u32>, stales: Stales)
    ensures Answered(Converse(Tape(JoinRequests(ip, rooms), false), tables, n, stales), tables, n, ip, rooms)
    decreases |rooms|
  {
    if rooms != [] {
      var later := JoinRequests(ip, rooms[1..]);
      FirstTry(tables, n, ip, rooms[0], later, stales);
      if BranchFor(tables, n, rooms, 0) != LetIn {
        EveryTryIsAnswered(tables, n + 1, ip, rooms[1..], stales);
        OneMoreTry(Converse(Tape(later, false), tables, n + 1, stales), tables, n, ip, rooms);
      }
    }
  }

  lemma {:induction false} FirstTry(tables: Tables, n: nat, ip: u32, room: u32, later: seq<byte>, stales: Stales)
    ensures var talk := Converse(Tape(ClientBytes(JOIN_MEETING, ip, Native32(room)) + later, false), tables, n, stales);
            var first := JoinReply(Decide(tables(n), room), room);
            var more := Converse(Tape(later, false), tables, n + 1, stales);
            talk == if Decide(tables(n), room) == LetIn then Talk(ToRoom(room), [first], Tape(later, false))
                    else Talk(more.ending, [first] + more.replies, more.left)
  {
    JoinIsRead(ip, room, later, false, stales(n));
  }

  lemma {:induction false} OneMoreTry(talk: Talk, tables: Tables, n: nat, ip: u32, rooms: seq<u32>)
    requires rooms != [] && BranchFor(tables, n, rooms, 0) != LetIn && Answered(talk, tables, n + 1, ip, rooms[1..])
    ensures var first := JoinReply(BranchFor(tables, n, rooms, 0), rooms[0]);
            Answered(Talk(talk.ending, [first] + talk.replies, talk.left), tables, n, ip, rooms)
  {
    var k := Tries(tables, n + 1, rooms[1..]);
    assert Tries(tables, n, rooms) == k + 1;
    assert rooms[1..][k..] == rooms[k + 1..];
    BranchesShift(tables, n, rooms);
    ShiftReplies(talk.replies, tables, n, rooms, k);
  }

  lemma {:induction false} ShiftReplies(replies: seq<Frame>, tables: Tables, n: nat, rooms: seq<u32>, k: nat)
    requires k < |rooms| && |replies| == k
    requires forall i :: 0 <= i < k ==>
               replies[i] == JoinReply(BranchFor(tables, n + 1, rooms[1..], i), rooms[1..][i])
    ensures var all := [JoinReply(BranchFor(tables, n, rooms, 0), rooms[0])] + replies;
            forall i :: 0 <= i <= k ==> all[i] == JoinReply(BranchFor(tables, n, rooms, i), rooms[i])
  {
    var all := [JoinReply(BranchFor(tables, n, rooms, 0), rooms[0])] + replies;
    forall i | 0 <= i <= k ensures all[i] == JoinReply(BranchFor(tables, n, rooms, i), rooms[i]) {
      if i > 0 {
        assert all[i] == replies[i - 1] && rooms[i] == rooms[1..][i - 1];
      }
    }
  }

  /** Every try was answered, and then a room was made. */
  predicate Founded(talk: Talk, tables: Tables, n: nat, rooms: seq<u32>, left: Tape) {
    && talk.ending == ToNewRoom && talk.left == left
    && |talk.replies| == |rooms|
    && forall i :: 0 <= i < |rooms| ==> talk.replies[i] == JoinReply(BranchFor(tables, n, rooms, i), rooms[i])
  }

  /** A client that creates a meeting, at once or after rooms that did not let it in, gets one: each try has
      been answered, the conversation ends with a new room, and what follows is left to that room. */
  lemma {:induction false} CreateMakesARoom(tables: Tables, n: nat, ip: u32, rooms: seq<u32>, host: u32,
                                            post: seq<byte>, broken: bool, stales: Stales)
    requires forall i :: 0 <= i < |rooms| ==> BranchFor(tables, n, rooms, i) != LetIn
    ensures var asks := JoinRequests(ip, rooms) + (ClientBytes(CREATE_MEETING, host, []) + post);
            Founded(Converse(Tape(asks, broken), tables, n, stales), tables, n, rooms, Tape(post, broken))
    decreases |rooms|
  {
    var last := ClientBytes(CREATE_MEETING, host, []) + post;
    if rooms == [] {
      assert [] + last == last;
      CreateEndsIt(tables, n, host, post, broken, stales);
    } else {
      var later := JoinRequests(ip, rooms[1..]) + last;
      AsksSplit(ip, rooms, last);
      assert BranchFor(tables, n, rooms, 0) != LetIn;
      RefusedTry(tables, n, ip, rooms[0], later, broken, stales);
      var m, others := n + 1, rooms[1..];
      forall i | 0 <= i < |others| ensures BranchFor(tables, m, others, i) != LetIn {
        assert BranchFor(tables, n, rooms, i + 1) != LetIn;
      }
      CreateMakesARoom(tables, n + 1, ip, rooms[1..], host, post, broken, stales);
      OneMoreRefusal(Converse(Tape(later, broken), tables, n + 1, stales), tables, n, rooms, Tape(post, broken));
    }
  }

  lemma {:induction false} AsksSplit(ip: u32, rooms: seq<u32>, last: seq<byte>)
    requires rooms != []
    ensures JoinRequests(ip, rooms) + last
         == ClientBytes(JOIN_MEETING, ip, Native32(rooms[0])) + (JoinRequests(ip, rooms[1..]) + last)
  {
    Framing.Assoc(ClientBytes(JOIN_MEETING, ip, Native32(rooms[0])), JoinRequests(ip, rooms[1..]), last);
  }

  lemma {:induction false} OneMoreRefusal(talk: Talk, tables: Tables, n: nat, rooms: seq<u32>, left: Tape)
    requires rooms != [] && Founded(talk, tables, n + 1, rooms[1..], left)
    ensures var first := JoinReply(BranchFor(tables, n, rooms, 0), rooms[0]);
            Founded(Talk(talk.ending, [first] + talk.replies, talk.left), tables, n, rooms, left)
  {
    ShiftReplies(talk.replies, tables, n, rooms, |rooms| - 1);
  }

  lemma {:induction false} CreateEndsIt(tables: Tables, n: nat, host: u32, post: seq<byte>, broken: bool,
                                        stales: Stales)
    ensures Converse(Tape(ClientBytes(CREATE_MEETING, host, []) + post, broken), tables, n, stales)
         == Talk(ToNewRoom, [], Tape(post, broken))
  {
    CreateIsRead(host, post, broken, stales(n));
  }

  lemma {:induction false} RefusedTry(tables: Tables, n: nat, ip: u32, room: u32, later: seq<byte>, broken: bool,
                                      stales: Stales)
    requires Decide(tables(n), room) != LetIn
    ensures var ask := ClientBytes(JOIN_MEETING, ip, Native32(room));
            var talk := Converse(Tape(ask + later, broken), tables, n, stales);
            var more := Converse(Tape(later, broken), tables, n + 1, stales);
            talk == Talk(more.ending, [JoinReply(Decide(tables(n), room), room)] + more.replies, more.left)
  {
    JoinIsRead(ip, room, later, broken, stales(n));
  }

  /** Eleven bytes that are no request are passed over, and the conversation goes on behind them; it ends,
      with the connection closed, when the stream does. */
  lemma {:induction false} NoiseIsPassedOver(noise: seq<byte>, post: seq<byte>, broken: bool, tables: Tables, n: nat,
                                             stales: Stales)
    requires |noise| == MSG_HEADER
    requires noise[0] == DOLLAR ==> GetBe16(noise, 1) != CREATE_MEETING && GetBe16(noise, 1) != JOIN_MEETING
    ensures Converse(Tape(noise + post, broken), tables, n, stales)
         == Converse(Tape(post, broken), tables, n + 1, stales)
    ensures Converse(Tape([], broken), tables, n, stales) == Talk(Closed, [], Tape([], broken))
  {
    assert (noise + post)[..MSG_HEADER] == noise && (noise + post)[MSG_HEADER..] == post;
  }

  lemma {:induction false} EncodeSnoc(fs: seq<Frame>, f: Frame)
    ensures EncodeAll(fs + [f]) == EncodeAll(fs) + Encode(f)
  {
    if fs == [] {
      assert fs + [f] == [f] && [f][1..] == [];
      assert Encode(f) + [] == [] + Encode(f);
    } else {
      assert (fs + [f])[1..] == fs[1..] + [f];
      EncodeSnoc(fs[1..], f);
      Framing.Assoc(Encode(fs[0]), EncodeAll(fs[1..]), Encode(f));
    }
  }

  datatype Shown = MeetingNotExist | MeetingFull | JoinedMeeting | NothingShown

  /** The client on a JOIN_MEETING_RESPONSE frame: first the socket, then the dispatch. */
  function ShowJoin(f: Frame): (v: Shown) {
    var c := if |f.payload| >= 4 then Signed(GetBe32(f.payload, 0)) else 0;
    if c == 0 then MeetingNotExist else if c == -1 then MeetingFull else if c > 0 then JoinedMeeting else NothingShown
  }

  /** The join handshake, end to end. A join request for any room number reaches the server as that
      number, whatever the fragmentation. The reply may arrive in any chunks and among other frames:
      a connection that is let in is handed over before it is answered, so the room may write to it
      first. The client shows "not found", "full" or "joined" exactly when the server took that
      branch. */
  lemma {:induction false} JoinHandshake(table: map<u32, RoomInfo>, room: u32, ip: u32, es: seq<RecvEvent>,
                                         post: seq<byte>, earlier: seq<Frame>, later: seq<Frame>,
                                         chunks: seq<seq<byte>>, stale: Stale)
    requires forall id <- table.Keys :: MIN_ROOM <= id <= MAX_ROOM
    requires TapeOf(es).bytes == ClientBytes(JOIN_MEETING, ip, Native32(room)) + post
    requires forall f <- earlier + later :: |f.payload| <= MAX_PAYLOAD
    requires Framing.Concat(chunks) == EncodeAll(earlier + [JoinReply(Decide(table, room), room)] + later)
    ensures ReadRequest(TapeOf(es), stale).0 == WantJoin(room)
    ensures var got := Framing.Frames(Framing.ReceiveAll(chunks).events);
            && |got| == |earlier| + 1 + |later| && Framing.ReceiveAll(chunks).rest == []
            && got[..|earlier|] == earlier && got[|earlier| + 1..] == later
            && var f := got[|earlier|];
            && f.msgType == JOIN_MEETING_RESPONSE
            && (ShowJoin(f) == MeetingNotExist <==> Decide(table, room) == NoSuchRoom)
            && (ShowJoin(f) == MeetingFull <==> Decide(table, room) == Refused)
            && (ShowJoin(f) == JoinedMeeting <==> Decide(table, room) == LetIn)
  {
    JoinIsRead(ip, room, post, TapeOf(es).broken, stale);
    var b := Decide(table, room);
    var fs := earlier + [JoinReply(b, room)] + later;
    assert fs[..|earlier|] == earlier && fs[|earlier| + 1..] == later && fs[|earlier|] == JoinReply(b, room);
    forall f | f in fs ensures |f.payload| <= MAX_PAYLOAD {
      assert f in earlier + later || f == JoinReply(b, room);
    }
    Framing.FramesRoundTrip(fs, chunks);
    ReplyIsShown(Answer(b, room));
  }

  /** The number in the reply is the number the client looks at. */
  lemma ReplyIsShown(n: u32)
    ensures ShowJoin(Frame(JOIN_MEETING_RESPONSE, 0, PutBe32(n)))
         == (if n == 0 then MeetingNotExist else if n == 0xFFFF_FFFF then MeetingFull
             else if n < 0x8000_0000 then JoinedMeeting else NothingShown)
  {
    var b := PutBe32(n);
    assert b[0..4] == PutBe32(n);
    Be32Written(b, 0, n);
  }

  lemma OneFrame(f: Frame, chunks: seq<seq<byte>>)
    requires |f.payload| <= MAX_PAYLOAD && Framing.Concat(chunks) == Encode(f)
    ensures Framing.Frames(Framing.ReceiveAll(chunks).events) == [f]
    ensures Framing.ReceiveAll(chunks).rest == []
  {
    assert [f][1..] == [];
    assert Encode(f) + [] == Encode(f);
    Framing.FramesRoundTrip([f], chunks);
  }

  /** A newcomer decodes the list of any length that the accept thread made for it. */
  lemma ListHandshake(fd: Fd, ips: seq<u32>, id: nat, chunks: seq<seq<byte>>)
    requires 4 * |ips| <= MAX_PAYLOAD
    requires Framing.Concat(chunks) == SenderBytes(ListMsg(fd, ips, id))
    ensures var got := Framing.Frames(Framing.ReceiveAll(chunks).events);
            |got| == 1 && got[0].msgType == PARTNER_JOIN2 && ListedIps(got[0].payload) == ips
  {
    var m := ListMsg(fd, ips, id);
    SenderFrame(m);
    OneFrame(FrameOf(m), chunks);
    IpsRoundTrip(ips);
  }

  /** The creator, who is the owner from then on, is told the number its room was registered under. */
  lemma CreateHandshake(s: Room, chunks: seq<seq<byte>>)
    requires AcceptEnabled(s, AdmitCreator)
    requires Framing.Concat(chunks) == SenderBytes(AcceptNext(s, AdmitCreator).accept.reply)
    ensures var t := AcceptNext(s, AdmitCreator);
            t.pool.owner == s.accept.conn.sockfd && Pool.Targets(t.pool, t.accept.reply) == [t.pool.owner]
    ensures var got := Framing.Frames(Framing.ReceiveAll(chunks).events);
            |got| == 1 && got[0].msgType == CREATE_MEETING_RESPONSE
            && |got[0].payload| == 4 && GetBe32(got[0].payload, 0) == s.roomId
  {
    var m := AcceptNext(s, AdmitCreator).accept.reply;
    SenderFrame(m);
    OneFrame(FrameOf(m), chunks);
    var b := PutBe32(s.roomId);
    assert b[0..4] == b;
    Be32Written(b, 0, s.roomId);
  }
}
