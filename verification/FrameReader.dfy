/** How the room thread reads one frame from a member's socket. */
module FrameReader {
  import opened Wire
  import opened NetIo

  /** A 32-bit length as the C int it is stored in. */
  function Signed(n: u32): (i: int) {
    if n < 0x8000_0000 then n else n - 0x1_0000_0000
  }

  datatype Served =
    | Short                                            // 1 to 10 header bytes: reported, nothing else
    | Bad                                              // the member is evicted
    | BadMedia(kind: u16, len: int, bytes: seq<byte>)  // the same, with a payload to be freed
    | Camera(ip: u32)
    | Media(kind: u16, len: int, bytes: seq<byte>)

  predicate IsMediaSend(t: u16) {
    t == IMG_SEND || t == AUDIO_SEND || t == TEXT_SEND
  }

  /** One frame, from the stream alone. `stale` is what the tail variable holds when nothing is read
      into it. */
  function ReadFrame(t: Tape, stale: byte): (r: (Served, Tape)) {
    var head := Take(t, MSG_HEADER);
    if head.ret <= 0 then (Bad, head.left)
    else if head.ret < MSG_HEADER then (Short, head.left)
    else if head.got[0] != DOLLAR then (Bad, head.left)
    else ReadRest(GetBe16(head.got, 1), GetBe32(head.got, 3), Signed(GetBe32(head.got, 7)), head.left, stale)
  }

  /** The part behind a header with these fields. */
  function ReadRest(kind: u16, ip: u32, len: int, t: Tape, stale: byte): (r: (Served, Tape)) {
    if IsMediaSend(kind) then
      var body := Take(t, len);
      if body.ret < len then (BadMedia(kind + 1, len, body.got), body.left)
      else
        var tail := Take(body.left, 1);
        if (if tail.ret == 1 then tail.got[0] else stale) != HASH then (BadMedia(kind + 1, len, body.got), tail.left)
        else (Media(kind + 1, len, body.got), tail.left)
    else if kind == CLOSE_CAMERA then
      var tail := Take(t, 1);
      if (if tail.ret == 1 then tail.got[0] else stale) == HASH && len == 0 then (Camera(ip), tail.left)
      else (Bad, tail.left)
    else
      (Bad, Take(t, if len > 0 then len + 1 else 1).left)
  }

  /** The same over a socket, whatever the fragmentation. */
  method ServeSocket(sock: Socket, stale: byte) returns (o: Served)
    modifies sock`incoming
    ensures (o, TapeOf(sock.incoming)) == ReadFrame(TapeOf(old(sock.incoming)), stale)
  {
    var ret, head := sock.Readn(MSG_HEADER);
    if ret <= 0 {
      return Bad;
    }
    if ret != MSG_HEADER {
      return Short;
    }
    if head[0] != DOLLAR {
      return Bad;
    }
    var kind, len := GetBe16(head, 1), Signed(GetBe32(head, 7));
    var tail := stale;
    if IsMediaSend(kind) {
      var recv: u16 := if kind == IMG_SEND then IMG_RECV else if kind == AUDIO_SEND then AUDIO_RECV else TEXT_RECV;
      var r, bytes := sock.Readn(len);
      if r < len {
        return BadMedia(recv, len, bytes);
      }
      var k, b := sock.Readn(1);
      if k == 1 {
        tail := b[0];
      }
      if tail != HASH {
        return BadMedia(recv, len, bytes);
      }
      return Media(recv, len, bytes);
    } else if kind == CLOSE_CAMERA {
      var k, b := sock.Readn(1);
      if k == 1 {
        tail := b[0];
      }
      if tail == HASH && len == 0 {
        return Camera(GetBe32(head, 3));
      }
      return Bad;
    }
    if len > 0 {
      var _, _ := sock.Readn(len + 1);
    } else {
      var _, _ := sock.Readn(1);
    }
    return Bad;
  }

  /** A header at the front of the stream hands its fields to the rest. */
  lemma {:induction false} HeaderThenRest(kind: u16, ip: u32, size: u32, rest: seq<byte>, broken: bool, stale: byte)
    ensures ReadFrame(Tape(Header(kind, ip, size) + rest, broken), stale)
         == ReadRest(kind, ip, Signed(size), Tape(rest, broken), stale)
  {
    HeaderIsTaken(kind, ip, size, rest, broken);
  }

  /** A well-formed media frame at the front of the stream, of any length a C int holds, is read whole,
      and the stream goes on behind it; the address in its header is ignored. */
  lemma {:induction false} MediaIsRead(f: Frame, post: seq<byte>, broken: bool, stale: byte)
    requires IsMediaSend(f.msgType) && |f.payload| < 0x8000_0000
    ensures ReadFrame(Tape(Encode(f) + post, broken), stale)
         == (Media(f.msgType + 1, |f.payload|, f.payload), Tape(post, broken))
  {
    EncodeParts(f, post);
    HeaderThenRest(f.msgType, f.ip, |f.payload|, f.payload + ([HASH] + post), broken, stale);
  }

  lemma {:induction false} HeaderIsTaken(t: u16, ip: u32, size: u32, rest: seq<byte>, broken: bool)
    ensures var h := Take(Tape(Header(t, ip, size) + rest, broken), MSG_HEADER);
            && h.ret == MSG_HEADER == |h.got| && h.left == Tape(rest, broken)
            && h.got[0] == DOLLAR && GetBe16(h.got, 1) == t && GetBe32(h.got, 3) == ip && GetBe32(h.got, 7) == size
  {
    var h := Header(t, ip, size);
    HeaderFields(t, ip, size, []);
    assert h + [] == h;
  }

  lemma PayloadIsTaken(p: seq<byte>, rest: seq<byte>, broken: bool)
    ensures Take(Tape(p + rest, broken), |p|) == ReadResult(|p|, p, Tape(rest, broken))
  {
    if p == [] {
      assert p + rest == rest;
    }
  }

  lemma {:induction false} CameraIsRead(ip: u32, post: seq<byte>, broken: bool, stale: byte)
    ensures ReadFrame(Tape(Encode(Frame(CLOSE_CAMERA, ip, [])) + post, broken), stale)
         == (Camera(ip), Tape(post, broken))
  {
    HeaderIsTaken(CLOSE_CAMERA, ip, 0, [HASH] + post, broken);
    EncodeParts(Frame(CLOSE_CAMERA, ip, []), post);
    assert [] + ([HASH] + post) == [HASH] + post;
  }

  /** The stream begins with these bytes and a tail; or it ends with them, and what the tail variable held
      passes for one. */
  predicate Begins(t: Tape, front: seq<byte>, left: Tape, stale: byte) {
    || t.bytes == front + [HASH] + left.bytes
    || (t.bytes == front && left.bytes == [] && stale == HASH)
  }

  /** The converse: media are taken, and a camera is closed, only for a stream that begins with the encoding
      of such a frame; and a header is reported as short exactly when the stream ends inside it. */
  lemma {:induction false} GoodOnlyIf(t: Tape, stale: byte)
    ensures var o := ReadFrame(t, stale);
            && (o.0.Media? ==>
                  exists kind: u16, ip: u32 ::
                    && IsMediaSend(kind) && o.0.kind == kind + 1
                    && Begins(t, Header(kind, ip, o.0.len % 0x1_0000_0000) + o.0.bytes, o.1, stale))
            && (o.0.Camera? ==> Begins(t, Header(CLOSE_CAMERA, o.0.ip, 0), o.1, stale))
            && (o.0.Short? <==> 0 < |t.bytes| < MSG_HEADER && !t.broken)
  {
    if |t.bytes| >= MSG_HEADER && t.bytes[0] == DOLLAR {
      HeaderRead(t.bytes);
      var kind, ip, size := GetBe16(t.bytes, 1), GetBe32(t.bytes, 3), GetBe32(t.bytes, 7);
      var rest := Tape(t.bytes[MSG_HEADER..], t.broken);
      var head := t.bytes[..MSG_HEADER];
      assert head + rest.bytes == t.bytes;
      SameFields(t.bytes);
      RestOnlyIf(kind, ip, Signed(size), rest, stale);
      Behind(t, head, rest, ReadRest(kind, ip, Signed(size), rest, stale), kind, ip, size, stale);
    }
  }

  lemma {:induction false} SameFields(b: seq<byte>)
    requires |b| >= MSG_HEADER
    ensures var h := b[..MSG_HEADER];
            GetBe16(h, 1) == GetBe16(b, 1) && GetBe32(h, 3) == GetBe32(b, 3) && GetBe32(h, 7) == GetBe32(b, 7)
  {
  }

  lemma {:induction false} RestOnlyIf(kind: u16, ip: u32, len: int, t: Tape, stale: byte)
    ensures var o := ReadRest(kind, ip, len, t, stale);
            && (o.0.Media? ==>
                  IsMediaSend(kind) && o.0.kind == kind + 1 && o.0.len == len && Begins(t, o.0.bytes, o.1, stale))
            && (o.0.Camera? ==> kind == CLOSE_CAMERA && o.0.ip == ip && len == 0 && Begins(t, [], o.1, stale))
            && !o.0.Short?
  {
    if IsMediaSend(kind) {
      MediaOnlyIf(kind, ip, len, t, stale);
    } else if kind == CLOSE_CAMERA {
      TailOnlyIf(t, stale);
      assert [] + [HASH] == [HASH];
    }
  }

  lemma {:induction false} MediaOnlyIf(kind: u16, ip: u32, len: int, t: Tape, stale: byte)
    requires IsMediaSend(kind)
    ensures var o := ReadRest(kind, ip, len, t, stale);
            && (o.0.Media? ==> o.0.kind == kind + 1 && o.0.len == len && Begins(t, o.0.bytes, o.1, stale))
            && (o.0.Media? || o.0.BadMedia?)
  {
    var body := Take(t, len);
    if body.ret >= len {
      TakeParts(t, len);
      TailOnlyIf(body.left, stale);
      var tail := Take(body.left, 1);
      assert body.got + ([HASH] + tail.left.bytes) == body.got + [HASH] + tail.left.bytes;
      assert body.got + [] == body.got;
    }
  }

  lemma {:induction false} TakeParts(t: Tape, len: int)
    requires Take(t, len).ret >= len
    ensures t.bytes == Take(t, len).got + Take(t, len).left.bytes
  {
    if len <= 0 {
      assert [] + t.bytes == t.bytes;
    }
  }

  lemma {:induction false} TailOnlyIf(t: Tape, stale: byte)
    ensures var tail := Take(t, 1);
            if tail.ret == 1 then t.bytes == [tail.got[0]] + tail.left.bytes
            else t.bytes == [] && tail.left.bytes == []
  {
  }

  /** A header in front. */
  lemma {:induction false} Behind(t: Tape, head: seq<byte>, rest: Tape, o: (Served, Tape), kind: u16, ip: u32,
                                  size: u32, stale: byte)
    requires t.bytes == head + rest.bytes && head == Header(kind, ip, size)
    requires o.0.Media? ==> IsMediaSend(kind) && o.0.kind == kind + 1 && o.0.len == Signed(size)
                            && Begins(rest, o.0.bytes, o.1, stale)
    requires o.0.Camera? ==> kind == CLOSE_CAMERA && o.0.ip == ip && Signed(size) == 0 && Begins(rest, [], o.1, stale)
    ensures o.0.Media? ==> Begins(t, Header(kind, ip, o.0.len % 0x1_0000_0000) + o.0.bytes, o.1, stale)
    ensures o.0.Camera? ==> Begins(t, Header(CLOSE_CAMERA, o.0.ip, 0), o.1, stale)
  {
    if o.0.Media? {
      assert o.0.len % 0x1_0000_0000 == size;
      assert head + (o.0.bytes + [HASH] + o.1.bytes) == head + o.0.bytes + [HASH] + o.1.bytes;
    } else if o.0.Camera? {
      assert head + ([] + [HASH] + o.1.bytes) == head + [HASH] + o.1.bytes;
      assert head + [] == head;
    }
  }

  /** All the frames of a stream, read one after the other. */
  function ReadFrames(t: Tape, n: nat, stale: byte): (r: (seq<Served>, Tape))
    decreases n
  {
    if n == 0 then ([], t)
    else
      var one := ReadFrame(t, stale);
      var more := ReadFrames(one.1, n - 1, stale);
      ([one.0] + more.0, more.1)
  }

  predicate MediaFrames(fs: seq<Frame>) {
    forall i :: 0 <= i < |fs| ==> IsMediaSend(fs[i].msgType) && |fs[i].payload| < 0x8000_0000
  }

  function AsMedia(fs: seq<Frame>): (os: seq<Served>)
    requires MediaFrames(fs)
  {
    if fs == [] then [] else [Media(fs[0].msgType + 1, |fs[0].payload|, fs[0].payload)] + AsMedia(fs[1..])
  }

  /** A stream of well-formed media frames is read frame by frame, each whole. */
  lemma {:induction false} AllMediaRead(fs: seq<Frame>, post: seq<byte>, broken: bool, stale: byte)
    requires MediaFrames(fs)
    ensures ReadFrames(Tape(EncodeAll(fs) + post, broken), |fs|, stale) == (AsMedia(fs), Tape(post, broken))
  {
    if fs == [] {
      assert [] + post == post;
    } else {
      var later := EncodeAll(fs[1..]) + post;
      assert EncodeAll(fs) + post == Encode(fs[0]) + later;
      MediaIsRead(fs[0], later, broken, stale);
      AllMediaRead(fs[1..], post, broken, stale);
    }
  }
}
