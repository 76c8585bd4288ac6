/** The wire format shared by client and server: a frame is

        '$'  type(2)  ip(4)  size(4)  payload(size)  '#'

    with every number in big-endian order.  */
module Wire {
  type byte = x: int | 0 <= x < 256
  type u16 = x: int | 0 <= x < 0x1_0000
  type u32 = x: int | 0 <= x < 0x1_0000_0000

  const DOLLAR: byte := 36
  const HASH: byte := 35
  const MSG_HEADER: nat := 11
  const MAX_BUF: nat := 4 * 1024 * 1024
  // The largest payload the client accepts: one whole frame fills the buffer exactly.
  const MAX_PAYLOAD: nat := MAX_BUF - MSG_HEADER - 1

  // MSG_TYPE
  const IMG_SEND: u16 := 0
  const IMG_RECV: u16 := 1
  const AUDIO_SEND: u16 := 2
  const AUDIO_RECV: u16 := 3
  const TEXT_SEND: u16 := 4
  const TEXT_RECV: u16 := 5
  const CREATE_MEETING: u16 := 6
  const EXIT_MEETING: u16 := 7
  const JOIN_MEETING: u16 := 8
  const CLOSE_CAMERA: u16 := 9
  const CREATE_MEETING_RESPONSE: u16 := 20
  const PARTNER_EXIT: u16 := 21
  const PARTNER_JOIN: u16 := 22
  const JOIN_MEETING_RESPONSE: u16 := 23
  const PARTNER_JOIN2: u16 := 24
  const POISON: u16 := 0xFFFF

  function PutBe16(n: u16): (b: seq<byte>) {
    [n / 256, n % 256]
  }

  function PutBe32(n: u32): (b: seq<byte>) {
    [n / 0x100_0000, n / 0x1_0000 % 256, n / 0x100 % 256, n % 256]
  }

  function GetBe16(b: seq<byte>, at: nat): (n: u16)
    requires at + 2 <= |b|
  {
    b[at] as int * 256 + b[at + 1] as int
  }

  function GetBe32(b: seq<byte>, at: nat): (n: u32)
    requires at + 4 <= |b|
  {
    b[at] as int * 0x100_0000 + b[at + 1] as int * 0x1_0000 + b[at + 2] as int * 0x100 + b[at + 3] as int
  }

  lemma Split32(n: u32)
    ensures n == n / 0x100_0000 * 0x100_0000 + n / 0x1_0000 % 256 * 0x1_0000 + n / 0x100 % 256 * 0x100 + n % 256
  {
    assert n / 0x1_0000 / 256 == n / 0x100_0000 && n / 0x100 / 256 == n / 0x1_0000;
  }

  /** Reading undoes writing, wherever in a buffer the number was written. */
  lemma Be32Written(b: seq<byte>, at: nat, n: u32)
    requires at + 4 <= |b| && b[at..at + 4] == PutBe32(n)
    ensures GetBe32(b, at) == n
  {
    var w := b[at..at + 4];
    assert w[0] == b[at] && w[1] == b[at + 1] && w[2] == b[at + 2] && w[3] == b[at + 3];
    Split32(n);
  }

  lemma SmallMultiple(d: int, k: int)
    requires k > 0 && -k < d * k < k
    ensures d == 0
  {
  }

  lemma DivMod(q: int, k: nat, r: int)
    requires 0 <= r < k
    ensures (q * k + r) / k == q && (q * k + r) % k == r
  {
    var n := q * k + r;
    assert (n / k - q) * k == r - n % k;
    SmallMultiple(n / k - q, k);
  }

  lemma Join32(a: byte, b: byte, c: byte, d: byte)
    ensures PutBe32(a as int * 0x100_0000 + b as int * 0x1_0000 + c as int * 0x100 + d as int) == [a, b, c, d]
  {
    var n: int := a as int * 0x100_0000 + b as int * 0x1_0000 + c as int * 0x100 + d as int;
    DivMod(a, 0x100_0000, b as int * 0x1_0000 + c as int * 0x100 + d as int);
    DivMod(a as int * 0x100 + b as int, 0x1_0000, c as int * 0x100 + d as int);
    DivMod(a as int * 0x1_0000 + b as int * 0x100 + c as int, 0x100, d);
    DivMod(a, 0x100, b);
    DivMod(a as int * 0x100 + b as int, 0x100, c);
  }

  /** Writing what was read restores the bytes. */
  lemma Be32Read(b: seq<byte>, at: nat)
    requires at + 4 <= |b|
    ensures PutBe32(GetBe32(b, at)) == b[at..at + 4]
  {
    Join32(b[at], b[at + 1], b[at + 2], b[at + 3]);
  }

  datatype Frame = Frame(msgType: u16, ip: u32, payload: seq<byte>)

  function Header(msgType: u16, ip: u32, size: u32): (b: seq<byte>)
    ensures |b| == MSG_HEADER
  {
    [DOLLAR] + PutBe16(msgType) + PutBe32(ip) + PutBe32(size)
  }

  lemma {:induction false} HeaderFields(msgType: u16, ip: u32, size: u32, tail: seq<byte>)
    ensures var b := Header(msgType, ip, size) + tail;
            b[0] == DOLLAR && GetBe16(b, 1) == msgType && GetBe32(b, 3) == ip && GetBe32(b, 7) == size
  {
    var h := Header(msgType, ip, size);
    var b := h + tail;
    assert h[3..7] == PutBe32(ip) && h[7..11] == PutBe32(size);
    assert b[3..7] == h[3..7] && b[7..11] == h[7..11];
    Be32Written(b, 3, ip);
    Be32Written(b, 7, size);
    assert b[1] == PutBe16(msgType)[0] && b[2] == PutBe16(msgType)[1];
  }

  /** Eleven bytes that start with '$' are the header made of the fields read from them. */
  lemma {:induction false} HeaderRead(b: seq<byte>)
    requires |b| >= MSG_HEADER && b[0] == DOLLAR
    ensures Header(GetBe16(b, 1), GetBe32(b, 3), GetBe32(b, 7)) == b[..MSG_HEADER]
  {
    Be32Read(b, 3);
    Be32Read(b, 7);
    assert PutBe16(GetBe16(b, 1)) == b[1..3];
    assert b[..MSG_HEADER] == [b[0]] + b[1..3] + b[3..7] + b[7..11];
  }

  /** The length field is 32 bits wide, so it holds the payload length modulo 2^32. */
  function Encode(f: Frame): (b: seq<byte>)
    ensures |b| == MSG_HEADER + |f.payload| + 1
  {
    Header(f.msgType, f.ip, |f.payload| % 0x1_0000_0000) + f.payload + [HASH]
  }

  lemma EncodeParts(f: Frame, post: seq<byte>)
    requires |f.payload| < 0x1_0000_0000
    ensures Encode(f) + post == Header(f.msgType, f.ip, |f.payload|) + (f.payload + ([HASH] + post))
  {
  }

  function EncodeAll(fs: seq<Frame>): (b: seq<byte>) {
    if fs == [] then [] else Encode(fs[0]) + EncodeAll(fs[1..])
  }

  /** The length that the header at the front of a buffer announces. */
  function SizeField(b: seq<byte>): (n: nat)
    requires |b| >= MSG_HEADER
  {
    GetBe32(b, 7)
  }

  /** The frame a buffer starts with, taken from its header. */
  function FrameAt(b: seq<byte>): (f: Frame)
    requires |b| > MSG_HEADER && |b| > MSG_HEADER + SizeField(b)
  {
    Frame(GetBe16(b, 1), GetBe32(b, 3), b[MSG_HEADER..MSG_HEADER + SizeField(b)])
  }

  /** What an encoded frame looks like at the front of any buffer. */
  lemma {:induction false} EncodeLayout(f: Frame, post: seq<byte>)
    requires |f.payload| <= MAX_PAYLOAD
    ensures var b := Encode(f) + post;
            && b[0] == DOLLAR && SizeField(b) == |f.payload| && b[MSG_HEADER + |f.payload|] == HASH
            && FrameAt(b) == f
            && b[MSG_HEADER + |f.payload| + 1..] == post
  {
    var b := Encode(f) + post;
    var n := |f.payload|;
    EncodeParts(f, post);
    HeaderFields(f.msgType, f.ip, n, f.payload + ([HASH] + post));
    assert b[MSG_HEADER..MSG_HEADER + n] == f.payload;
  }

  /** A buffer that starts with '$' and has '#' where its header says the frame ends
      starts with exactly the encoding of that frame. */
  lemma {:induction false} FrameAtEncodes(b: seq<byte>)
    requires |b| > MSG_HEADER && |b| > MSG_HEADER + SizeField(b)
    requires b[0] == DOLLAR && b[MSG_HEADER + SizeField(b)] == HASH
    ensures Encode(FrameAt(b)) == b[..MSG_HEADER + SizeField(b) + 1]
  {
    var n := SizeField(b);
    HeaderRead(b);
    assert b[..MSG_HEADER + n + 1] == b[..MSG_HEADER] + b[MSG_HEADER..MSG_HEADER + n] + [b[MSG_HEADER + n]];
  }
}
