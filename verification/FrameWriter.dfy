/** How a sender turns a message into a frame, in a buffer filled by a cursor. */
module FrameWriter {
  import opened Wire
  import opened NetMsg

  predicate HasZeroIp(t: u16) {
    t == CREATE_MEETING_RESPONSE || t == PARTNER_JOIN2
  }

  /** The types a room queues. */
  predicate RoomType(t: u16) {
    HasZeroIp(t) || IsBroadcast(t)
  }

  function AsU32(i: int): (n: u32) {
    i % 0x1_0000_0000
  }

  function AddressPart(m: NetMsg): (b: seq<byte>) {
    if HasZeroIp(m.msgType) then [0, 0, 0, 0]
    else if IsBroadcast(m.msgType) then PutBe32(m.ip)
    else []
  }

  function LengthPart(m: NetMsg): (b: seq<byte>) {
    PutBe32(if m.msgType == CREATE_MEETING_RESPONSE && m.len != 4 then 4 else AsU32(m.len))
  }

  function PayloadPart(m: NetMsg): (b: seq<byte>) {
    if m.len > 0 && m.data.Some? then m.data.value.bytes else []
  }

  function SenderBytes(m: NetMsg): (b: seq<byte>) {
    [DOLLAR] + PutBe16(m.msgType) + AddressPart(m) + LengthPart(m) + PayloadPart(m) + [HASH]
  }

  /** `len` is the size of the payload, as for every message whose header did not lie. */
  predicate Measured(m: NetMsg) {
    && m.len == (if m.data.Some? then |m.data.value.bytes| else 0)
    && (m.msgType == CREATE_MEETING_RESPONSE ==> m.len == 4)
  }

  /** The frame a message stands for. */
  function FrameOf(m: NetMsg): (f: Frame) {
    Frame(m.msgType, if HasZeroIp(m.msgType) then 0 else m.ip, if m.data.Some? then m.data.value.bytes else [])
  }

  /** A measured message becomes a proper frame exactly when its type is one a room queues: any
      other type is written without an address, four bytes short. */
  lemma SenderFrame(m: NetMsg)
    requires Measured(m)
    ensures SenderBytes(m) == Encode(FrameOf(m)) <==> RoomType(m.msgType)
    ensures !RoomType(m.msgType) ==> |SenderBytes(m)| == |Encode(FrameOf(m))| - 4
  {
    var n := |FrameOf(m).payload|;
    if RoomType(m.msgType) {
      assert PutBe32(0) == [0, 0, 0, 0];
      assert SenderBytes(m) == Header(m.msgType, FrameOf(m).ip, n % 0x1_0000_0000) + FrameOf(m).payload + [HASH];
    }
  }

  class SendBuffer {
    const sendbuf: array<byte>

    constructor (size: nat)
      ensures sendbuf.Length == size && fresh(sendbuf)
    {
      sendbuf := new byte[size](_ => 0);
    }

    /** memcpy to the cursor. */
    method Put(len: nat, b: seq<byte>) returns (len': nat)
      requires len + |b| <= sendbuf.Length
      modifies sendbuf
      ensures len' == len + |b|
      ensures sendbuf[..len'] == old(sendbuf[..len]) + b
    {
      forall i | 0 <= i < |b| {
        sendbuf[len + i] := b[i];
      }
      len' := len + |b|;
    }

    /** The frame is in `sendbuf[..len]`, if it fits. A longer one is copied past the end of the buffer:
        the code does not look, and nothing is said of what happens then. */
    method Encode(m: NetMsg) returns (len: nat, overrun: bool)
      requires sendbuf.Length == MAX_BUF
      modifies sendbuf
      ensures overrun <==> |SenderBytes(m)| > MAX_BUF
      ensures !overrun ==> len <= sendbuf.Length && sendbuf[..len] == SenderBytes(m)
    {
      forall i | 0 <= i < sendbuf.Length {
        sendbuf[i] := 0;
      }
      len := EncodeHeader(m);
      ghost var header := sendbuf[..len];
      if m.len > 0 && m.data.Some? {
        if len + |m.data.value.bytes| >= sendbuf.Length {
          assert |SenderBytes(m)| == |header| + |m.data.value.bytes| + 1;
          return len, true;
        }
        len := Put(len, m.data.value.bytes);
      } else {
        assert SenderBytes(m) == header + [HASH];
      }
      len := Put(len, [HASH]);
      assert sendbuf[..len] == SenderBytes(m);
      overrun := false;
    }

    method EncodeHeader(m: NetMsg) returns (len: nat)
      requires sendbuf.Length == MAX_BUF
      modifies sendbuf
      ensures len <= MSG_HEADER
      ensures sendbuf[..len] == [DOLLAR] + PutBe16(m.msgType) + AddressPart(m) + LengthPart(m)
    {
      len := Put(0, [DOLLAR]);
      assert sendbuf[..len] == [DOLLAR];
      len := Put(len, PutBe16(m.msgType));
      if m.msgType == CREATE_MEETING_RESPONSE || m.msgType == PARTNER_JOIN2 {
        len := Put(len, [0, 0, 0, 0]);
      } else if IsBroadcast(m.msgType) {
        len := Put(len, PutBe32(m.ip));
      } else {
        assert sendbuf[..len] == [DOLLAR] + PutBe16(m.msgType) + [];
      }
      var msglen := AsU32(m.len);
      if m.msgType == CREATE_MEETING_RESPONSE && m.len != 4 {
        msglen := 4;
      }
      len := Put(len, PutBe32(msglen));
    }
  }
}
