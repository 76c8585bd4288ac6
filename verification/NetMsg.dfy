/** Messages inside the server, and the lists of addresses they carry. */
module NetMsg {
  import opened Wire

  datatype Option<+T> = None | Some(value: T)

  // A socket; real connections are positive, 0 means "no owner".
  type Fd = int
  const INVALID_SOCKET: Fd := -1

  /** One malloc'ed payload. The id tells two allocations with equal bytes apart. */
  datatype Block = Block(id: nat, bytes: seq<byte>)

  /** `len` is the C int beside the payload: it can be negative when a header said so. */
  datatype NetMsg = NetMsg(msgType: u16, ip: u32, targetfd: Fd, len: int, data: Option<Block>)

  const PILL := NetMsg(POISON, 0, INVALID_SOCKET, 0, None)

  function EncodeIps(ips: seq<u32>): (b: seq<byte>)
    ensures |b| == 4 * |ips|
  {
    if ips == [] then [] else PutBe32(ips[0]) + EncodeIps(ips[1..])
  }

  /** The client reads size / 4 numbers and then refuses the list when a part of one is left over. */
  function DecodeIps(b: seq<byte>): (ips: seq<u32>) {
    if |b| < 4 then [] else [GetBe32(b, 0)] + DecodeIps(b[4..])
  }

  function ListedIps(b: seq<byte>): (ips: seq<u32>) {
    if |b| % 4 != 0 then [] else DecodeIps(b)
  }

  /** An address list of any length survives the trip. */
  lemma {:induction false} IpsRoundTrip(ips: seq<u32>)
    ensures ListedIps(EncodeIps(ips)) == ips
  {
    if ips != [] {
      var b := EncodeIps(ips);
      assert b[0..4] == PutBe32(ips[0]);
      Be32Written(b, 0, ips[0]);
      assert b[4..] == EncodeIps(ips[1..]);
      IpsRoundTrip(ips[1..]);
    }
  }

  /** The addresses a PARTNER_JOIN2 message names. */
  function Listed(m: NetMsg): (ips: seq<u32>) {
    if m.data.Some? then ListedIps(m.data.value.bytes) else []
  }

  /** Messages a sender passes on to every member but the one named in `targetfd`. */
  predicate IsBroadcast(t: u16) {
    t == PARTNER_EXIT || t == PARTNER_JOIN || t == IMG_RECV || t == AUDIO_RECV || t == TEXT_RECV || t == CLOSE_CAMERA
  }
}
