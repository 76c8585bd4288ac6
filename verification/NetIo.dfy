/** Whole reads and whole writes over a socket that transfers as little as it likes. */
module NetIo {
  import opened Wire

  // What successive calls of recv will bring. No events left means the peer has closed.
  datatype RecvEvent = Chunk(bytes: seq<byte>) | Interrupted | Failed

  // What successive calls of send will do. No events left means the rest is taken at once.
  datatype SendEvent = Took(n: nat) | SendInterrupted | SendFailed

  /** The stream behind the events: the bytes that arrive, and whether it ends in an error. */
  datatype Tape = Tape(bytes: seq<byte>, broken: bool)

  function TapeOf(es: seq<RecvEvent>): (t: Tape) {
    if es == [] then Tape([], false)
    else match es[0]
    case Failed => Tape([], true)
    case Interrupted => TapeOf(es[1..])
    case Chunk(b) => if b == [] then Tape([], false) else Tape(b + TapeOf(es[1..]).bytes, TapeOf(es[1..]).broken)
  }

  datatype ReadResult = ReadResult(ret: int, got: seq<byte>, left: Tape)

  /** What a whole read of `size` bytes gives, in terms of the stream alone: the next `size` bytes,
      or everything that was left before the end. */
  function Take(t: Tape, size: int): (r: ReadResult) {
    if size <= 0 then ReadResult(0, [], t)
    else if size <= |t.bytes| then ReadResult(size, t.bytes[..size], Tape(t.bytes[size..], t.broken))
    else ReadResult(if t.broken then -1 else |t.bytes|, t.bytes, Tape([], t.broken))
  }

  /** How many bytes the socket takes before it fails, if it fails. */
  function FailsAfter(es: seq<SendEvent>): (n: int)
    ensures n >= -1
  {
    if es == [] then -1
    else match es[0]
    case SendFailed => 0
    case SendInterrupted => FailsAfter(es[1..])
    case Took(k) => if FailsAfter(es[1..]) < 0 then -1 else k + FailsAfter(es[1..])
  }

  lemma Regroup(a: seq<byte>, b: seq<byte>, c: seq<byte>)
    ensures a + (b + c) == a + b + c
  {
  }

  /** A whole read that has got `size` bytes, or everything, in the terms of `Take`. */
  lemma Taken(t: Tape, size: int, buf: seq<byte>, left: Tape)
    requires t == Tape(buf + left.bytes, left.broken)
    ensures size == |buf| ==> Take(t, size) == ReadResult(size, buf, left)
    ensures size > |buf| && left.bytes == [] ==>
              Take(t, size) == ReadResult(if left.broken then -1 else |buf|, buf, left)
  {
    assert t.bytes[..|buf|] == buf && t.bytes[|buf|..] == left.bytes;
    if left.bytes == [] {
      assert buf + [] == buf;
    }
    if size == 0 && buf == [] {
      assert [] + left.bytes == left.bytes;
    }
  }

  class Socket {
    var incoming: seq<RecvEvent>
    var sends: seq<SendEvent>
    var sent: seq<byte>

    constructor (incoming: seq<RecvEvent>, sends: seq<SendEvent>)
      ensures this.incoming == incoming && this.sends == sends && sent == []
    {
      this.incoming := incoming;
      this.sends := sends;
      this.sent := [];
    }

    /** One recv call: some of what is there, at most `max` bytes; 0 at the end; -1 on an error, of
        which an interruption is the harmless kind. */
    method Recv(max: nat) returns (n: int, data: seq<byte>, interrupted: bool)
      requires max > 0
      modifies `incoming
      ensures n == -1 ==> data == []
      ensures n >= 0 ==> n == |data| <= max && !interrupted
      ensures n >= -1
      ensures interrupted ==> n == -1 && TapeOf(incoming) == TapeOf(old(incoming)) && |incoming| < |old(incoming)|
      ensures n == -1 && !interrupted ==> TapeOf(old(incoming)) == TapeOf(incoming) == Tape([], true)
      ensures n == 0 ==> TapeOf(old(incoming)) == TapeOf(incoming) == Tape([], false)
      ensures n > 0 ==> TapeOf(old(incoming)) == Tape(data + TapeOf(incoming).bytes, TapeOf(incoming).broken)
    {
      if incoming == [] {
        return 0, [], false;
      }
      match incoming[0]
      case Failed => return -1, [], false;
      case Interrupted =>
        incoming := incoming[1..];
        return -1, [], true;
      case Chunk(b) =>
        if b == [] {
          return 0, [], false;
        }
        if |b| <= max {
          incoming := incoming[1..];
          return |b|, b, false;
        }
        var rest := incoming[1..];
        incoming := [Chunk(b[max..])] + rest;
        assert incoming[1..] == rest;
        assert b[..max] + (b[max..] + TapeOf(rest).bytes) == b + TapeOf(rest).bytes;
        return max, b[..max], false;
    }

    /** For every schedule of partial transfers and interruptions the result depends on the stream
        only. */
    method Readn(size: int) returns (ret: int, buf: seq<byte>)
      modifies `incoming
      ensures ReadResult(ret, buf, TapeOf(incoming)) == Take(TapeOf(old(incoming)), size)
    {
      var lefttoread := size;
      buf := [];
      ghost var tape := TapeOf(incoming);
      assert [] + tape.bytes == tape.bytes;
      while lefttoread > 0
        invariant size > 0 ==> 0 <= lefttoread && |buf| == size - lefttoread
        invariant size <= 0 ==> buf == [] && lefttoread == size
        invariant tape == Tape(buf + TapeOf(incoming).bytes, TapeOf(incoming).broken)
        decreases lefttoread, |incoming|
      {
        var hasread, data, interrupted := Recv(lefttoread);
        if hasread < 0 {
          if interrupted {
            hasread := 0;
          } else {
            Taken(tape, size, buf, TapeOf(incoming));
            return -1, buf;
          }
        } else if hasread == 0 {
          Taken(tape, size, buf, TapeOf(incoming));
          return |buf|, buf;
        }
        Regroup(buf, data, TapeOf(incoming).bytes);
        buf := buf + data;
        lefttoread := lefttoread - hasread;
      }
      if size > 0 {
        Taken(tape, size, buf, TapeOf(incoming));
      }
      ret := |buf|;
    }

    /** One send call: some of the bytes, or an error. */
    method Send(data: seq<byte>) returns (n: int, interrupted: bool)
      requires data != []
      modifies `sends, `sent
      ensures -1 <= n <= |data|
      ensures interrupted ==> n == -1
      ensures n == -1 && !interrupted ==> sent == old(sent) && FailsAfter(old(sends)) == 0
      ensures n >= 0 ==> sent == old(sent) + data[..n]
      ensures interrupted ==> sent == old(sent)
      ensures (interrupted || n >= 0) ==>
                var k := if n >= 0 then n else 0;
                && (FailsAfter(old(sends)) < 0 <==> FailsAfter(sends) < 0)
                && (k < |data| && FailsAfter(sends) >= 0 ==> FailsAfter(old(sends)) == k + FailsAfter(sends))
                && (k == |data| && FailsAfter(sends) >= 0 ==> FailsAfter(old(sends)) >= k)
                && (|sends| < |old(sends)| || k == |data|)
    {
      if sends == [] {
        sent := sent + data;
        assert data[..|data|] == data;
        return |data|, false;
      }
      match sends[0]
      case SendFailed => return -1, false;
      case SendInterrupted =>
        sends := sends[1..];
        return -1, true;
      case Took(k) =>
        sends := sends[1..];
        n := if k <= |data| then k else |data|;
        sent := sent + data[..n];
        return n, false;
    }

    /** A whole write emits the buffer once and in order. It fails exactly when the socket fails
        before the last byte is taken, and then what went out is a proper prefix. */
    method Writen(buf: seq<byte>) returns (ret: int)
      modifies `sends, `sent
      ensures var limit := FailsAfter(old(sends));
              if 0 <= limit < |buf| then ret == -1 && sent == old(sent) + buf[..limit]
              else ret == |buf| && sent == old(sent) + buf
      ensures FailsAfter(old(sends)) < 0 ==> FailsAfter(sends) < 0
    {
      var lefttowrite := |buf|;
      ghost var limit := FailsAfter(sends);
      assert buf[..0] == [];
      while lefttowrite > 0
        invariant 0 <= lefttowrite <= |buf|
        invariant sent == old(sent) + buf[..|buf| - lefttowrite]
        invariant limit < 0 <==> FailsAfter(sends) < 0
        invariant lefttowrite > 0 && limit >= 0 ==> limit == |buf| - lefttowrite + FailsAfter(sends)
        invariant lefttowrite == 0 && limit >= 0 ==> limit >= |buf|
        decreases lefttowrite, |sends|
      {
        var done := |buf| - lefttowrite;
        var haswrite, interrupted := Send(buf[done..]);
        if haswrite < 0 {
          if interrupted {
            haswrite := 0;
          } else {
            return -1;
          }
        }
        assert buf[..done] + buf[done..][..haswrite] == buf[..done + haswrite];
        lefttowrite := lefttowrite - haswrite;
      }
      assert buf[..|buf|] == buf;
      ret := |buf|;
    }
  }
}
