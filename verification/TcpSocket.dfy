/** The client's socket object: the receive buffer is one array, filled at its end and
    consumed at its front by moving the remaining bytes down. */
module TcpSocket {
  import opened Wire
  import opened Framing

  class MyTcpSocket {
    const recvbuf: array<byte>
    var hasreceived: nat
    // Every frame handed on to the message dispatch, and the bytes dropped in between.
    var handled: seq<Event>

    ghost predicate Valid()
      reads this
    {
      recvbuf.Length == MAX_BUF && hasreceived < MAX_BUF
    }

    /** The object as the parser sees it. */
    ghost function View(): (p: Parsed)
      requires recvbuf.Length == MAX_BUF && hasreceived <= MAX_BUF
      reads this, recvbuf
    {
      Parsed(handled, recvbuf[..hasreceived])
    }

    constructor ()
      ensures Valid() && fresh(recvbuf)
      ensures View() == Parsed([], [])
    {
      recvbuf := new byte[MAX_BUF](_ => 0);
      hasreceived := 0;
      handled := [];
    }

    /** Move the live bytes `k..hasreceived` to the front. */
    method Shift(k: nat)
      requires recvbuf.Length == MAX_BUF && k <= hasreceived <= MAX_BUF
      modifies this`hasreceived, recvbuf
      ensures hasreceived == old(hasreceived) - k
      ensures recvbuf[..hasreceived] == old(recvbuf[k..hasreceived])
    {
      forall i | 0 <= i < hasreceived - k {
        recvbuf[i] := recvbuf[i + k];
      }
      hasreceived := hasreceived - k;
    }

    /** One read event. `avail` is what the kernel holds for this socket and `ret` what the read
        returned; both are the environment's choice. A read is capped by the room left in the
        buffer. Returns how many bytes were taken from `avail`. */
    method RecvFromSocket(avail: seq<byte>, ret: int) returns (taken: nat)
      requires Valid()
      requires ret <= if |avail| <= MAX_BUF - hasreceived then |avail| else MAX_BUF - hasreceived
      modifies this, recvbuf
      ensures Valid()
      ensures taken == if ret <= 0 then 0 else ret
      ensures taken <= |avail|
      ensures View() == if taken == 0 then old(View()) else Receive(old(View()), avail[..taken])
    {
      taken := 0;
      if |avail| <= 0 {
        return;
      }
      if ret <= 0 {
        return;
      }
      taken := ret;
      ghost var before := View();
      forall i | 0 <= i < ret {
        recvbuf[hasreceived + i] := avail[i];
      }
      hasreceived := hasreceived + ret;
      ghost var full := recvbuf[..hasreceived];
      assert full == before.rest + avail[..ret];

      var again := true;
      while again && hasreceived >= MSG_HEADER
        invariant hasreceived <= MAX_BUF
        invariant Drain(View()) == Receive(before, avail[..ret])
        invariant !again ==> Inspect(View().rest).NeedMore?
        decreases hasreceived, again
      {
        ghost var p := View();
        again := Turn();
        DrainTurn(p);
      }
      DrainDone(View());
    }

    /** One turn of the frame loop; false when the function returns. */
    method Turn() returns (again: bool)
      requires recvbuf.Length == MAX_BUF && MSG_HEADER <= hasreceived <= MAX_BUF
      modifies this, recvbuf
      ensures hasreceived <= MAX_BUF
      ensures View() == TurnOf(old(View()))
      ensures again <==> Inspect(old(View().rest)).Resync? || Inspect(old(View().rest)).Whole?
      ensures again ==> hasreceived < old(hasreceived)
    {
      ghost var b := recvbuf[..hasreceived];
      if recvbuf[0] != DOLLAR {
        SkipByte();
        return true;
      }
      var size := ReadBe32(7);
      assert size == SizeField(b);
      if size > MAX_PAYLOAD {
        handled := handled + [Flushed(recvbuf[..hasreceived])];
        hasreceived := 0;
        forall i | 0 <= i < recvbuf.Length {
          recvbuf[i] := 0;
        }
        return false;
      }
      if size + 1 + MSG_HEADER > hasreceived {
        return false;
      }
      if recvbuf[MSG_HEADER + size] != HASH {
        SkipByte();
        return true;
      }
      HandOn(size);
      return true;
    }

    method SkipByte()
      requires recvbuf.Length == MAX_BUF && 0 < hasreceived <= MAX_BUF
      modifies this, recvbuf
      ensures hasreceived == old(hasreceived) - 1
      ensures View() == Parsed(old(handled) + [Skipped(old(recvbuf[0]))], old(View().rest)[1..])
    {
      ghost var b := recvbuf[..hasreceived];
      handled := handled + [Skipped(recvbuf[0])];
      Shift(1);
      assert recvbuf[..hasreceived] == b[1..];
    }

    /** Handle the whole frame at the front. */
    method HandOn(size: nat)
      requires recvbuf.Length == MAX_BUF && MSG_HEADER + size + 1 <= hasreceived <= MAX_BUF
      requires size == SizeField(recvbuf[..hasreceived])
      modifies this, recvbuf
      ensures hasreceived == old(hasreceived) - (MSG_HEADER + size + 1)
      ensures View() == Parsed(old(handled) + [Delivered(FrameAt(old(View().rest)))],
                               old(View().rest)[MSG_HEADER + size + 1..])
    {
      ghost var b := recvbuf[..hasreceived];
      var msgType := ReadBe16(1);
      var ip := ReadBe32(3);
      handled := handled + [Delivered(Frame(msgType, ip, recvbuf[MSG_HEADER..MSG_HEADER + size]))];
      assert recvbuf[MSG_HEADER..MSG_HEADER + size] == b[MSG_HEADER..MSG_HEADER + size];
      Shift(MSG_HEADER + size + 1);
      assert recvbuf[..hasreceived] == b[MSG_HEADER + size + 1..];
    }

    /** A whole session: read events until the schedule ends, each offering the rest of the stream
        and taking what the schedule, the kernel and the free room allow. What was handled is what a
        single parse of the bytes taken so far would have handled, unless it would have met an
        oversize header early. */
    method Session(stream: seq<byte>, wishes: seq<int>) returns (pos: nat, ghost chunks: seq<seq<byte>>)
      requires Valid() && View() == Parsed([], [])
      modifies this, recvbuf
      ensures Valid() && pos <= |stream|
      ensures Concat(chunks) == stream[..pos] && Fits(chunks) && View() == ReceiveAll(chunks)
      ensures Bytes(handled) + recvbuf[..hasreceived] == stream[..pos]
      ensures NoEarlyFlush(stream[..pos]) ==> View() == Parse(stream[..pos])
    {
      pos := 0;
      chunks := [];
      var i := 0;
      while i < |wishes|
        invariant 0 <= i <= |wishes| && pos <= |stream| && Valid()
        invariant Concat(chunks) == stream[..pos] && Fits(chunks) && View() == ReceiveAll(chunks)
      {
        var avail := stream[pos..];
        var room := MAX_BUF - hasreceived;
        var cap := if |avail| <= room then |avail| else room;
        var taken := RecvFromSocket(avail, if wishes[i] <= cap then wishes[i] else cap);
        if taken > 0 {
          OneMoreRead(chunks, stream, pos, taken);
          chunks := chunks + [avail[..taken]];
          pos := pos + taken;
        }
        i := i + 1;
      }
      ReceiveAllConserves(chunks);
      if NoEarlyFlush(stream[..pos]) {
        ChunksAgree(chunks);
      }
    }

    method ReadBe16(at: nat) returns (n: u16)
      requires at + 2 <= recvbuf.Length
      ensures n == GetBe16(recvbuf[..], at)
    {
      n := recvbuf[at] as int * 256 + recvbuf[at + 1] as int;
    }

    method ReadBe32(at: nat) returns (n: u32)
      requires at + 4 <= recvbuf.Length
      ensures n == GetBe32(recvbuf[..], at)
    {
      n := recvbuf[at] as int * 0x100_0000 + recvbuf[at + 1] as int * 0x1_0000
         + recvbuf[at + 2] as int * 0x100 + recvbuf[at + 3] as int;
    }
  }

  /** One turn of the frame loop on the log and the buffer. */
  function TurnOf(p: Parsed): (q: Parsed) {
    match Inspect(p.rest)
    case NeedMore => p
    case Resync => Parsed(p.events + [Skipped(p.rest[0])], p.rest[1..])
    case Oversize => Parsed(p.events + [Flushed(p.rest)], [])
    case Whole(f) => Parsed(p.events + [Delivered(f)], p.rest[MSG_HEADER + |f.payload| + 1..])
  }

  /** What the log and the buffer become when the loop is run to its end. */
  function Drain(p: Parsed): (q: Parsed) {
    Parsed(p.events + Parse(p.rest).events, Parse(p.rest).rest)
  }

  lemma DrainTurn(p: Parsed)
    ensures Drain(TurnOf(p)) == Drain(p)
  {
    var q := TurnOf(p);
    match Inspect(p.rest)
    case NeedMore =>
    case Resync => Assoc(p.events, [Skipped(p.rest[0])], Parse(q.rest).events);
    case Oversize => Assoc(p.events, [Flushed(p.rest)], Parse(q.rest).events);
    case Whole(f) => Assoc(p.events, [Delivered(f)], Parse(q.rest).events);
  }

  /** The reads so far and one more that fits. */
  lemma OneMoreRead(chunks: seq<seq<byte>>, stream: seq<byte>, pos: nat, n: nat)
    requires pos + n <= |stream| && Concat(chunks) == stream[..pos]
    requires Fits(chunks) && |ReceiveAll(chunks).rest| + n <= MAX_BUF
    ensures var more := chunks + [stream[pos..][..n]];
            && Fits(more) && Concat(more) == stream[..pos + n]
            && ReceiveAll(more) == Receive(ReceiveAll(chunks), stream[pos..][..n])
  {
    Snoc(chunks, stream[pos..][..n]);
    assert stream[..pos] + stream[pos..][..n] == stream[..pos + n];
  }

  lemma DrainDone(p: Parsed)
    requires Inspect(p.rest).NeedMore?
    ensures Drain(p) == p && |p.rest| < MAX_BUF
  {
    assert p.events + [] == p.events;
    ParseLeavesRoom(p.rest);
  }
}
