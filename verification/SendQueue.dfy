/** SEND_QUEUE as an object: the critical sections of its operations, specified by the functions the
    state machine uses. Waiting and waking are the subject of module Wakeups. */
module SendQueue {
  import opened NetMsg
  import opened Room

  datatype PushOutcome = MustWait | Dropped | Queued
  datatype PopOutcome = NothingYet | Poisoned | Got(msg: NetMsg)

  class SendQueue {
    var items: seq<NetMsg>
    var shutdownFlag: bool
    var heap: Heap

    constructor (heap: Heap)
      ensures items == [] && !shutdownFlag && this.heap == heap
    {
      items, shutdownFlag, this.heap := [], false, heap;
    }

    /** One evaluation of the wait condition of `push_msg`, and what follows when it lets through. */
    method PushMsg(m: NetMsg) returns (o: PushOutcome)
      modifies this
      ensures shutdownFlag == old(shutdownFlag)
      ensures o == (if shutdownFlag then Dropped else if |old(items)| >= MAXSIZE then MustWait else Queued)
      ensures items == if o == Queued then old(items) + [m] else old(items)
      ensures heap == if o == Dropped then FreeData(old(heap), m) else old(heap)
    {
      if |items| >= MAXSIZE && !shutdownFlag {
        return MustWait;
      }
      if shutdownFlag {
        if m.data.Some? {
          heap := heap.(freed := heap.freed + multiset{m.data.value.id});
        }
        return Dropped;
      }
      items := items + [m];
      return Queued;
    }

    method PopMsg() returns (o: PopOutcome)
      modifies this
      ensures shutdownFlag == old(shutdownFlag) && heap == old(heap)
      ensures if old(items) != [] then o == Got(old(items)[0]) && items == old(items)[1..]
              else items == [] && o == if shutdownFlag then Poisoned else NothingYet
    {
      if items == [] && !shutdownFlag {
        return NothingYet;
      }
      if items == [] {
        return Poisoned;
      }
      o := Got(items[0]);
      items := items[1..];
    }

    method Shutdown()
      modifies this
      ensures shutdownFlag && items == old(items) + Pills(SENDTHREADSIZE) && heap == old(heap)
    {
      shutdownFlag := true;
      var i := 0;
      assert items + Pills(0) == items;
      while i < SENDTHREADSIZE
        invariant 0 <= i <= SENDTHREADSIZE && shutdownFlag && heap == old(heap)
        invariant items == old(items) + Pills(i)
      {
        assert Pills(i) + [PILL] == Pills(i + 1);
        items := items + [PILL];
        i := i + 1;
      }
    }

    method Clear()
      modifies this
      ensures items == [] && heap == FreeQueue(old(heap), old(items)) && shutdownFlag == old(shutdownFlag)
    {
      while items != []
        invariant FreeQueue(heap, items) == FreeQueue(old(heap), old(items))
        invariant shutdownFlag == old(shutdownFlag)
        decreases |items|
      {
        var m := items[0];
        items := items[1..];
        if m.data.Some? {
          heap := heap.(freed := heap.freed + multiset{m.data.value.id});
        }
      }
    }
  }
}
