/** The room's shared object, updated in place. Each method is one critical section under
    `Pool::lock` and is specified by the function the state machine uses for it. */
module SharedPool {
  import opened Wire
  import opened NetMsg
  import opened Pool

  class PoolObject {
    var on: bool
    var owner: Fd
    var num: int
    var activeFds: seq<Fd>
    var fdToIp: map<Fd, u32>
    var fdset: set<Fd>
    var shutdown: bool
    // Every socket passed to Close, in order.
    var closed: seq<Fd>

    function View(): (p: PoolState)
      reads this
    {
      PoolState(on, owner, num, activeFds, fdToIp, fdset)
    }

    constructor ()
      ensures View() == NEW_POOL && !shutdown && closed == []
    {
      on, owner, num, activeFds, fdToIp, fdset := true, 0, 0, [], map[], {};
      shutdown, closed := false, [];
    }

    method FdSetAdd(fd: Fd)
      modifies `fdset
      ensures fdset == FdSet(old(fdset), fd)
    {
      if |fdset| < FD_SETSIZE {
        fdset := fdset + {fd};
      }
    }

    method AdmitCreator(fd: Fd, ip: u32)
      modifies this
      ensures View() == AdmitCreate(old(View()), fd, ip) && shutdown == old(shutdown) && closed == old(closed)
    {
      FdSetAdd(fd);
      owner := fd;
      fdToIp := fdToIp[fd := ip];
      num := num + 1;
      activeFds := activeFds + [fd];
      on := true;
    }

    method AdmitJoiner(fd: Fd, ip: u32) returns (admitted: bool)
      modifies this
      ensures admitted == old(on) && shutdown == old(shutdown)
      ensures if admitted then View() == AdmitJoin(old(View()), fd, ip) && closed == old(closed)
              else View() == old(View()) && closed == old(closed) + [fd]
    {
      if !on {
        closed := closed + [fd];
        return false;
      }
      FdSetAdd(fd);
      num := num + 1;
      activeFds := activeFds + [fd];
      fdToIp := fdToIp[fd := ip];
      return true;
    }

    /** std::find. */
    method Find(fd: Fd) returns (at: nat)
      ensures at <= |activeFds| && fd !in activeFds[..at]
      ensures at < |activeFds| ==> activeFds[at] == fd
    {
      at := 0;
      while at < |activeFds|
        invariant at <= |activeFds| && fd !in activeFds[..at]
      {
        if activeFds[at] == fd {
          return;
        }
        at := at + 1;
      }
    }

    /** `fdclose`: the owner's exit closes the room; anybody else's gives the address to announce. */
    method FdClose(fd: Fd) returns (exitIp: Option<u32>)
      modifies this
      ensures old(owner) == fd ==>
                exitIp == None && shutdown && View() == Cleared(old(View())) && closed == old(closed) + old(activeFds)
      ensures old(owner) != fd ==>
                && exitIp == Some(IpOf(old(View()), fd)) && shutdown == old(shutdown)
                && View() == Evict(old(View()), fd) && closed == old(closed) + [fd]
    {
      if owner == fd {
        shutdown := true;
        ClearRoom();
        return None;
      }
      var ip: u32 := 0;
      if fd in fdToIp {
        ip := fdToIp[fd];
      }
      fdToIp := fdToIp - {fd};
      fdset := fdset - {fd};
      num := num - 1;
      var at := Find(fd);
      WithoutAt(activeFds, fd, at);
      if at < |activeFds| {
        activeFds := activeFds[..at] + activeFds[at + 1..];
      }
      closed := closed + [fd];
      return Some(ip);
    }

    method ClearRoom()
      modifies this
      ensures View() == Cleared(old(View())) && closed == old(closed) + old(activeFds) && shutdown == old(shutdown)
    {
      on := false;
      var i := 0;
      while i < |activeFds|
        invariant 0 <= i <= |activeFds| && activeFds == old(activeFds) && shutdown == old(shutdown) && !on
        invariant closed == old(closed) + activeFds[..i]
      {
        closed := closed + [activeFds[i]];
        i := i + 1;
      }
      assert activeFds[..i] == activeFds;
      activeFds, fdToIp, num, owner, fdset := [], map[], 0, 0, {};
    }

    method SelectFds(fd: Fd, same: bool) returns (ts: seq<Fd>)
      ensures ts == Select(activeFds, fd, same)
    {
      ts := [];
      var i := 0;
      while i < |activeFds|
        invariant 0 <= i <= |activeFds|
        invariant ts + Select(activeFds[i..], fd, same) == Select(activeFds, fd, same)
      {
        SelectHead(activeFds, i, fd, same, ts);
        if (activeFds[i] == fd) == same {
          ts := ts + [activeFds[i]];
        }
        i := i + 1;
      }
      assert ts + [] == ts;
    }

    /** The targets of a message, as a sender computes them under the lock. */
    method FindTargetsOf(m: NetMsg) returns (ts: seq<Fd>)
      ensures ts == Targets(View(), m)
    {
      if m.msgType == CREATE_MEETING_RESPONSE {
        ts := [m.targetfd];
      } else if IsBroadcast(m.msgType) {
        ts := SelectFds(m.targetfd, false);
      } else if m.msgType == PARTNER_JOIN2 {
        ts := SelectFds(m.targetfd, true);
      } else {
        ts := [];
      }
    }

    /** The newcomer's list. Looking an address up inserts a missing one. */
    method TakeList(fd: Fd) returns (ips: seq<u32>)
      modifies `fdToIp
      ensures ips == IpsOf(old(fdToIp), Others(old(View()), fd))
      ensures fdToIp == TouchAll(old(fdToIp), Others(old(View()), fd))
    {
      var others := SelectFds(fd, false);
      ips := [];
      var i := 0;
      ghost var before := fdToIp;
      while i < |others|
        invariant 0 <= i <= |others|
        invariant TouchAll(fdToIp, others[i..]) == TouchAll(before, others)
        invariant ips + IpsOf(fdToIp, others[i..]) == IpsOf(before, others)
      {
        LookUp(fdToIp, others, i, ips);
        fdToIp := Touch(fdToIp, others[i]);
        ips := ips + [fdToIp[others[i]]];
        i := i + 1;
      }
      assert ips + [] == ips;
    }
  }

  lemma SelectHead(s: seq<Fd>, i: nat, fd: Fd, same: bool, ts: seq<Fd>)
    requires i < |s|
    ensures ts + Select(s[i..], fd, same)
         == (if (s[i] == fd) == same then ts + [s[i]] else ts) + Select(s[i + 1..], fd, same)
  {
    assert s[i..][1..] == s[i + 1..];
    var later := Select(s[i + 1..], fd, same);
    if (s[i] == fd) == same {
      assert ts + ([s[i]] + later) == ts + [s[i]] + later;
    } else {
      assert [] + later == later;
    }
  }

  lemma LookUp(m: map<Fd, u32>, s: seq<Fd>, i: nat, ips: seq<u32>)
    requires i < |s|
    ensures TouchAll(m, s[i..]) == TouchAll(Touch(m, s[i]), s[i + 1..])
    ensures ips + IpsOf(m, s[i..]) == ips + [Touch(m, s[i])[s[i]]] + IpsOf(Touch(m, s[i]), s[i + 1..])
  {
    assert s[i..][1..] == s[i + 1..];
    IpsOfTouched(m, s[i], s[i + 1..]);
    var here := [Touch(m, s[i])[s[i]]];
    assert ips + (here + IpsOf(m, s[i + 1..])) == ips + here + IpsOf(m, s[i + 1..]);
  }

  lemma {:induction false} WithoutAt(s: seq<Fd>, fd: Fd, at: nat)
    requires at <= |s| && fd !in s[..at] && (at < |s| ==> s[at] == fd)
    ensures Without(s, fd) == if at < |s| then s[..at] + s[at + 1..] else s
  {
    if at > 0 {
      assert s[0] == s[..at][0];
      assert s[1..][..at - 1] == s[..at][1..];
      WithoutAt(s[1..], fd, at - 1);
      assert s == [s[0]] + s[1..];
    }
  }

  /** Inserting 0 for a missing address does not change what a lookup with default 0 finds. */
  lemma {:induction false} IpsOfTouched(m: map<Fd, u32>, fd: Fd, s: seq<Fd>)
    ensures IpsOf(Touch(m, fd), s) == IpsOf(m, s)
  {
    if s != [] {
      IpsOfTouched(m, fd, s[1..]);
    }
  }
}
