/** The shared state of a room behind `Pool::lock`, and the critical sections that touch it. */
module Pool {
  import opened Wire
  import opened NetMsg

  // Winsock's fd_set holds FD_SETSIZE sockets; adding to a full one does nothing.
  const FD_SETSIZE: nat := 1024

  datatype PoolState = PoolState(
    on: bool, owner: Fd, num: int, activeFds: seq<Fd>, fdToIp: map<Fd, u32>, fdset: set<Fd>)

  const NEW_POOL := PoolState(true, 0, 0, [], map[], {})

  function FdSet(s: set<Fd>, fd: Fd): (t: set<Fd>) {
    if |s| < FD_SETSIZE then s + {fd} else s
  }

  /** `fdToIp[fd]` in C++: a missing key is inserted with value 0. */
  function Touch(m: map<Fd, u32>, fd: Fd): (n: map<Fd, u32>)
    ensures fd in n
  {
    if fd in m then m else m[fd := 0]
  }

  function AdmitCreate(p: PoolState, fd: Fd, ip: u32): (q: PoolState) {
    PoolState(true, fd, p.num + 1, p.activeFds + [fd], p.fdToIp[fd := ip], FdSet(p.fdset, fd))
  }

  function AdmitJoin(p: PoolState, fd: Fd, ip: u32): (q: PoolState)
    requires p.on
  {
    p.(num := p.num + 1, activeFds := p.activeFds + [fd], fdToIp := p.fdToIp[fd := ip], fdset := FdSet(p.fdset, fd))
  }

  /** std::find and erase: the first occurrence goes. */
  function Without(s: seq<Fd>, fd: Fd): (t: seq<Fd>) {
    if s == [] then [] else if s[0] == fd then s[1..] else [s[0]] + Without(s[1..], fd)
  }

  /** The critical section of `fdclose` for a member that is not the owner. */
  function Evict(p: PoolState, fd: Fd): (q: PoolState) {
    p.(num := p.num - 1, activeFds := Without(p.activeFds, fd), fdToIp := p.fdToIp - {fd}, fdset := p.fdset - {fd})
  }

  function IpOf(p: PoolState, fd: Fd): (ip: u32) {
    if fd in p.fdToIp then p.fdToIp[fd] else 0
  }

  /** `clear_room`, except for the queue it clears last. */
  function Cleared(p: PoolState): (q: PoolState) {
    PoolState(false, 0, 0, [], map[], {})
  }

  function Select(s: seq<Fd>, fd: Fd, same: bool): (t: seq<Fd>) {
    if s == [] then []
    else (if (s[0] == fd) == same then [s[0]] else []) + Select(s[1..], fd, same)
  }

  /** Who gets a message, decided by a sender under the lock. */
  function Targets(p: PoolState, m: NetMsg): (ts: seq<Fd>) {
    if m.msgType == CREATE_MEETING_RESPONSE then [m.targetfd]
    else if IsBroadcast(m.msgType) then Select(p.activeFds, m.targetfd, false)
    else if m.msgType == PARTNER_JOIN2 then Select(p.activeFds, m.targetfd, true)
    else []
  }

  function IpsOf(m: map<Fd, u32>, s: seq<Fd>): (ips: seq<u32>) {
    if s == [] then [] else [if s[0] in m then m[s[0]] else 0] + IpsOf(m, s[1..])
  }

  function TouchAll(m: map<Fd, u32>, s: seq<Fd>): (n: map<Fd, u32>)
    ensures forall fd <- n :: fd in m || fd in s
    ensures forall fd <- m :: fd in n && n[fd] == m[fd]
    decreases |s|
  {
    if s == [] then m else TouchAll(Touch(m, s[0]), s[1..])
  }

  /** The accept thread's snapshot for a newcomer: everybody else's address. */
  function Others(p: PoolState, fd: Fd): (s: seq<Fd>) {
    Select(p.activeFds, fd, false)
  }

  // ---------------------------------------------------------------------------------------
  // Lists without repetition
  // ---------------------------------------------------------------------------------------

  ghost predicate NoDup<T(!new)>(s: seq<T>) {
    forall i, j :: 0 <= i < j < |s| ==> s[i] != s[j]
  }

  lemma {:induction false} WithoutIsErase(s: seq<Fd>, fd: Fd)
    requires NoDup(s)
    ensures NoDup(Without(s, fd))
    ensures forall x :: x in Without(s, fd) <==> x in s && x != fd
    ensures |Without(s, fd)| == |s| - (if fd in s then 1 else 0)
  {
    if s != [] {
      var t := s[1..];
      assert s == [s[0]] + t;
      assert s[0] !in t;
      WithoutIsErase(t, fd);
    }
  }

  lemma {:induction false} SelectIsFilter(s: seq<Fd>, fd: Fd, same: bool)
    ensures forall x :: x in Select(s, fd, same) <==> x in s && ((x == fd) == same)
    ensures NoDup(s) ==> NoDup(Select(s, fd, same))
  {
    if s != [] {
      var t := s[1..];
      assert s == [s[0]] + t;
      SelectIsFilter(t, fd, same);
      if NoDup(s) {
        assert s[0] !in t;
        assert NoDup(t);
      }
    }
  }

  lemma {:induction false} IpsOfMembers(m: map<Fd, u32>, s: seq<Fd>)
    requires forall fd :: fd in s ==> fd in m
    ensures forall fd :: fd in s ==> m[fd] in IpsOf(m, s)
    ensures forall ip :: ip in IpsOf(m, s) ==> exists fd :: fd in s && m[fd] == ip
  {
    if s != [] {
      var t := s[1..];
      var h := s[0];
      assert s == [h] + t;
      assert h in s;
      IpsOfMembers(m, t);
      forall ip | ip in IpsOf(m, s) ensures exists fd :: fd in s && m[fd] == ip {
        if ip != m[h] {
          var fd :| fd in t && m[fd] == ip;
          assert fd in s;
        }
      }
    }
  }

  function Elems(s: seq<Fd>): (t: set<Fd>) {
    set x | x in s
  }

  lemma {:induction false} NoDupSize(s: seq<Fd>)
    requires NoDup(s)
    ensures |Elems(s)| == |s|
  {
    if s != [] {
      var t := s[1..];
      assert s == [s[0]] + t;
      assert s[0] !in t;
      NoDupSize(t);
      assert Elems(s) == Elems(t) + {s[0]};
    }
  }
}
