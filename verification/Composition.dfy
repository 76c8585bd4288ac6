/** Each room of a server runs as a room by itself: what the theorems say about all runs of one room they say
    about every room of every history. */
module Composition {
  import opened Wire
  import opened NetMsg
  import opened Room
  import opened Membership
  import opened Server
  import opened Directory

  /** The step that an action is for room `r`. */
  function LabelAt(s: Server, a: Action, r: nat): (ls: seq<Label>)
    requires Can(s, a)
  {
    match a
    case InRoom(q, l) => if q == r then [l] else []
    case HandOverCreator(t) =>
      var h := s.acceptors[t];
      if h.room == r then [Outside(HandCreate(h.fd, s.address[h.fd]))] else []
    case HandOverJoiner(t) =>
      var h := s.acceptors[t];
      if h.room == r then [Outside(HandJoin(h.fd, s.address[h.fd]))] else []
    case _ => []
  }

  function LabelsOf(s: Server, acts: seq<Action>, r: nat): (ls: seq<Label>)
    requires History(s, acts)
    decreases |acts|
  {
    if acts == [] then [] else LabelAt(s, acts[0], r) + LabelsOf(Do(s, acts[0]), acts[1..], r)
  }

  lemma {:induction false} OneAction(s: Server, a: Action, r: nat)
    requires Can(s, a) && r < |s.rooms|
    ensures r < |Do(s, a).rooms| && Legal(s.rooms[r], LabelAt(s, a, r))
    ensures Do(s, a).rooms[r] == After(s.rooms[r], LabelAt(s, a, r))
  {
    if LabelAt(s, a, r) != [] {
      var l := LabelAt(s, a, r)[0];
      assert LabelAt(s, a, r) == [l] && [l][1..] == [];
      assert Enabled(s.rooms[r], l) && Do(s, a).rooms[r] == Step(s.rooms[r], l);
    }
  }

  lemma {:induction false} RunsOn(s: Room, a: seq<Label>, b: seq<Label>)
    requires Legal(s, a) && Legal(After(s, a), b)
    ensures Legal(s, a + b) && After(s, a + b) == After(After(s, a), b)
    decreases |a|
  {
    if a == [] {
      assert a + b == b;
    } else {
      assert (a + b)[1..] == a[1..] + b;
      RunsOn(Step(s, a[0]), a[1..], b);
    }
  }

  lemma {:induction false} RoomRuns(s: Server, acts: seq<Action>, r: nat)
    requires History(s, acts) && r < |s.rooms|
    ensures r < |Then(s, acts).rooms| && Legal(s.rooms[r], LabelsOf(s, acts, r))
    ensures Then(s, acts).rooms[r] == After(s.rooms[r], LabelsOf(s, acts, r))
    decreases |acts|
  {
    if acts != [] {
      OneAction(s, acts[0], r);
      RoomRuns(Do(s, acts[0]), acts[1..], r);
      RunsOn(s.rooms[r], LabelAt(s, acts[0], r), LabelsOf(Do(s, acts[0]), acts[1..], r));
    }
  }

  /** No action is for a room that is not there yet. */
  lemma {:induction false} NothingYet(s: Server, a: Action, r: nat)
    requires Can(s, a) && r >= |s.rooms|
    ensures LabelAt(s, a, r) == []
    ensures r < |Do(s, a).rooms| ==> a.CreateRoom? && r == |s.rooms| && Do(s, a).rooms[r] == Start(a.id)
  {
  }

  /** The r-th room from here on, a run of it. */
  predicate RunsAlone(room: Room, ids: seq<u32>, k: int, ls: seq<Label>) {
    0 <= k < |ids| && Legal(Start(ids[k]), ls) && room == After(Start(ids[k]), ls)
  }

  lemma {:induction false} LaterRoomRuns(s: Server, acts: seq<Action>, r: nat)
    requires History(s, acts) && |s.rooms| <= r < |Then(s, acts).rooms|
    ensures RunsAlone(Then(s, acts).rooms[r], Numbers(acts), r - |s.rooms|, LabelsOf(s, acts, r))
    decreases |acts|
  {
    var a, n := acts[0], Do(s, acts[0]);
    NothingYet(s, a, r);
    assert LabelsOf(s, acts, r) == LabelsOf(n, acts[1..], r);
    if r < |n.rooms| {
      RoomRuns(n, acts[1..], r);
      FirstNumber(acts);
    } else {
      LaterRoomRuns(n, acts[1..], r);
      NextNumber(acts, r - |n.rooms|);
      NumbersStep(s, a);
    }
  }

  lemma {:induction false} FirstNumber(acts: seq<Action>)
    requires acts != [] && acts[0].CreateRoom?
    ensures Numbers(acts) != [] && Numbers(acts)[0] == acts[0].id
  {
  }

  lemma {:induction false} NextNumber(acts: seq<Action>, k: nat)
    requires acts != [] && k < |Numbers(acts[1..])|
    ensures var d := if acts[0].CreateRoom? then 1 else 0;
            k + d < |Numbers(acts)| && Numbers(acts)[k + d] == Numbers(acts[1..])[k]
  {
  }

  /** In every history the r-th room made is in a state that a room of its number reaches by itself, by the
      steps that the history's actions are for it. */
  lemma {:induction false} EveryRoomIsARun(threads: nat, acts: seq<Action>, r: nat)
    requires History(Boot(threads), acts) && r < |Then(Boot(threads), acts).rooms|
    ensures r < |Numbers(acts)| && Legal(Start(Numbers(acts)[r]), LabelsOf(Boot(threads), acts, r))
    ensures Then(Boot(threads), acts).rooms[r] == After(Start(Numbers(acts)[r]), LabelsOf(Boot(threads), acts, r))
  {
    LaterRoomRuns(Boot(threads), acts, r);
  }

  // ---------------------------------------------------------------------------------------
  // Addresses
  // ---------------------------------------------------------------------------------------

  /** The address each accepted connection came from. */
  function CameFrom(m: map<Fd, u32>, acts: seq<Action>): (n: map<Fd, u32>)
    decreases |acts|
  {
    if acts == [] then m
    else CameFrom(if acts[0].Accepted? then m[acts[0].fd := acts[0].ip] else m, acts[1..])
  }

  ghost predicate PeersRight(s: Server) {
    forall r, fd :: 0 <= r < |s.rooms| && fd in s.rooms[r].net.peer ==>
      fd in s.address && s.rooms[r].net.peer[fd] == s.address[fd]
  }

  lemma {:induction false} PeersRightStep(s: Server, a: Action)
    requires PeersRight(s) && Can(s, a)
    ensures PeersRight(Do(s, a))
    ensures Do(s, a).address == if a.Accepted? then s.address[a.fd := a.ip] else s.address
  {
    if a.InRoom? {
      PeersStay(s.rooms[a.r], a.l);
    }
  }

  lemma {:induction false} PeersRightRun(s: Server, acts: seq<Action>)
    requires PeersRight(s) && History(s, acts)
    ensures PeersRight(Then(s, acts)) && Then(s, acts).address == CameFrom(s.address, acts)
    decreases |acts|
  {
    if acts != [] {
      PeersRightStep(s, acts[0]);
      PeersRightRun(Do(s, acts[0]), acts[1..]);
    }
  }

  /** In every history the address a room has for a connection is the one the connection came from. */
  lemma {:induction false} AddressesAreRight(threads: nat, acts: seq<Action>, r: nat, fd: Fd)
    requires History(Boot(threads), acts)
    requires r < |Then(Boot(threads), acts).rooms| && fd in Then(Boot(threads), acts).rooms[r].net.peer
    ensures fd in CameFrom(map[], acts)
    ensures Then(Boot(threads), acts).rooms[r].net.peer[fd] == CameFrom(map[], acts)[fd]
  {
    PeersRightRun(Boot(threads), acts);
  }
}
