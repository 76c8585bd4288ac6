/** From a meeting's number to the meeting: which room a connection is handed to, told from the actions of a
    history. */
module Directory {
  import opened Wire
  import opened NetMsg
  import opened Pool
  import opened Room
  import opened Membership
  import opened Handles
  import opened Server
  import Handshake

  // ---------------------------------------------------------------------------------------
  // What the actions say
  // ---------------------------------------------------------------------------------------

  /** The number that acceptor `t` last asked for, or made a room under, for its present connection. */
  function Asked(n: Option<u32>, acts: seq<Action>, t: nat): (m: Option<u32>)
    decreases |acts|
  {
    if acts == [] then n else Asked(AskedBy(n, acts[0], t), acts[1..], t)
  }

  function AskedBy(n: Option<u32>, a: Action, t: nat): (m: Option<u32>) {
    match a
    case Accepted(u, fd, ip) => if u == t then None else n
    case LookUp(u, id) => if u == t then Some(id) else n
    case CreateRoom(u, id) => if u == t then Some(id) else n
    case _ => n
  }

  /** The numbers under which rooms were made, in order. */
  function Numbers(acts: seq<Action>): (ids: seq<u32>) {
    if acts == [] then []
    else (if acts[0].CreateRoom? then [acts[0].id] else []) + Numbers(acts[1..])
  }

  // ---------------------------------------------------------------------------------------
  // Rooms keep their numbers
  // ---------------------------------------------------------------------------------------

  function RoomNumbers(rooms: seq<Room>): (ids: seq<u32>)
    ensures |ids| == |rooms|
  {
    seq(|rooms|, r requires 0 <= r < |rooms| => rooms[r].roomId)
  }

  lemma {:induction false} NumberStays(s: Room, l: Label)
    requires Enabled(s, l)
    ensures Step(s, l).roomId == s.roomId
  {
    match l
    case Outside(o) =>
    case Accept(a) => assert AcceptNext(s, a).roomId == s.roomId;
    case RoomThread(r) => assert RoomNext(s, r).roomId == s.roomId;
    case Sender(i, d) =>
  }

  lemma {:induction false} NumbersStep(s: Server, a: Action)
    requires Can(s, a)
    ensures RoomNumbers(Do(s, a).rooms) == RoomNumbers(s.rooms) + (if a.CreateRoom? then [a.id] else [])
  {
    if a.InRoom? {
      NumberStays(s.rooms[a.r], a.l);
    }
  }

  lemma {:induction false} NumbersRun(s: Server, acts: seq<Action>)
    requires History(s, acts)
    ensures RoomNumbers(Then(s, acts).rooms) == RoomNumbers(s.rooms) + Numbers(acts)
    decreases |acts|
  {
    if acts == [] {
      assert RoomNumbers(s.rooms) + [] == RoomNumbers(s.rooms);
    } else {
      NumbersStep(s, acts[0]);
      NumbersRun(Do(s, acts[0]), acts[1..]);
      var one := if acts[0].CreateRoom? then [acts[0].id] else [];
      assert RoomNumbers(s.rooms) + one + Numbers(acts[1..]) == RoomNumbers(s.rooms) + (one + Numbers(acts[1..]));
    }
  }

  // ---------------------------------------------------------------------------------------
  // The room that was asked for
  // ---------------------------------------------------------------------------------------

  predicate HasNumber(ids: seq<u32>, r: nat, id: u32) {
    r < |ids| && ids[r] == id
  }

  /** The table leads to rooms of the right number. */
  ghost predicate TableRight(s: Server) {
    forall id :: id in s.table ==> HasNumber(RoomNumbers(s.rooms), s.table[id], id)
  }

  function RoomOf(a: Acceptor): (r: Option<nat>) {
    match a
    case Created(_, r) => Some(r)
    case Found(_, r) => Some(r)
    case Admissible(_, r) => Some(r)
    case _ => None
  }

  /** The room an acceptor has in mind is one of the number it asked for. */
  predicate MindRight(s: Server, t: nat, n: Option<u32>) {
    t < |s.acceptors| && RoomOf(s.acceptors[t]).Some? ==>
      n.Some? && HasNumber(RoomNumbers(s.rooms), RoomOf(s.acceptors[t]).value, n.value)
  }

  lemma {:induction false} TableStep(s: Server, a: Action)
    requires TableRight(s) && Can(s, a)
    ensures TableRight(Do(s, a))
  {
    NumbersStep(s, a);
  }

  lemma {:induction false} MindStep(s: Server, a: Action, t: nat, n: Option<u32>)
    requires TableRight(s) && MindRight(s, t, n) && Can(s, a)
    ensures MindRight(Do(s, a), t, AskedBy(n, a, t))
  {
    NumbersStep(s, a);
    match a
    case InRoom(r, l) => assert Do(s, a).acceptors == s.acceptors;
    case _ =>
  }

  lemma {:induction false} RightRun(s: Server, acts: seq<Action>, t: nat, n: Option<u32>)
    requires TableRight(s) && MindRight(s, t, n) && History(s, acts)
    ensures TableRight(Then(s, acts)) && MindRight(Then(s, acts), t, Asked(n, acts, t))
    decreases |acts|
  {
    if acts != [] {
      TableStep(s, acts[0]);
      MindStep(s, acts[0], t, n);
      RightRun(Do(s, acts[0]), acts[1..], t, AskedBy(n, acts[0], t));
    }
  }

  /** Room `r` has the connection, and under which number it was made. */
  ghost predicate HandedTo(s: Server, fd: Fd, id: u32) {
    exists r :: 0 <= r < |s.rooms| && fd in s.rooms[r].net.peer && s.rooms[r].roomId == id
  }

  /** In every history a connection that is handed over, to join or to create, goes to a room made under the
      number its acceptor last asked for or created, and to no other. */
  lemma {:induction false} HandedToTheRightRoom(threads: nat, acts: seq<Action>, t: nat, joiner: bool)
    requires History(Boot(threads), acts)
    requires Can(Then(Boot(threads), acts), if joiner then HandOverJoiner(t) else HandOverCreator(t))
    ensures var s := Then(Boot(threads), acts);
            var n := Do(s, if joiner then HandOverJoiner(t) else HandOverCreator(t));
            var fd := s.acceptors[t].fd;
            && Asked(None, acts, t).Some? && HandedTo(n, fd, Asked(None, acts, t).value)
            && (forall q, r :: 0 <= q < r < |n.rooms| ==> !(fd in n.rooms[q].net.peer && fd in n.rooms[r].net.peer))
  {
    var s := Then(Boot(threads), acts);
    OnePlaceRun(Boot(threads), acts);
    RightRun(Boot(threads), acts, t, None);
    RoomTakesOver(s, t, joiner);
    HandOverKeeps(s, t, joiner);
    var a := if joiner then HandOverJoiner(t) else HandOverCreator(t);
    NumbersStep(s, a);
    var n := Do(s, a);
    var r, fd := s.acceptors[t].room, s.acceptors[t].fd;
    assert RoomNumbers(n.rooms)[r] == n.rooms[r].roomId;
    assert fd in n.rooms[r].net.peer.Keys;
    forall p, q | 0 <= p < q < |n.rooms| ensures !(fd in n.rooms[p].net.peer && fd in n.rooms[q].net.peer) {
      assert n.rooms[p].net.peer.Keys !! n.rooms[q].net.peer.Keys;
    }
  }

  // ---------------------------------------------------------------------------------------
  // With distinct numbers a look-up finds exactly the rooms that are there
  // ---------------------------------------------------------------------------------------

  predicate Distinct(ids: seq<u32>) {
    forall q, r :: 0 <= q < r < |ids| ==> ids[q] != ids[r]
  }

  /** The table holds the rooms that were made and not erased, and nothing else. */
  ghost predicate TableFull(ids: seq<u32>, table: map<u32, nat>, erased: set<nat>) {
    && (forall r :: 0 <= r < |ids| && r !in erased ==> ids[r] in table && table[ids[r]] == r)
    && (forall id :: id in table ==> HasNumber(ids, table[id], id) && table[id] !in erased)
    && (forall r :: r in erased ==> r < |ids|)
  }

  function ErasedBy(e: set<nat>, a: Action): (d: set<nat>) {
    if a.EraseRoom? then e + {a.r} else e
  }

  function Erased(e: set<nat>, acts: seq<Action>): (d: set<nat>)
    decreases |acts|
  {
    if acts == [] then e else Erased(ErasedBy(e, acts[0]), acts[1..])
  }

  lemma {:induction false} FullErase(ids: seq<u32>, table: map<u32, nat>, e: set<nat>, r: nat)
    requires TableFull(ids, table, e) && Distinct(ids) && r < |ids|
    ensures TableFull(ids, table - {ids[r]}, e + {r})
  {
  }

  lemma {:induction false} FullCreate(ids: seq<u32>, table: map<u32, nat>, e: set<nat>, id: u32)
    requires TableFull(ids, table, e) && Distinct(ids + [id])
    ensures TableFull(ids + [id], table[id := |ids|], e)
  {
    var more := ids + [id];
    forall r | 0 <= r < |ids| ensures more[r] == ids[r] && ids[r] != id {
      assert more[r] != more[|ids|];
    }
  }

  lemma {:induction false} FullStep(s: Server, e: set<nat>, a: Action)
    requires TableFull(RoomNumbers(s.rooms), s.table, e) && Can(s, a) && Distinct(RoomNumbers(Do(s, a).rooms))
    ensures TableFull(RoomNumbers(Do(s, a).rooms), Do(s, a).table, ErasedBy(e, a))
  {
    var ids := RoomNumbers(s.rooms);
    NumbersStep(s, a);
    match a
    case CreateRoom(t, id) => FullCreate(ids, s.table, e, id);
    case EraseRoom(r) => FullErase(ids, s.table, e, r);
    case _ =>
      assert ids + [] == ids;
      assert Do(s, a).table == s.table;
  }

  lemma {:induction false} FullRun(s: Server, e: set<nat>, acts: seq<Action>)
    requires TableFull(RoomNumbers(s.rooms), s.table, e) && History(s, acts)
    requires Distinct(RoomNumbers(s.rooms) + Numbers(acts))
    ensures TableFull(RoomNumbers(Then(s, acts).rooms), Then(s, acts).table, Erased(e, acts))
    decreases |acts|
  {
    if acts != [] {
      var one := if acts[0].CreateRoom? then [acts[0].id] else [];
      assert RoomNumbers(s.rooms) + Numbers(acts) == RoomNumbers(s.rooms) + one + Numbers(acts[1..]);
      NumbersStep(s, acts[0]);
      DistinctFront(RoomNumbers(s.rooms) + one, Numbers(acts[1..]));
      FullStep(s, e, acts[0]);
      FullRun(Do(s, acts[0]), ErasedBy(e, acts[0]), acts[1..]);
    }
  }

  lemma DistinctFront(a: seq<u32>, b: seq<u32>)
    requires Distinct(a + b)
    ensures Distinct(a)
  {
    assert forall q :: 0 <= q < |a| ==> a[q] == (a + b)[q];
  }

  /** Where no number was given twice, a look-up finds the r-th room made if that room has not been erased
      and was made under the number asked for; and if there is none, nothing happens. */
  lemma {:induction false} LookUpFinds(threads: nat, acts: seq<Action>, t: nat, id: u32, r: nat)
    requires History(Boot(threads), acts) && Can(Then(Boot(threads), acts), LookUp(t, id)) && Distinct(Numbers(acts))
    ensures var s := Then(Boot(threads), acts);
            var n := Do(s, LookUp(t, id));
            && (n.acceptors[t] == Found(s.acceptors[t].fd, r) <==>
                  HasNumber(Numbers(acts), r, id) && r !in Erased({}, acts))
            && ((forall q: nat :: HasNumber(Numbers(acts), q, id) ==> q in Erased({}, acts)) ==> n == s)
  {
    var s := Then(Boot(threads), acts);
    assert RoomNumbers(Boot(threads).rooms) == [];
    assert [] + Numbers(acts) == Numbers(acts);
    NumbersRun(Boot(threads), acts);
    FullRun(Boot(threads), {}, acts);
    if id in s.table {
      assert HasNumber(Numbers(acts), s.table[id], id);
    }
  }

  // ---------------------------------------------------------------------------------------
  // Who is let in
  // ---------------------------------------------------------------------------------------

  /** A room as the request loop sees it. */
  function Seen(s: Server): (table: map<u32, Handshake.RoomInfo>) {
    map id | id in s.table && s.table[id] < |s.rooms| ::
      Handshake.RoomInfo(s.rooms[s.table[id]].pool.on, s.rooms[s.table[id]].pool.num)
  }

  lemma {:induction false} TableInside(threads: nat, acts: seq<Action>)
    requires History(Boot(threads), acts)
    ensures var s := Then(Boot(threads), acts); forall id :: id in s.table ==> s.table[id] < |s.rooms|
  {
    RightRun(Boot(threads), acts, 0, None);
    var s := Then(Boot(threads), acts);
    forall id | id in s.table ensures s.table[id] < |s.rooms| {
      assert HasNumber(RoomNumbers(s.rooms), s.table[id], id);
    }
  }

  /** A joiner passes the check exactly if the room is open and has fewer than 1024 members at that moment;
      otherwise its acceptor goes on talking to it. */
  lemma {:induction false} CheckExact(threads: nat, acts: seq<Action>, t: nat)
    requires History(Boot(threads), acts) && Can(Then(Boot(threads), acts), CheckRoom(t))
    ensures var s := Then(Boot(threads), acts);
            var h := s.acceptors[t];
            var room := s.rooms[h.room].pool;
            Do(s, CheckRoom(t)).acceptors[t]
              == if room.on && |room.activeFds| < 1024 then Admissible(h.fd, h.room) else Talking(h.fd)
  {
    OnePlaceRun(Boot(threads), acts);
    assert Inv(Then(Boot(threads), acts).rooms[Then(Boot(threads), acts).acceptors[t].room]);
  }

  /** The branch that the request loop takes is the one the threads take: no room of that number, a room
      that is closed or full, or a room that lets the connection in. */
  lemma {:induction false} BranchIsTheServers(threads: nat, acts: seq<Action>, t: nat, id: u32)
    requires History(Boot(threads), acts) && Can(Then(Boot(threads), acts), LookUp(t, id))
    ensures var s := Then(Boot(threads), acts);
            var found := Do(s, LookUp(t, id));
            match Handshake.Decide(Seen(s), id)
            case NoSuchRoom => found == s
            case Refused =>
              && Can(found, CheckRoom(t))
              && Do(found, CheckRoom(t)).acceptors[t] == Talking(s.acceptors[t].fd)
            case LetIn =>
              && Can(found, CheckRoom(t))
              && Do(found, CheckRoom(t)).acceptors[t].Admissible?
              && Do(found, CheckRoom(t)).acceptors[t].fd == s.acceptors[t].fd
  {
    TableInside(threads, acts);
  }

  // ---------------------------------------------------------------------------------------
  // No connection is lost
  // ---------------------------------------------------------------------------------------

  /** The connections accepted in a history, and those hung up on. */
  function AcceptedIn(acts: seq<Action>): (fds: set<Fd>) {
    if acts == [] then {} else (if acts[0].Accepted? then {acts[0].fd} else {}) + AcceptedIn(acts[1..])
  }

  function HungUp(e: set<Fd>, s: Server, acts: seq<Action>): (d: set<Fd>)
    requires History(s, acts)
    decreases |acts|
  {
    if acts == [] then e
    else HungUp(e + (if acts[0].HangUp? then {s.acceptors[acts[0].t].fd} else {}), Do(s, acts[0]), acts[1..])
  }

  predicate HeldBySomeone(s: Server, fd: Fd) {
    exists t :: 0 <= t < |s.acceptors| && Held(s.acceptors[t]) == Some(fd)
  }

  predicate InSomeRoom(s: Server, fd: Fd) {
    exists r :: 0 <= r < |s.rooms| && fd in s.rooms[r].net.peer
  }

  predicate Somewhere(s: Server, e: set<Fd>, fd: Fd) {
    HeldBySomeone(s, fd) || InSomeRoom(s, fd) || fd in e
  }

  lemma {:induction false} SomewhereStep(s: Server, e: set<Fd>, a: Action, fd: Fd)
    requires OnePlace(s) && Can(s, a) && (Somewhere(s, e, fd) || (a.Accepted? && a.fd == fd))
    ensures Somewhere(Do(s, a), e + (if a.HangUp? then {s.acceptors[a.t].fd} else {}), fd)
  {
    var n := Do(s, a);
    if InSomeRoom(s, fd) {
      var r :| 0 <= r < |s.rooms| && fd in s.rooms[r].net.peer;
      RoomKeepsPeers(s, a, r);
      assert fd in n.rooms[r].net.peer;
    } else if HeldBySomeone(s, fd) {
      var t :| 0 <= t < |s.acceptors| && Held(s.acceptors[t]) == Some(fd);
      HeldGoesOn(s, e, a, t, fd);
    } else if a.Accepted? && a.fd == fd {
      assert Held(n.acceptors[a.t]) == Some(fd);
    }
  }

  lemma {:induction false} RoomKeepsPeers(s: Server, a: Action, r: nat)
    requires Can(s, a) && r < |s.rooms|
    ensures r < |Do(s, a).rooms| && s.rooms[r].net.peer.Keys <= Do(s, a).rooms[r].net.peer.Keys
  {
    if a.InRoom? {
      PeersStay(s.rooms[a.r], a.l);
    }
  }

  lemma {:induction false} HeldGoesOn(s: Server, e: set<Fd>, a: Action, t: nat, fd: Fd)
    requires Can(s, a) && t < |s.acceptors| && Held(s.acceptors[t]) == Some(fd)
    ensures Somewhere(Do(s, a), e + (if a.HangUp? then {s.acceptors[a.t].fd} else {}), fd)
  {
    var n := Do(s, a);
    if (a.HandOverCreator? || a.HandOverJoiner?) && a.t == t {
      var r := s.acceptors[t].room;
      assert fd in n.rooms[r].net.peer;
    } else if !(a.HangUp? && a.t == t) {
      assert Held(n.acceptors[t]) == Some(fd);
    }
  }

  lemma {:induction false} SomewhereRun(s: Server, e: set<Fd>, acts: seq<Action>, fd: Fd)
    requires OnePlace(s) && History(s, acts) && (Somewhere(s, e, fd) || fd in AcceptedIn(acts))
    ensures Somewhere(Then(s, acts), HungUp(e, s, acts), fd)
    decreases |acts|
  {
    if acts != [] {
      var a := acts[0];
      var d := e + (if a.HangUp? then {s.acceptors[a.t].fd} else {});
      if Somewhere(s, e, fd) || (a.Accepted? && a.fd == fd) {
        SomewhereStep(s, e, a, fd);
      }
      OnePlaceStep(s, a);
      SomewhereRun(Do(s, a), d, acts[1..], fd);
    }
  }

  /** In every history each connection that was accepted is with an acceptor, was handed to a room, or was
      hung up on. */
  lemma {:induction false} NoConnectionIsLost(threads: nat, acts: seq<Action>, fd: Fd)
    requires History(Boot(threads), acts) && fd in AcceptedIn(acts)
    ensures Somewhere(Then(Boot(threads), acts), HungUp({}, Boot(threads), acts), fd)
  {
    SomewhereRun(Boot(threads), {}, acts, fd);
  }
}
