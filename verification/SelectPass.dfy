/** One pass of the room thread over a snapshot of the members, after select named the ready ones.
    The pass counts ready sockets down and leaves early; it must not leave one out, although
    members are evicted and the room may be closed while the pass is under way. */
module SelectPass {
  import opened Wire
  import opened NetMsg
  import opened Pool
  import opened Room
  import opened Membership

  function ReadyLeft(p: Pass): (r: set<Fd>) {
    set fd | fd in p.todo && fd in p.ready
  }

  /** The count is what is left, and what is not left has been handled. */
  ghost predicate Tallied(p: Pass, current: nat) {
    && p.seen == p.ready - Elems(p.todo)
    && p.nsel == |ReadyLeft(p)| + current
    && p.nsel >= 1
  }

  ghost predicate Counting(pc: RoomPc) {
    && (pc.Selected? ==> pc.ready != {})
    && (PassOf(pc).Some? ==> Tallied(PassOf(pc).value, if pc.Passing? then 0 else 1))
  }

  lemma HeadElems(todo: seq<Fd>)
    requires todo != [] && NoDup(todo)
    ensures Elems(todo) == Elems(todo[1..]) + {todo[0]}
    ensures todo[0] !in Elems(todo[1..])
  {
    var fd := todo[0];
    assert todo == [fd] + todo[1..];
  }

  lemma LeftElems(p: Pass)
    ensures ReadyLeft(p) == Elems(p.todo) * p.ready
  {
  }

  lemma TakeHead(p: Pass)
    requires p.todo != [] && NoDup(p.todo) && Tallied(p, 0)
    ensures p.todo[0] in p.ready ==> Tallied(Rest(p), 1)
    ensures p.todo[0] !in p.ready ==> Tallied(p.(todo := p.todo[1..]), 0)
    ensures p.todo[0] !in p.seen && p.todo[0] !in Elems(p.todo[1..])
  {
    HeadElems(p.todo);
    LeftElems(p);
    LeftElems(Rest(p));
    LeftElems(p.(todo := p.todo[1..]));
    SplitSets(Elems(p.todo), Elems(p.todo[1..]), p.todo[0], p.ready);
  }

  lemma SplitSets(all: set<Fd>, rest: set<Fd>, fd: Fd, ready: set<Fd>)
    requires all == rest + {fd} && fd !in rest
    ensures fd in ready ==> |all * ready| == |rest * ready| + 1 && (ready - all) + {fd} == ready - rest
    ensures fd !in ready ==> all * ready == rest * ready && ready - all == ready - rest
  {
    if fd in ready {
      assert all * ready == rest * ready + {fd};
    }
  }

  lemma CountedOn(p: Pass)
    requires Tallied(p, 1)
    ensures Counting(Counted(p))
  {
    assert ReadyLeft(p.(nsel := p.nsel - 1)) == ReadyLeft(p);
  }

  lemma CountingStep(s: Room, l: Label)
    requires Inv(s) && Counting(s.room) && Enabled(s, l)
    ensures Counting(Step(s, l).room)
  {
    if l.RoomThread? {
      CountingRoomStep(s, l.r);
    }
  }

  lemma CountingRoomStep(s: Room, l: RoomStep)
    requires Inv(s) && Counting(s.room) && RoomEnabled(s, l)
    ensures Counting(RoomNext(s, l).room)
  {
    match l
    case TakeSnapshot => SnapshotTallied(s);
    case SkipIdle => TakeHead(s.room.pass);
    case ReadShort => TakeHead(s.room.pass); CountedOn(Rest(s.room.pass));
    case ReadBad => TakeHead(s.room.pass);
    case ReadCamera(ip) => TakeHead(s.room.pass);
    case ReadHeader(kind, len, bytes) => TakeHead(s.room.pass);
    case ClearQueue => CountedOn(s.room.pass);
    case RoomPush => CountedOn(s.room.pass);
    case _ => CountingQuiet(s, l);
  }

  lemma CountingQuiet(s: Room, l: RoomStep)
    requires Counting(s.room) && RoomEnabled(s, l)
    requires !l.TakeSnapshot? && !l.SkipIdle? && !l.ReadShort? && !l.ReadBad? && !l.ReadCamera? && !l.ReadHeader?
    requires !l.ClearQueue? && !l.RoomPush?
    ensures Counting(RoomNext(s, l).room)
  {
  }

  lemma SnapshotTallied(s: Room)
    requires Inv(s) && Counting(s.room) && RoomEnabled(s, TakeSnapshot)
    ensures Counting(RoomNext(s, TakeSnapshot).room)
  {
    var p := RoomNext(s, TakeSnapshot).room.pass;
    assert ReadyLeft(p) == p.ready;
  }

  lemma {:induction false} CountingRun(s: Room, ls: seq<Label>)
    requires Inv(s) && Counting(s.room) && Legal(s, ls)
    ensures Inv(After(s, ls)) && Counting(After(s, ls).room)
    decreases |ls|
  {
    if ls != [] {
      InvStep(s, ls[0]);
      CountingStep(s, ls[0]);
      CountingRun(Step(s, ls[0]), ls[1..]);
    }
  }

  // ---------------------------------------------------------------------------------------
  // Against the labels of the run: what select reported, and which sockets were read
  // ---------------------------------------------------------------------------------------

  // What the last select reported, and the sockets read since then.
  datatype Round = Round(reported: set<Fd>, looked: seq<Fd>)

  const NO_ROUND: Round := Round({}, [])

  predicate Reads(l: Label) {
    l.RoomThread? && (l.r.ReadShort? || l.r.ReadBad? || l.r.ReadCamera? || l.r.ReadHeader?)
  }

  function Noted(o: Round, s: Room, l: Label): (p: Round)
    requires Enabled(s, l)
  {
    if l.RoomThread? && l.r.SelectReady? then Round(l.r.ready, [])
    else if Reads(l) then o.(looked := o.looked + [s.room.pass.todo[0]])
    else o
  }

  function LastRound(o: Round, s: Room, ls: seq<Label>): (p: Round)
    requires Legal(s, ls)
    decreases |ls|
  {
    if ls == [] then o else LastRound(Noted(o, s, ls[0]), Step(s, ls[0]), ls[1..])
  }

  /** The machine's own books agree with the labels. */
  ghost predicate Booked(pc: RoomPc, o: Round) {
    && NoDup(o.looked)
    && if pc.Selected? then pc.ready == o.reported && o.looked == []
       else if PassOf(pc).Some? then
         PassOf(pc).value.ready == o.reported && PassOf(pc).value.seen == Elems(o.looked)
       else Elems(o.looked) == o.reported
  }

  lemma {:induction false} BookedStep(s: Room, o: Round, l: Label)
    requires Inv(s) && Counting(s.room) && Booked(s.room, o) && Enabled(s, l)
    ensures Booked(Step(s, l).room, Noted(o, s, l))
  {
    if l.RoomThread? {
      if Reads(l) {
        BookedRead(s, o, l.r);
      } else {
        BookedOther(s, o, l.r);
      }
    }
  }

  lemma {:induction false} BookedRead(s: Room, o: Round, r: RoomStep)
    requires Inv(s) && Counting(s.room) && Booked(s.room, o) && RoomEnabled(s, r) && Reads(RoomThread(r))
    ensures Booked(RoomNext(s, r).room, Noted(o, s, RoomThread(r)))
  {
    var p := s.room.pass;
    TakeHead(p);
    AppendElems(o.looked, p.todo[0]);
    if r.ReadShort? {
      LeaveOrGoOn(Rest(p));
    }
  }

  lemma {:induction false} BookedOther(s: Room, o: Round, r: RoomStep)
    requires Inv(s) && Counting(s.room) && Booked(s.room, o) && RoomEnabled(s, r) && !Reads(RoomThread(r))
    ensures Booked(RoomNext(s, r).room, Noted(o, s, RoomThread(r)))
  {
    match r
    case ClearQueue => LeaveOrGoOn(s.room.pass);
    case RoomPush => LeaveOrGoOn(s.room.pass);
    case _ =>
  }

  /** When the countdown reaches zero all the ready sockets have been looked at. */
  lemma {:induction false} LeaveOrGoOn(p: Pass)
    requires Tallied(p, 1)
    ensures Counted(p).Looping? ==> p.seen == p.ready
    ensures !Counted(p).Looping? ==> PassOf(Counted(p)).Some? && PassOf(Counted(p)).value == p.(nsel := p.nsel - 1)
  {
    if Counted(p).Looping? {
      assert ReadyLeft(p) == {};
      NothingLeft(p);
    }
  }

  lemma {:induction false} NothingLeft(p: Pass)
    requires p.seen == p.ready - Elems(p.todo) && ReadyLeft(p) == {}
    ensures p.seen == p.ready
  {
    LeftElems(p);
    forall fd | fd in p.ready ensures fd !in Elems(p.todo) {
      assert fd in Elems(p.todo) ==> fd in ReadyLeft(p);
    }
  }

  lemma {:induction false} BookedRun(s: Room, o: Round, ls: seq<Label>)
    requires Inv(s) && Counting(s.room) && Booked(s.room, o) && Legal(s, ls)
    ensures Booked(After(s, ls).room, LastRound(o, s, ls))
    decreases |ls|
  {
    if ls != [] {
      InvStep(s, ls[0]);
      CountingStep(s, ls[0]);
      BookedStep(s, o, ls[0]);
      BookedRun(Step(s, ls[0]), Noted(o, s, ls[0]), ls[1..]);
    }
  }

  /** In every run, whenever the room thread is between two passes, for whatever reason it left the last
      one, the sockets read since the last select are exactly those that select reported, each read
      once; and in the middle of a pass they are some of those, each read once. */
  lemma {:induction false} PassHandlesAllReady(roomId: u32, ls: seq<Label>)
    requires Legal(Start(roomId), ls)
    ensures var pc := After(Start(roomId), ls).room;
            var o := LastRound(NO_ROUND, Start(roomId), ls);
            && NoDup(o.looked) && Elems(o.looked) <= o.reported
            && (!pc.Selected? && PassOf(pc).None? ==> Elems(o.looked) == o.reported)
  {
    InvStart(roomId);
    CountingRun(Start(roomId), ls);
    BookedRun(Start(roomId), NO_ROUND, ls);
    var pc := After(Start(roomId), ls).room;
    if PassOf(pc).Some? {
      assert PassOf(pc).value.seen <= PassOf(pc).value.ready;
    }
  }

  /** Select is asked about every member while there were never more than FD_SETSIZE, and may report any
      of them; with nobody to ask about the thread goes round again. */
  lemma {:induction false} EverybodyIsAsked(roomId: u32, ls: seq<Label>, reported: set<Fd>)
    requires Legal(Start(roomId), ls) && Enabled(After(Start(roomId), ls), RoomThread(CopyFdset))
    requires After(Start(roomId), ls).past.peak <= FD_SETSIZE && After(Start(roomId), ls).pool.on
    ensures var s := After(Start(roomId), ls);
            var t := Step(s, RoomThread(CopyFdset));
            && (s.pool.activeFds == [] ==> t.room == Looping)
            && (s.pool.activeFds != [] ==>
                  (Enabled(t, RoomThread(SelectReady(reported))) <==> reported <= Elems(s.pool.activeFds)))
  {
    OpenRoomAlways(roomId, ls);
    var s := After(Start(roomId), ls);
    if s.pool.activeFds != [] {
      assert s.pool.activeFds[0] in Elems(s.pool.activeFds);
      assert Step(s, RoomThread(CopyFdset)).room == Selecting(Elems(s.pool.activeFds));
    } else {
      assert s.pool.fdset == {};
    }
  }

  function ReadyOf(fds: seq<Fd>, ready: set<Fd>): (r: seq<Fd>) {
    if fds == [] then [] else (if fds[0] in ready then [fds[0]] else []) + ReadyOf(fds[1..], ready)
  }

  lemma {:induction false} ReadyOfNone(fds: seq<Fd>, ready: set<Fd>)
    requires Elems(fds) * ready == {}
    ensures ReadyOf(fds, ready) == []
  {
    if fds != [] {
      var fd := fds[0];
      assert fd in Elems(fds);
      assert fd in ready ==> fd in Elems(fds) * ready;
      assert Elems(fds[1..]) <= Elems(fds);
      ReadyOfNone(fds[1..], ready);
    }
  }

  /** The loop of one pass, undisturbed: it handles the ready sockets of the snapshot, in order, and
      the early break leaves none out. */
  method VisitReady(snapshot: seq<Fd>, ready: set<Fd>) returns (handled: seq<Fd>)
    requires NoDup(snapshot) && ready <= Elems(snapshot) && ready != {}
    ensures handled == ReadyOf(snapshot, ready)
  {
    var nsel := |ready|;
    handled := [];
    var i := 0;
    assert Elems(snapshot[0..]) * ready == ready by {
      assert snapshot[0..] == snapshot;
    }
    while i < |snapshot|
      invariant 0 <= i <= |snapshot|
      invariant nsel == |Elems(snapshot[i..]) * ready|
      invariant handled + ReadyOf(snapshot[i..], ready) == ReadyOf(snapshot, ready)
    {
      var fd := snapshot[i];
      VisitOne(snapshot, ready, i, handled);
      i := i + 1;
      if fd !in ready {
        continue;
      }
      handled := handled + [fd];
      nsel := nsel - 1;
      if nsel <= 0 {
        ReadyOfNone(snapshot[i..], ready);
        assert handled + [] == handled;
        return;
      }
    }
    assert handled + [] == handled;
  }

  lemma VisitOne(snapshot: seq<Fd>, ready: set<Fd>, i: nat, handled: seq<Fd>)
    requires NoDup(snapshot) && i < |snapshot|
    ensures var now, next := Elems(snapshot[i..]) * ready, Elems(snapshot[i + 1..]) * ready;
            |now| == |next| + (if snapshot[i] in ready then 1 else 0)
    ensures handled + ReadyOf(snapshot[i..], ready)
         == (if snapshot[i] in ready then handled + [snapshot[i]] else handled) + ReadyOf(snapshot[i + 1..], ready)
  {
    var s := snapshot[i..];
    assert s[0] == snapshot[i] && s[1..] == snapshot[i + 1..];
    assert NoDup(s);
    HeadElems(s);
    SplitSets(Elems(s), Elems(s[1..]), s[0], ready);
    ReadyOfHead(s, ready, handled);
  }

  lemma ReadyOfHead(s: seq<Fd>, ready: set<Fd>, handled: seq<Fd>)
    requires s != []
    ensures handled + ReadyOf(s, ready)
         == (if s[0] in ready then handled + [s[0]] else handled) + ReadyOf(s[1..], ready)
  {
    var later := ReadyOf(s[1..], ready);
    if s[0] in ready {
      assert handled + ([s[0]] + later) == handled + [s[0]] + later;
    } else {
      assert [] + later == later;
    }
  }
}
