/** When the members of a room show exactly each other: the two conditions of the roster theorems, each
    shown to be exact over all runs. */
module Exactness {
  import opened NetMsg
  import opened Wire
  import opened Room
  import opened GhostRuns
  import Roster
  import Ghosts

  /** An open room with nothing on its way and no exit half done, one connection per address. */
  ghost predicate Settled(t: Room) {
    t.pool.on && Roster.Quiescent(t) && Ghosts.Leaving(t.room) == {} && Roster.UniqueIps(t.net.peer)
  }

  // ---------------------------------------------------------------------------------------
  // Ghosts
  // ---------------------------------------------------------------------------------------

  ghost predicate NobodyTooMany(t: Room) {
    Settled(t) ==> forall a :: a in t.pool.activeFds ==> Partners(t.net, a) <= Ghosts.OtherIps(t, a)
  }

  ghost predicate JustTheOthers(t: Room) {
    Settled(t) ==> forall a :: a in t.pool.activeFds ==> Partners(t.net, a) == Ghosts.OtherIps(t, a)
  }

  /** Whoever creates the room, wherever, in every run on the schedule. */
  ghost predicate NoGhosts(roomId: u32, r: Rule) {
    forall creator, ip, ls :: OpenedRun(roomId, r, creator, ip, ls) ==> NobodyTooMany(EndOf(roomId, creator, ip, ls))
  }

  ghost predicate AlwaysExact(roomId: u32, r: Rule) {
    forall creator, ip, ls :: OpenedRun(roomId, r, creator, ip, ls) ==> JustTheOthers(EndOf(roomId, creator, ip, ls))
  }

  predicate OpenedRun(roomId: u32, r: Rule, creator: Fd, ip: u32, ls: seq<Label>) {
    creator > 0 && Legal(Opened(roomId, creator, ip), ls) && RunBy(r, Opened(roomId, creator, ip), ls)
  }

  function EndOf(roomId: u32, creator: Fd, ip: u32, ls: seq<Label>): (t: Room)
    requires creator > 0 && Legal(Opened(roomId, creator, ip), ls)
  {
    After(Opened(roomId, creator, ip), ls)
  }

  lemma {:induction false} CalmestIsCalm(s: Room, ls: seq<Label>)
    requires RunBy(Schedule(1, true), s, ls)
    ensures Ghosts.CalmRun(s, ls)
    decreases |ls|
  {
    if ls != [] {
      CalmestIsCalm(Step(s, ls[0]), ls[1..]);
    }
  }

  lemma {:induction false} CalmEnds(roomId: u32, creator: Fd, ip: u32, ls: seq<Label>)
    requires OpenedRun(roomId, Schedule(1, true), creator, ip, ls)
    ensures JustTheOthers(EndOf(roomId, creator, ip, ls))
  {
    CalmestIsCalm(Opened(roomId, creator, ip), ls);
    var t := EndOf(roomId, creator, ip, ls);
    if Settled(t) {
      forall a | a in t.pool.activeFds ensures Partners(t.net, a) == Ghosts.OtherIps(t, a) {
        Ghosts.RosterAtRest(roomId, creator, ip, ls, a);
      }
    }
  }

  /** The exact schedule. With the first `senders` senders, at rest and with unique addresses, nobody
      shows somebody who has left, and everybody shows exactly the others, in every run, if and only if
      there is one sender and no member is evicted in the middle of a join. */
  lemma {:induction false} GhostsExact(roomId: u32, r: Rule)
    ensures NoGhosts(roomId, r) <==> r.senders == 1 && r.atomic
    ensures AlwaysExact(roomId, r) <==> r.senders == 1 && r.atomic
  {
    if r.senders == 1 && r.atomic {
      forall creator, ip, ls | OpenedRun(roomId, r, creator, ip, ls)
        ensures NobodyTooMany(EndOf(roomId, creator, ip, ls)) && JustTheOthers(EndOf(roomId, creator, ip, ls))
      {
        CalmEnds(roomId, creator, ip, ls);
      }
    } else {
      Haunted(roomId, r);
    }
  }

  lemma {:induction false} Haunted(roomId: u32, r: Rule)
    requires r.senders >= 2 || !r.atomic
    ensures !NoGhosts(roomId, r) && !AlwaysExact(roomId, r)
  {
    if r.atomic {
      OvertakingSenders(r, roomId);
    } else {
      EvictionInsideJoin(r, roomId);
    }
    var t :| Reaches(r, Begin(roomId), t) && HauntedAtRest(t);
    var ls :| RunBy(r, Begin(roomId), ls) && Legal(Begin(roomId), ls) && After(Begin(roomId), ls) == t;
    assert OpenedRun(roomId, r, HOST, HOST_IP, ls) && EndOf(roomId, HOST, HOST_IP, ls) == t;
    assert HOST in t.pool.activeFds;
    assert Settled(t);
  }

  // ---------------------------------------------------------------------------------------
  // Omissions
  // ---------------------------------------------------------------------------------------

  ghost predicate NobodyTooFew(t: Room) {
    Settled(t) ==>
      forall a, b :: a in t.pool.activeFds && b in t.pool.activeFds && a != b ==> Peer(t, b) in Partners(t.net, a)
  }

  predicate StartedRun(roomId: u32, r: Rule, ls: seq<Label>) {
    Legal(Start(roomId), ls) && RunBy(r, Start(roomId), ls)
  }

  /** In every run on the schedule in which at most `n` connections are admitted before the creator. */
  ghost predicate NoOmissions(roomId: u32, r: Rule, n: nat) {
    forall ls :: StartedRun(roomId, r, ls) && |After(Start(roomId), ls).past.early| <= n ==>
      NobodyTooFew(After(Start(roomId), ls))
  }

  lemma {:induction false} CreatorFirstEnds(roomId: u32, ls: seq<Label>)
    requires Legal(Start(roomId), ls) && After(Start(roomId), ls).past.early == {}
    ensures NobodyTooFew(After(Start(roomId), ls))
  {
    var t := After(Start(roomId), ls);
    if Settled(t) {
      forall a, b | a in t.pool.activeFds && b in t.pool.activeFds && a != b
        ensures Peer(t, b) in Partners(t.net, a)
      {
        Roster.NobodyIsMissing(roomId, ls, a, b);
      }
    }
  }

  /** The exact order of admission. On any schedule, at rest and with unique addresses, everybody shows
      everybody else, in every run with at most `n` members from before the creator, if and only if `n`
      is 0. */
  lemma {:induction false} OmissionsExact(roomId: u32, r: Rule, n: nat)
    ensures NoOmissions(roomId, r, n) <==> n == 0
  {
    if n == 0 {
      forall ls | StartedRun(roomId, r, ls) && |After(Start(roomId), ls).past.early| <= n
        ensures NobodyTooFew(After(Start(roomId), ls))
      {
        CreatorFirstEnds(roomId, ls);
      }
    } else {
      Omitted(roomId, r, n);
    }
  }

  lemma {:induction false} Omitted(roomId: u32, r: Rule, n: nat)
    requires n > 0
    ensures !NoOmissions(roomId, r, n)
  {
    EarlyGuestIsMissed(r, roomId);
    var c := Crowded(roomId);
    var t :| Reaches(r, c, t) && MissingAtRest(t);
    var ls :| RunBy(r, c, ls) && Legal(c, ls) && After(c, ls) == t;
    var all := HandOvers(roomId, r, ls);
    TooFew(t);
  }

  lemma {:induction false} TooFew(t: Room)
    requires MissingAtRest(t)
    ensures !NobodyTooFew(t) && |t.past.early| == 1
  {
    assert t.past.early == {GUEST};
    assert HOST in t.pool.activeFds && GUEST in t.pool.activeFds;
    assert Settled(t);
  }

  /** A run from the crowded line is a run of the room from its start. */
  lemma {:induction false} HandOvers(roomId: u32, r: Rule, ls: seq<Label>) returns (all: seq<Label>)
    requires RunBy(r, Crowded(roomId), ls) && Legal(Crowded(roomId), ls)
    ensures StartedRun(roomId, r, all) && After(Start(roomId), all) == After(Crowded(roomId), ls)
  {
    var s := Start(roomId);
    var j, c := Outside(HandJoin(GUEST, GUEST_IP)), Outside(HandCreate(HOST, HOST_IP));
    var later := [c] + ls;
    assert later[1..] == ls;
    all := [j] + later;
    assert all[1..] == later;
    assert Step(Step(s, j), c) == Crowded(roomId);
    assert RunBy(r, Step(s, j), later) && Legal(Step(s, j), later);
  }
}
