/** What `clear` does to the monitor: it empties the queue and notifies nobody. When that is harmless, and
    a run in which it is not. */
module Clearing {
  import opened Wakeups

  function Clear(m: Monitor): (n: Monitor) {
    m.(size := 0)
  }

  predicate BothAsleep(m: Monitor) {
    Count(m.producers, Parked) > 0 && Count(m.consumers, Parked) > 0
  }

  /** What can be checked before the call: no producer sleeps; or one does, and every consumer has
      popped and is about to notify, so that the first notification must wake that producer. */
  predicate ClearIsSafe(m: Monitor) {
    || Count(m.producers, Parked) == 0
    || (Count(m.producers, Parked) == 1 && Count(m.consumers, Owing) == |m.consumers|)
  }

  /** The second case of `ClearIsSafe`, until the sleeper is woken. */
  predicate OneLeft(m: Monitor) {
    && !m.down && |m.consumers| > 0
    && Count(m.producers, Parked) == 1 && Count(m.consumers, Owing) == |m.consumers|
    && m.size <= Count(m.producers, Owing)
  }

  lemma AllOwing(m: Monitor, j: nat)
    requires Count(m.consumers, Owing) == |m.consumers| && j < |m.consumers|
    ensures m.consumers[j] == Owing && Count(m.consumers, Parked) == 0
  {
    CountTotal(m.consumers);
    CountNone(m.consumers, Free);
    CountNone(m.consumers, Parked);
  }

  lemma OneLeftStep(m: Monitor, l: Label)
    requires OneLeft(m) && Roomy(m) && Enabled(m, l)
    ensures OneLeft(Step(m, l)) || Balanced(Step(m, l))
  {
    AllOwing(m, 0);
    match l
    case Push(i) => Moved(m.producers, i, Owing);
    case ParkProducer(i) => Moved(m.producers, i, Parked);
    case ProducerWakes(i) => Moved(m.producers, i, Free);
    case Pop(j) => AllOwing(m, j);
    case ParkConsumer(j) => AllOwing(m, j);
    case ConsumerWakes(j) => AllOwing(m, j);
    case ProducerNotifies(i, t) => OneLeftNotified(m, l);
    case ConsumerNotifies(j, t) => OneLeftNotified(m, l);
    case Shutdown(pills) =>
      CountNone(UnparkAll(m.producers), Parked);
      CountNone(UnparkAll(m.consumers), Parked);
  }

  lemma OneLeftNotified(m: Monitor, l: Label)
    requires OneLeft(m) && Roomy(m) && Enabled(m, l) && (l.ProducerNotifies? || l.ConsumerNotifies?)
    ensures Balanced(Step(m, l))
  {
    CountTotal(m.producers);
    if l.t.Consumer? {
      AllOwing(m, l.t.j);
    } else {
      AllOwing(m, 0);
      WakeCounts(m, l.t);
      if l.ProducerNotifies? {
        Moved(Wake(m, l.t).producers, l.i, Free);
      } else {
        Moved(Wake(m, l.t).consumers, l.j, Free);
      }
    }
  }

  lemma {:induction false} SafeRun(m: Monitor, ls: seq<Label>)
    requires (Balanced(m) || OneLeft(m)) && Roomy(m) && Legal(m, ls)
    ensures var n := After(m, ls); (Balanced(n) || OneLeft(n)) && Roomy(n)
    decreases |ls|
  {
    if ls != [] {
      if Balanced(m) {
        BalancedStep(m, ls[0]);
      } else {
        OneLeftStep(m, ls[0]);
        ThreadsStay(m, [ls[0]]);
      }
      SafeRun(Step(m, ls[0]), ls[1..]);
    }
  }

  lemma SafeIsNotLost(m: Monitor)
    requires (Balanced(m) || OneLeft(m)) && |m.consumers| > 0 && |m.producers| > 0
    ensures !BothAsleep(m) && !Lost(m)
  {
    CountTotal(m.producers);
    CountTotal(m.consumers);
  }

  ghost predicate CanLose(m: Monitor) {
    exists ls :: Legal(m, ls) && Lost(After(m, ls))
  }

  ghost predicate CanSleep(m: Monitor) {
    exists ls :: Legal(m, ls) && BothAsleep(After(m, ls))
  }

  lemma LoseLater(m: Monitor, l: Label)
    requires Enabled(m, l) && CanLose(Step(m, l))
    ensures CanLose(m)
  {
    var ls :| Legal(Step(m, l), ls) && Lost(After(Step(m, l), ls));
    assert ([l] + ls)[1..] == ls;
    assert Legal(m, [l] + ls) && Lost(After(m, [l] + ls));
  }

  lemma LoseNow(m: Monitor)
    requires Lost(m)
    ensures CanLose(m)
  {
    assert Legal(m, []) && Lost(After(m, []));
  }

  lemma {:induction false} Someone(ts: seq<Thread>, x: Thread) returns (i: nat)
    requires Count(ts, x) > 0
    ensures i < |ts| && ts[i] == x
  {
    if ts[0] == x {
      i := 0;
    } else {
      i := Someone(ts[1..], x);
      i := i + 1;
    }
  }

  /** A notification wasted on consumer `j`, which finds the queue empty and sleeps again. */
  lemma Wasted(m: Monitor, l: Label, j: nat) returns (n: Monitor)
    requires m.size == 0 && !m.down && Enabled(m, l) && j < |m.consumers|
    requires (l.ProducerNotifies? || l.ConsumerNotifies?) && l.t == Consumer(j)
    ensures n == Step(Step(m, l), ParkConsumer(j)) && Enabled(Step(m, l), ParkConsumer(j))
    ensures Count(n.producers, Parked) == Count(m.producers, Parked)
    ensures Count(n.consumers, Parked) == Count(m.consumers, Parked)
    ensures Count(n.producers, Owing) + Count(n.consumers, Owing)
         == Count(m.producers, Owing) + Count(m.consumers, Owing) - 1
  {
    var t := Step(m, l);
    WakeCounts(m, l.t);
    if l.ProducerNotifies? {
      Moved(m.producers, l.i, Free);
    } else {
      Moved(Wake(m, l.t).consumers, l.j, Free);
    }
    Moved(t.consumers, j, Parked);
    n := Step(t, ParkConsumer(j));
  }

  /** Once both sides sleep at an empty queue, notifications can be wasted until one is missing. */
  lemma {:induction false} SleepersLose(m: Monitor)
    requires BothAsleep(m) && m.size == 0 && m.cap > 0 && !m.down
    ensures CanLose(m)
    decreases Count(m.producers, Owing) + Count(m.consumers, Owing), Count(m.consumers, Free)
  {
    var j := Someone(m.consumers, Parked);
    if Count(m.producers, Owing) + Count(m.consumers, Owing) > 0 {
      var l: Label;
      if Count(m.producers, Owing) > 0 {
        var i := Someone(m.producers, Owing);
        l := ProducerNotifies(i, Consumer(j));
      } else {
        var k := Someone(m.consumers, Owing);
        l := ConsumerNotifies(k, Consumer(j));
      }
      var n := Wasted(m, l, j);
      SleepersLose(n);
      LoseLater(Step(m, l), ParkConsumer(j));
      LoseLater(m, l);
    } else if Count(m.consumers, Free) > 0 {
      var k := Someone(m.consumers, Free);
      Moved(m.consumers, k, Parked);
      CountUpdate(m.consumers, k, Parked, Free);
      SleepersLose(Step(m, ParkConsumer(k)));
      LoseLater(m, ParkConsumer(k));
    } else {
      LastPush(m);
    }
  }

  /** All the consumers sleep. A producer that is still awake pushes, and wakes the producer that
      sleeps. */
  lemma LastPush(m: Monitor)
    requires BothAsleep(m) && m.size == 0 && m.cap > 0 && !m.down
    requires Count(m.producers, Owing) == Count(m.consumers, Owing) == Count(m.consumers, Free) == 0
    ensures CanLose(m)
  {
    CountTotal(m.consumers);
    CountTotal(m.producers);
    if Count(m.producers, Free) == 0 {
      LoseNow(m);
    } else {
      var k := Someone(m.producers, Free);
      var i := Someone(m.producers, Parked);
      var t := Step(m, Push(k));
      Moved(m.producers, k, Owing);
      var l := ProducerNotifies(k, Producer(i));
      WakeCounts(t, l.t);
      Moved(Wake(t, l.t).producers, k, Free);
      LoseNow(Step(t, l));
      LoseLater(t, l);
      LoseLater(m, Push(k));
    }
  }

  /** Where `ClearIsSafe` fails: at most one notification, and a consumer goes to sleep beside a
      producer. */
  lemma ClearSleeps(m: Monitor)
    requires Balanced(m) && !ClearIsSafe(m) && |m.consumers| > 0
    ensures exists n :: Reaches(Clear(m), n) && BothAsleep(n) && n.size == 0 && n.cap == m.cap && !n.down
  {
    var c := Clear(m);
    CountTotal(m.consumers);
    assert Legal(c, []) && After(c, []) == c;
    var n, j := c, 0;
    if Count(m.consumers, Free) > 0 {
      j := Someone(m.consumers, Free);
    } else {
      j := Someone(m.consumers, Owing);
      var i := Someone(m.producers, Parked);
      var l := ConsumerNotifies(j, Producer(i));
      Extend(c, c, l);
      n := Step(c, l);
      WakeCounts(c, l.t);
    }
    Moved(n.consumers, j, Parked);
    Extend(c, n, ParkConsumer(j));
    assert BothAsleep(Step(n, ParkConsumer(j)));
  }

  /** The exact condition. Of a queue that never loses a wakeup otherwise: no run after the clear
      puts both sides to sleep, and none loses a wakeup, if and only if at the clear no producer
      slept, or one did and every consumer was about to notify. */
  lemma ClearExact(cap: nat, p: nat, c: nat, before: seq<Label>)
    requires p >= 1 && c >= 1 && cap >= 1 && cap + 1 >= p + c
    requires Legal(Start(cap, p, c), before)
    ensures var m := After(Start(cap, p, c), before);
            && (!CanSleep(Clear(m)) <==> ClearIsSafe(m))
            && (!CanLose(Clear(m)) <==> ClearIsSafe(m))
  {
    var s := Start(cap, p, c);
    var m := After(s, before);
    StartBalanced(cap, p, c);
    BalancedRun(s, before);
    ThreadsStay(s, before);
    if ClearIsSafe(m) {
      ClearKeeps(m);
      forall ls | Legal(Clear(m), ls) ensures !BothAsleep(After(Clear(m), ls)) && !Lost(After(Clear(m), ls)) {
        SafeRun(Clear(m), ls);
        ThreadsStay(Clear(m), ls);
        SafeIsNotLost(After(Clear(m), ls));
      }
    } else {
      ClearSleeps(m);
      var n :| Reaches(Clear(m), n) && BothAsleep(n) && n.size == 0 && n.cap == m.cap && !n.down;
      var ls :| Legal(Clear(m), ls) && After(Clear(m), ls) == n;
      assert BothAsleep(After(Clear(m), ls));
      SleepersLose(n);
      LoseAfter(Clear(m), ls);
    }
  }

  lemma ClearKeeps(m: Monitor)
    requires Balanced(m) && Roomy(m) && ClearIsSafe(m) && |m.consumers| > 0
    ensures (Balanced(Clear(m)) || OneLeft(Clear(m))) && Roomy(Clear(m))
  {
    CountTotal(m.producers);
    CountTotal(m.consumers);
  }

  lemma {:induction false} LoseAfter(m: Monitor, ls: seq<Label>)
    requires Legal(m, ls) && CanLose(After(m, ls))
    ensures CanLose(m)
    decreases |ls|
  {
    if ls != [] {
      LoseAfter(Step(m, ls[0]), ls[1..]);
      LoseLater(m, ls[0]);
    }
  }

  /** Everybody but producer 0 sleeps at an empty queue. */
  predicate Stranded(m: Monitor) {
    && m.size == 0 && m.cap > 0 && !m.down && m.producers == [Free, Parked]
    && Count(m.consumers, Parked) == |m.consumers|
  }

  lemma {:induction false} PushesAlone(s: Monitor, k: nat)
    requires s == Start(s.cap, |s.producers|, |s.consumers|) && |s.producers| > 0 && k <= s.cap
    ensures Reaches(s, s.(size := k))
  {
    if k == 0 {
      assert Legal(s, []) && After(s, []) == s;
    } else {
      PushesAlone(s, k - 1);
      var o := s.(size := k - 1);
      CountNone(s.producers, Parked);
      CountNone(s.consumers, Parked);
      Extend(s, o, Push(0));
      var w := Step(o, Push(0));
      CountNone(w.producers, Parked);
      Extend(s, w, ProducerNotifies(0, NoOne));
      assert w.producers[0 := Free] == s.producers;
    }
  }

  /** With two producers, one of which clears the queue, and any capacity: there is a run after which
      the other one sleeps at an empty queue and no notification is owed. */
  lemma ClearStrands(cap: nat, c: nat)
    requires cap > 0
    ensures exists m :: Reaches(Start(cap, 2, c), m) && m.producers == [Free, Parked]
                        && exists n :: Reaches(Clear(m), n) && Stranded(n)
  {
    var s := Start(cap, 2, c);
    PushesAlone(s, cap);
    var full := s.(size := cap);
    Extend(s, full, ParkProducer(1));
    var m := Step(full, ParkProducer(1));
    AllConsumersPark(Clear(m), c);
    var n := Clear(m).(consumers := Split(c, c, Parked, Free));
    CountAll(n.consumers, Parked);
    assert Reaches(Clear(m), n) && Stranded(n);
  }

  /** Unless producer 0 pushes again, only a spurious wakeup or the shutdown ends that. */
  lemma StrandedIsStuck(m: Monitor, l: Label)
    requires Stranded(m) && Enabled(m, l)
    ensures l == Push(0) || l.ProducerWakes? || l.ConsumerWakes? || l.Shutdown?
  {
    CountTotal(m.consumers);
    CountNone(m.consumers, Free);
    CountNone(m.consumers, Owing);
  }
}
