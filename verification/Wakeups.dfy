/** SEND_QUEUE and QUEUE_DATA as monitors: one mutex, one condition variable that stands for both
    "not full" and "not empty", and one notification per push or pop, issued after the unlock.

    A critical section is one step. A notification wakes any one parked thread, a producer or a
    consumer, of the scheduler's choice; a parked thread may also wake for no reason (or, in the
    client, because its wait timed out). */
module Wakeups {
  datatype Thread =
    | Free      // outside, or woken and about to test its condition again
    | Parked    // inside cond.wait
    | Owing     // has pushed or popped and unlocked, and has not called notify_one yet

  datatype Monitor = Monitor(cap: nat, size: nat, down: bool, producers: seq<Thread>, consumers: seq<Thread>)

  datatype Target = NoOne | Producer(i: nat) | Consumer(j: nat)

  datatype Label =
    | Push(i: nat) | ParkProducer(i: nat) | ProducerNotifies(i: nat, t: Target) | ProducerWakes(i: nat)
    | Pop(j: nat) | ParkConsumer(j: nat) | ConsumerNotifies(j: nat, t: Target) | ConsumerWakes(j: nat)
    | Shutdown(pills: nat)

  function Count(ts: seq<Thread>, x: Thread): (n: nat) {
    if ts == [] then 0 else (if ts[0] == x then 1 else 0) + Count(ts[1..], x)
  }

  function Is(t: Thread, x: Thread): (n: nat) {
    if t == x then 1 else 0
  }

  predicate CanWake(m: Monitor, t: Target) {
    match t
    case NoOne => Count(m.producers, Parked) == 0 && Count(m.consumers, Parked) == 0
    case Producer(i) => i < |m.producers| && m.producers[i] == Parked
    case Consumer(j) => j < |m.consumers| && m.consumers[j] == Parked
  }

  function Wake(m: Monitor, t: Target): (n: Monitor)
    requires CanWake(m, t)
  {
    match t
    case NoOne => m
    case Producer(i) => m.(producers := m.producers[i := Free])
    case Consumer(j) => m.(consumers := m.consumers[j := Free])
  }

  predicate Enabled(m: Monitor, l: Label) {
    match l
    case Push(i) => i < |m.producers| && m.producers[i] == Free && m.size < m.cap && !m.down
    case ParkProducer(i) => i < |m.producers| && m.producers[i] == Free && m.size >= m.cap && !m.down
    case ProducerNotifies(i, t) => i < |m.producers| && m.producers[i] == Owing && CanWake(m, t)
    case ProducerWakes(i) => i < |m.producers| && m.producers[i] == Parked
    case Pop(j) => j < |m.consumers| && m.consumers[j] == Free && m.size > 0
    case ParkConsumer(j) => j < |m.consumers| && m.consumers[j] == Free && m.size == 0 && !m.down
    case ConsumerNotifies(j, t) => j < |m.consumers| && m.consumers[j] == Owing && CanWake(m, t)
    case ConsumerWakes(j) => j < |m.consumers| && m.consumers[j] == Parked
    case Shutdown(pills) => true
  }

  function Unpark(t: Thread): (u: Thread) {
    if t == Parked then Free else t
  }

  function UnparkAll(ts: seq<Thread>): (us: seq<Thread>)
    ensures |us| == |ts|
  {
    seq(|ts|, i requires 0 <= i < |ts| => Unpark(ts[i]))
  }

  function Step(m: Monitor, l: Label): (n: Monitor)
    requires Enabled(m, l)
  {
    match l
    case Push(i) => m.(size := m.size + 1, producers := m.producers[i := Owing])
    case ParkProducer(i) => m.(producers := m.producers[i := Parked])
    case ProducerNotifies(i, t) => Wake(m, t).(producers := Wake(m, t).producers[i := Free])
    case ProducerWakes(i) => m.(producers := m.producers[i := Free])
    case Pop(j) => m.(size := m.size - 1, consumers := m.consumers[j := Owing])
    case ParkConsumer(j) => m.(consumers := m.consumers[j := Parked])
    case ConsumerNotifies(j, t) => Wake(m, t).(consumers := Wake(m, t).consumers[j := Free])
    case ConsumerWakes(j) => m.(consumers := m.consumers[j := Free])
    case Shutdown(pills) =>
      m.(size := m.size + pills, down := true,
         producers := UnparkAll(m.producers), consumers := UnparkAll(m.consumers))
  }

  /** A run: each label is enabled where it is taken. */
  predicate Legal(m: Monitor, ls: seq<Label>)
    decreases |ls|
  {
    ls == [] || (Enabled(m, ls[0]) && Legal(Step(m, ls[0]), ls[1..]))
  }

  function After(m: Monitor, ls: seq<Label>): (n: Monitor)
    requires Legal(m, ls)
    decreases |ls|
  {
    if ls == [] then m else After(Step(m, ls[0]), ls[1..])
  }

  function Idle(n: nat): (ts: seq<Thread>) {
    seq(n, _ => Free)
  }

  /** An empty queue of capacity `cap` with every thread outside it. */
  function Start(cap: nat, p: nat, c: nat): (m: Monitor) {
    Monitor(cap, 0, false, Idle(p), Idle(c))
  }

  // ---------------------------------------------------------------------------------------
  // Counting
  // ---------------------------------------------------------------------------------------

  lemma {:induction false} CountUpdate(ts: seq<Thread>, i: nat, y: Thread, x: Thread)
    requires i < |ts|
    ensures Count(ts[i := y], x) == Count(ts, x) - (if ts[i] == x then 1 else 0) + (if y == x then 1 else 0)
  {
    if i == 0 {
      assert ts[i := y][1..] == ts[1..];
    } else {
      assert ts[i := y][1..] == ts[1..][i - 1 := y];
      CountUpdate(ts[1..], i - 1, y, x);
    }
  }

  lemma {:induction false} CountTotal(ts: seq<Thread>)
    ensures Count(ts, Free) + Count(ts, Parked) + Count(ts, Owing) == |ts|
  {
    if ts != [] {
      CountTotal(ts[1..]);
    }
  }

  lemma {:induction false} CountNone(ts: seq<Thread>, x: Thread)
    ensures Count(ts, x) == 0 <==> x !in ts
  {
    if ts != [] {
      CountNone(ts[1..], x);
      assert ts == [ts[0]] + ts[1..];
    }
  }

  /** The effect of one thread changing state on the two counts that matter. */
  lemma Moved(ts: seq<Thread>, i: nat, y: Thread)
    requires i < |ts|
    ensures var us := ts[i := y];
            && Count(us, Parked) + Is(ts[i], Parked) == Count(ts, Parked) + Is(y, Parked)
            && Count(us, Owing) + Is(ts[i], Owing) == Count(ts, Owing) + Is(y, Owing)
            && Count(us, Parked) + Count(us, Owing) + (if y == Free then 1 else 0) <= |us|
            && Count(ts, Parked) + Count(ts, Owing) + (if ts[i] == Free then 1 else 0) <= |ts|
  {
    CountUpdate(ts, i, y, Parked);
    CountUpdate(ts, i, y, Owing);
    CountUpdate(ts, i, y, Free);
    CountUpdate(ts, i, Parked, Free);
    CountTotal(ts);
    CountTotal(ts[i := y]);
  }

  // ---------------------------------------------------------------------------------------
  // No lost wakeup
  // ---------------------------------------------------------------------------------------

  /** Every item that went in while a consumer slept is matched by a woken consumer or by a producer
      that still owes its notification; and the mirror image for free slots and producers. */
  predicate Balanced(m: Monitor) {
    var pp, op := Count(m.producers, Parked), Count(m.producers, Owing);
    var pc, oc := Count(m.consumers, Parked), Count(m.consumers, Owing);
    if m.down then pp == 0 && pc == 0 else
      && m.size <= m.cap
      && !(pp > 0 && pc > 0)
      && (pc > 0 ==> m.size + pc + oc <= |m.consumers| + op)
      && (pp > 0 ==> m.cap - m.size + pp + op <= |m.producers| + oc)
  }

  predicate Roomy(m: Monitor) {
    m.cap >= 1 && m.cap + 1 >= |m.producers| + |m.consumers|
  }

  lemma BalancedStep(m: Monitor, l: Label)
    requires Balanced(m) && Roomy(m) && Enabled(m, l)
    ensures Balanced(Step(m, l)) && Roomy(Step(m, l))
  {
    match l
    case Push(i) => BalancedMove(m, l);
    case ParkProducer(i) => BalancedPark(m, l);
    case ProducerWakes(i) => BalancedMove(m, l);
    case Pop(j) => BalancedMove(m, l);
    case ParkConsumer(j) => BalancedPark(m, l);
    case ConsumerWakes(j) => BalancedMove(m, l);
    case ProducerNotifies(i, t) => BalancedNotify(m, l);
    case ConsumerNotifies(j, t) => BalancedNotify(m, l);
    case Shutdown(pills) =>
      CountNone(UnparkAll(m.producers), Parked);
      CountNone(UnparkAll(m.consumers), Parked);
  }

  lemma BalancedMove(m: Monitor, l: Label)
    requires Balanced(m) && Enabled(m, l)
    requires l.Push? || l.Pop? || l.ProducerWakes? || l.ConsumerWakes?
    ensures Balanced(Step(m, l))
  {
    match l
    case Push(i) => Moved(m.producers, i, Owing);
    case ProducerWakes(i) => Moved(m.producers, i, Free);
    case Pop(j) => Moved(m.consumers, j, Owing);
    case ConsumerWakes(j) => Moved(m.consumers, j, Free);
  }

  /** The heart of the argument: a thread about to sleep finds nobody asleep on the other side. */
  lemma BalancedPark(m: Monitor, l: Label)
    requires Balanced(m) && Roomy(m) && Enabled(m, l)
    requires l.ParkProducer? || l.ParkConsumer?
    ensures Balanced(Step(m, l))
  {
    if l.ParkProducer? {
      Moved(m.producers, l.i, Parked);
    } else {
      Moved(m.consumers, l.j, Parked);
    }
  }

  lemma BalancedNotify(m: Monitor, l: Label)
    requires Balanced(m) && Enabled(m, l)
    requires l.ProducerNotifies? || l.ConsumerNotifies?
    ensures Balanced(Step(m, l))
  {
    WakeCounts(m, l.t);
    if l.ProducerNotifies? {
      Moved(Wake(m, l.t).producers, l.i, Free);
    } else {
      Moved(Wake(m, l.t).consumers, l.j, Free);
    }
  }

  lemma WakeCounts(m: Monitor, t: Target)
    requires CanWake(m, t)
    ensures var w := Wake(m, t);
            var dp := if t.Producer? then 1 else 0;
            var dc := if t.Consumer? then 1 else 0;
            && Count(w.producers, Parked) == Count(m.producers, Parked) - dp
            && Count(w.consumers, Parked) == Count(m.consumers, Parked) - dc
            && Count(w.producers, Owing) == Count(m.producers, Owing)
            && Count(w.consumers, Owing) == Count(m.consumers, Owing)
  {
    match t
    case NoOne =>
    case Producer(i) => Moved(m.producers, i, Free);
    case Consumer(j) => Moved(m.consumers, j, Free);
  }

  lemma {:induction false} BalancedRun(m: Monitor, ls: seq<Label>)
    requires Balanced(m) && Roomy(m) && Legal(m, ls)
    ensures Balanced(After(m, ls)) && Roomy(After(m, ls))
    decreases |ls|
  {
    if ls != [] {
      BalancedStep(m, ls[0]);
      BalancedRun(Step(m, ls[0]), ls[1..]);
    }
  }

  lemma StartBalanced(cap: nat, p: nat, c: nat)
    ensures Balanced(Start(cap, p, c))
  {
    CountNone(Idle(p), Parked);
    CountNone(Idle(c), Parked);
  }

  /** A wakeup has been lost: there is work for one side, every thread of that side sleeps, and
      nobody is about to notify. (After shutdown there is nothing to lose: nobody may sleep.) */
  predicate Lost(m: Monitor) {
    && Count(m.producers, Owing) == 0 && Count(m.consumers, Owing) == 0
    && ((m.size > 0 && |m.consumers| > 0 && Count(m.consumers, Parked) == |m.consumers|)
        || (m.size < m.cap && |m.producers| > 0 && Count(m.producers, Parked) == |m.producers|))
  }

  /** With room for at least P + C - 1 items no run, whatever is woken and when, parks a producer
      and a consumer together or loses a wakeup. While one side sleeps, the work waiting for it is
      covered by notifications still owed by the other side, and those can only wake that side. */
  lemma NoLostWakeup(cap: nat, p: nat, c: nat, ls: seq<Label>)
    requires cap >= 1 && cap + 1 >= p + c
    requires Legal(Start(cap, p, c), ls)
    ensures var m := After(Start(cap, p, c), ls);
            && !(Count(m.producers, Parked) > 0 && Count(m.consumers, Parked) > 0)
            && (m.size > 0 && c > 0 && Count(m.consumers, Parked) == c ==> 0 < m.size <= Count(m.producers, Owing))
            && (m.size < cap && p > 0 && Count(m.producers, Parked) == p ==>
                  0 < cap - m.size <= Count(m.consumers, Owing))
            && !Lost(m)
  {
    var s := Start(cap, p, c);
    StartBalanced(cap, p, c);
    BalancedRun(s, ls);
    ThreadsStay(s, ls);
    CountTotal(After(s, ls).producers);
    CountTotal(After(s, ls).consumers);
  }

  lemma {:induction false} ThreadsStay(m: Monitor, ls: seq<Label>)
    requires Legal(m, ls)
    ensures var n := After(m, ls);
            |n.producers| == |m.producers| && |n.consumers| == |m.consumers| && n.cap == m.cap
    decreases |ls|
  {
    if ls != [] {
      ThreadsStay(Step(m, ls[0]), ls[1..]);
    }
  }

  // ---------------------------------------------------------------------------------------
  // The capacity bound is exact
  // ---------------------------------------------------------------------------------------

  ghost predicate Reaches(m: Monitor, n: Monitor) {
    exists ls :: Legal(m, ls) && After(m, ls) == n
  }

  lemma {:induction false} LegalAppend(m: Monitor, ls: seq<Label>, l: Label)
    requires Legal(m, ls) && Enabled(After(m, ls), l)
    ensures Legal(m, ls + [l]) && After(m, ls + [l]) == Step(After(m, ls), l)
    decreases |ls|
  {
    if ls == [] {
      assert ls + [l] == [l];
      assert [l][1..] == [];
    } else {
      LegalAppend(Step(m, ls[0]), ls[1..], l);
      assert (ls + [l])[1..] == ls[1..] + [l];
    }
  }

  lemma Extend(m: Monitor, n: Monitor, l: Label)
    requires Reaches(m, n) && Enabled(n, l)
    ensures Reaches(m, Step(n, l))
  {
    var ls :| Legal(m, ls) && After(m, ls) == n;
    LegalAppend(m, ls, l);
  }

  // Producer 0 awake or asleep, producers a+1..b owing, all others idle.
  function Pushers(p: nat, first: Thread, a: nat, b: nat): (ts: seq<Thread>) {
    seq(p, i => if i == 0 then first else if a < i <= b then Owing else Free)
  }

  // The first k threads in state x, the others in state y.
  function Split(n: nat, k: nat, x: Thread, y: Thread): (ts: seq<Thread>) {
    seq(n, i => if i < k then x else y)
  }

  lemma {:induction false} AllConsumersPark(s: Monitor, k: nat)
    requires s.size == 0 && !s.down && s.consumers == Idle(|s.consumers|) && k <= |s.consumers|
    ensures Reaches(s, s.(consumers := Split(|s.consumers|, k, Parked, Free)))
  {
    var n := s.(consumers := Split(|s.consumers|, k, Parked, Free));
    if k == 0 {
      assert n.consumers == s.consumers;
      assert Legal(s, []) && After(s, []) == n;
    } else {
      AllConsumersPark(s, k - 1);
      var o := s.(consumers := Split(|s.consumers|, k - 1, Parked, Free));
      Extend(s, o, ParkConsumer(k - 1));
      assert o.consumers[k - 1 := Parked] == n.consumers;
    }
  }

  /** Producer 0 pushes k times and each time wakes another consumer, which does not get to run. */
  lemma {:induction false} FirstPushes(s: Monitor, k: nat)
    requires s == Start(s.cap, |s.producers|, |s.consumers|) && |s.producers| > 0
    requires k <= |s.consumers| && k <= s.cap
    ensures Reaches(s, s.(size := k, consumers := Split(|s.consumers|, k, Free, Parked)))
  {
    var c := |s.consumers|;
    if k == 0 {
      AllConsumersPark(s, c);
      assert Split(c, c, Parked, Free) == Split(c, 0, Free, Parked);
    } else {
      FirstPushes(s, k - 1);
      var o := s.(size := k - 1, consumers := Split(c, k - 1, Free, Parked));
      Extend(s, o, Push(0));
      var w := Step(o, Push(0));
      Extend(s, w, ProducerNotifies(0, Consumer(k - 1)));
      assert w.producers[0 := Free] == s.producers;
      assert w.consumers[k - 1 := Free] == Split(c, k, Free, Parked);
    }
  }

  /** Producers 1..k push one item each and are interrupted before they notify. */
  lemma {:induction false} SilentPushes(s: Monitor, x: nat, k: nat)
    requires s == Start(s.cap, |s.producers|, |s.consumers|)
    requires x <= |s.consumers| && x + k <= s.cap && k < |s.producers|
    ensures Reaches(s, s.(size := x + k, producers := Pushers(|s.producers|, Free, 0, k),
                          consumers := Split(|s.consumers|, x, Free, Parked)))
  {
    var p, c := |s.producers|, |s.consumers|;
    if k == 0 {
      FirstPushes(s, x);
      assert Pushers(p, Free, 0, 0) == s.producers;
    } else {
      SilentPushes(s, x, k - 1);
      var o := s.(size := x + k - 1, producers := Pushers(p, Free, 0, k - 1), consumers := Split(c, x, Free, Parked));
      Extend(s, o, Push(k));
      assert o.producers[k := Owing] == Pushers(p, Free, 0, k);
    }
  }

  /** The queue is full and producer 0 sleeps beside a sleeping consumer; every owed notification
      now goes to producer 0, which finds the queue full and sleeps again. */
  lemma {:induction false} WastedNotifications(s: Monitor, x: nat, n: nat, k: nat)
    requires s == Start(s.cap, |s.producers|, |s.consumers|)
    requires x <= |s.consumers| && x + n == s.cap && k <= n < |s.producers|
    ensures Reaches(s, s.(size := s.cap, producers := Pushers(|s.producers|, Parked, k, n),
                          consumers := Split(|s.consumers|, x, Free, Parked)))
  {
    var p, c := |s.producers|, |s.consumers|;
    var full := s.(size := s.cap, consumers := Split(c, x, Free, Parked));
    if k == 0 {
      SilentPushes(s, x, n);
      var o := full.(producers := Pushers(p, Free, 0, n));
      Extend(s, o, ParkProducer(0));
      assert o.producers[0 := Parked] == Pushers(p, Parked, 0, n);
    } else {
      WastedNotifications(s, x, n, k - 1);
      var o := full.(producers := Pushers(p, Parked, k - 1, n));
      Extend(s, o, ProducerNotifies(k, Producer(0)));
      var w := Step(o, ProducerNotifies(k, Producer(0)));
      assert w.producers == Pushers(p, Free, k, n);
      Extend(s, w, ParkProducer(0));
      assert w.producers[0 := Parked] == Pushers(p, Parked, k, n);
    }
  }

  lemma {:induction false} AllProducersPark(s: Monitor, x: nat, k: nat)
    requires s == Start(s.cap, |s.producers|, |s.consumers|)
    requires x <= |s.consumers| && x <= s.cap < x + |s.producers| && 1 <= k <= |s.producers|
    ensures Reaches(s, s.(size := s.cap, producers := Split(|s.producers|, k, Parked, Free),
                          consumers := Split(|s.consumers|, x, Free, Parked)))
  {
    var p, c := |s.producers|, |s.consumers|;
    if k == 1 {
      WastedNotifications(s, x, s.cap - x, s.cap - x);
      assert Pushers(p, Parked, s.cap - x, s.cap - x) == Split(p, 1, Parked, Free);
    } else {
      AllProducersPark(s, x, k - 1);
      var o := s.(size := s.cap, producers := Split(p, k - 1, Parked, Free), consumers := Split(c, x, Free, Parked));
      Extend(s, o, ParkProducer(k - 1));
      assert o.producers[k - 1 := Parked] == Split(p, k, Parked, Free);
    }
  }

  lemma {:induction false} CountAll(ts: seq<Thread>, x: Thread)
    requires forall i :: 0 <= i < |ts| ==> ts[i] == x
    ensures Count(ts, x) == |ts|
  {
    if ts != [] {
      CountAll(ts[1..], x);
    }
  }

  /** With one slot fewer than P + C - 1 there is a run that loses a wakeup. */
  lemma TooSmallLoses(cap: nat, p: nat, c: nat)
    requires p >= 1 && c >= 1 && 1 <= cap <= p + c - 2
    ensures exists ls :: Legal(Start(cap, p, c), ls) && Lost(After(Start(cap, p, c), ls))
  {
    var s := Start(cap, p, c);
    if c == 1 {
      WastedNotifications(s, 0, cap, cap);
      var m := s.(size := cap, producers := Pushers(p, Parked, cap, cap), consumers := Split(c, 0, Free, Parked));
      CountAll(m.consumers, Parked);
      CountNone(m.producers, Owing);
      CountNone(m.consumers, Owing);
      assert Reaches(s, m) && Lost(m);
    } else {
      var x := if c - 1 <= cap then c - 1 else cap;
      AllProducersPark(s, x, p);
      var o := s.(size := cap, producers := Split(p, p, Parked, Free), consumers := Split(c, x, Free, Parked));
      Extend(s, o, Pop(0));
      var w := Step(o, Pop(0));
      Extend(s, w, ConsumerNotifies(0, Consumer(c - 1)));
      var m := Step(w, ConsumerNotifies(0, Consumer(c - 1)));
      CountAll(m.producers, Parked);
      CountNone(m.producers, Owing);
      CountNone(m.consumers, Owing);
      assert Reaches(s, m) && Lost(m);
    }
  }

  /** The exact condition: a queue of at least one slot never loses a wakeup if and only if it has
      at least P + C - 1 slots. */
  lemma LostWakeupExact(cap: nat, p: nat, c: nat)
    requires p >= 1 && c >= 1 && cap >= 1
    ensures (forall ls :: Legal(Start(cap, p, c), ls) ==> !Lost(After(Start(cap, p, c), ls))) <==> cap >= p + c - 1
  {
    if cap >= p + c - 1 {
      forall ls | Legal(Start(cap, p, c), ls) ensures !Lost(After(Start(cap, p, c), ls)) {
        NoLostWakeup(cap, p, c, ls);
      }
    } else {
      TooSmallLoses(cap, p, c);
    }
  }

  const SERVER_MAXSIZE: nat := 10000
  const SEND_THREADS: nat := 5
  // QUEUE_DATA parks while its size exceeds 1500, so it holds one item more.
  const CLIENT_CAPACITY: nat := 1500 + 1

  /** The server's queue: the room thread and the accept thread produce, five senders consume. */
  lemma ServerQueueKeepsWakeups(ls: seq<Label>)
    requires Legal(Start(SERVER_MAXSIZE, 2, SEND_THREADS), ls)
    ensures !Lost(After(Start(SERVER_MAXSIZE, 2, SEND_THREADS), ls))
  {
    NoLostWakeup(SERVER_MAXSIZE, 2, SEND_THREADS, ls);
  }

  /** The client's queues: any number of threads up to 1502 in all. */
  lemma ClientQueueKeepsWakeups(p: nat, c: nat, ls: seq<Label>)
    requires p + c <= 1502
    requires Legal(Start(CLIENT_CAPACITY, p, c), ls)
    ensures !Lost(After(Start(CLIENT_CAPACITY, p, c), ls))
  {
    NoLostWakeup(CLIENT_CAPACITY, p, c, ls);
  }
}
