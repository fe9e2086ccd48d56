/** Time slices (rt_tick_incread up to its check of the timers): how the threads at the top priority
    take turns, by the scheduler's own steps. */
module RoundRobin {
  import opened Lists
  import opened Scheduler
  import opened Words

  /** What is left of a thread's slice, and the whole slice. */
  datatype Slice = Slice(rem: nat, init: nat)
  datatype Turn = Turn(tid: Tid, slice: Slice)

  // Turns in a queue.

  /** A thread with `rem` ticks left, one of which passes. */
  function Spent(s: Slice): Slice
    requires s.rem > 0
  {
    if s.rem > 1 then s.(rem := s.rem - 1) else s.(rem := s.init)
  }

  /** One tick: the first thread of the queue runs, and goes to the end when its slice is used up. */
  function Tick(q: seq<Turn>): seq<Turn>
    requires q != [] && q[0].slice.rem > 0
  {
    var t := q[0].(slice := Spent(q[0].slice));
    if q[0].slice.rem > 1 then [t] + q[1..] else q[1..] + [t]
  }

  ghost predicate Running(q: seq<Turn>) {
    forall i | 0 <= i < |q| :: q[i].slice.rem > 0 && q[i].slice.init > 0
  }

  lemma TickRuns(q: seq<Turn>)
    requires Running(q) && q != []
    ensures Running(Tick(q)) && |Tick(q)| == |q|
  {}

  function Ticks(q: seq<Turn>, n: nat): (r: seq<Turn>)
    requires Running(q) && q != []
    ensures Running(r) && |r| == |q|
    decreases n
  {
    if n == 0 then q else
      TickRuns(q);
      Ticks(Tick(q), n - 1)
  }

  /** The ticks left to the threads of q. */
  function Left(q: seq<Turn>): nat {
    if q == [] then 0 else q[0].slice.rem + Left(q[1..])
  }

  function Renewed(q: seq<Turn>): seq<Turn> {
    seq(|q|, i requires 0 <= i < |q| => q[i].(slice := q[i].slice.(rem := q[i].slice.init)))
  }

  lemma {:induction false} TicksAdd(q: seq<Turn>, m: nat, n: nat)
    requires Running(q) && q != []
    ensures Ticks(q, m + n) == Ticks(Ticks(q, m), n)
    decreases m
  {
    if m > 0 {
      TickRuns(q);
      TicksAdd(Tick(q), m - 1, n);
    }
  }

  /** While its slice lasts the first thread stays first. */
  lemma {:induction false} StaysFirst(q: seq<Turn>, n: nat)
    requires Running(q) && q != [] && n < q[0].slice.rem
    ensures Ticks(q, n) == [q[0].(slice := q[0].slice.(rem := q[0].slice.rem - n))] + q[1..]
    decreases n
  {
    if n > 0 {
      TickRuns(q);
      StaysFirst(Tick(q), n - 1);
    } else {
      assert q == [q[0]] + q[1..];
    }
  }

  lemma OneTick(q: seq<Turn>)
    requires Running(q) && q != []
    ensures Ticks(q, 1) == Tick(q)
  {
    TickRuns(q);
    assert Ticks(Tick(q), 0) == Tick(q);
  }

  /** With its last tick a thread goes to the end, renewed. */
  lemma LastTick(q: seq<Turn>, x: Turn)
    requires q != [] && q[0].slice.rem == 1 && x == q[0].(slice := q[0].slice.(rem := q[0].slice.init))
    ensures Tick(q) == q[1..] + [x]
  {}

  lemma GoesLast(q: seq<Turn>)
    requires Running(q) && q != []
    ensures Ticks(q, q[0].slice.rem) == q[1..] + Renewed(q[..1])
  {
    var r := q[0].slice.rem;
    var q', x := Ticks(q, r - 1), q[0].(slice := q[0].slice.(rem := q[0].slice.init));
    StaysFirst(q, r - 1);
    TicksAdd(q, r - 1, 1);
    OneTick(q');
    LastTick(q', x);
    assert q'[1..] == q[1..] && Renewed(q[..1]) == [x];
  }

  /** After the ticks left to the first k threads these are at the end, renewed and in their order, and
      the next one is first. */
  lemma {:induction false} AfterTurns(q: seq<Turn>, k: nat)
    requires Running(q) && q != [] && k <= |q|
    ensures Ticks(q, Left(q[..k])) == q[k..] + Renewed(q[..k])
    decreases k
  {
    if k == 0 {
      assert q[..0] == [] && q[0..] + Renewed([]) == q;
    } else {
      AfterTurns(q, k - 1);
      LeftSplit(q, k);
      NextTurn(q, k, Left(q[..k - 1]));
    }
  }

  lemma NextTurn(q: seq<Turn>, k: nat, n: nat)
    requires Running(q) && 0 < k <= |q| && Ticks(q, n) == q[k - 1..] + Renewed(q[..k - 1])
    ensures Ticks(q, n + q[k - 1].slice.rem) == q[k..] + Renewed(q[..k])
  {
    var q' := Ticks(q, n);
    NextLast(q, k, q');
    TicksAdd(q, n, q[k - 1].slice.rem);
    GoesLast(q');
  }

  lemma NextLast(q: seq<Turn>, k: nat, q': seq<Turn>)
    requires 0 < k <= |q| && q' == q[k - 1..] + Renewed(q[..k - 1])
    ensures q' != [] && q'[0] == q[k - 1] && q'[1..] + Renewed(q'[..1]) == q[k..] + Renewed(q[..k])
  {}

  lemma {:induction false} LeftSplit(q: seq<Turn>, k: nat)
    requires 0 < k <= |q|
    ensures Left(q[..k]) == Left(q[..k - 1]) + q[k - 1].slice.rem
    decreases k
  {
    if k == 1 {
      assert q[..1][1..] == [] && q[..0] == [];
    } else {
      LeftSplit(q[1..], k - 1);
      assert q[..k][1..] == q[1..][..k - 1] && q[..k - 1][1..] == q[1..][..k - 2];
    }
  }

  /** The k-th thread is first after exactly the ticks left to those ahead of it, and stays first for the
      ticks left to it. */
  lemma TurnComes(q: seq<Turn>, k: nat, n: nat)
    requires Running(q) && k < |q| && n < q[k].slice.rem
    ensures Ticks(q, Left(q[..k]) + n)[0] == q[k].(slice := q[k].slice.(rem := q[k].slice.rem - n))
  {
    AfterTurns(q, k);
    TicksAdd(q, Left(q[..k]), n);
    var q' := Ticks(q, Left(q[..k]));
    assert q'[0] == q[k];
    StaysFirst(q', n);
  }

  /** A full round restores the order. */
  lemma FullRound(q: seq<Turn>)
    requires Running(q) && q != []
    ensures Ticks(q, Left(q)) == Renewed(q)
  {
    AfterTurns(q, |q|);
    assert q[..|q|] == q && q[|q|..] == [];
    assert [] + Renewed(q) == Renewed(q);
  }

  // The same turns, taken by the scheduler.

  /** The top priority that has a READY thread. */
  function TopOf(s: State): nat {
    First(s.queues, 0)
  }

  ghost predicate AtTop(s: State, slices: map<Tid, Slice>) {
    && Inv(s) && s.lockNest == 0 && TopOf(s) < s.max
    && s.current == Runs(s.queues[TopOf(s)][0])
    && forall t | t in s.threads :: t in slices && slices[t].rem > 0 && slices[t].init > 0
  }

  /** The threads at the top priority in the order of their queue. */
  ghost function Top(s: State, slices: map<Tid, Slice>): seq<Turn>
    requires AtTop(s, slices)
  {
    TopThreads(s);
    var q := s.queues[TopOf(s)];
    seq(|q|, i requires 0 <= i < |q| => Turn(q[i], slices[q[i]]))
  }

  lemma TopThreads(s: State)
    requires Inv(s) && TopOf(s) < s.max
    ensures forall t | t in s.queues[TopOf(s)] ::
              t in s.threads && s.threads[t].stat.Ready? && s.threads[t].prio == TopOf(s)
  {
    var p := TopOf(s);
    assert QueueOk(s.queues[p], s.threads, p);
    forall t | t in s.queues[p] ensures t in s.threads && s.threads[t].stat.Ready? && s.threads[t].prio == p {
      assert t in Members(s.queues[p]);
    }
  }

  /** rt_tick_incread on the scheduler's state and the slices. */
  ghost function TickStep(s: State, slices: map<Tid, Slice>): (State, map<Tid, Slice>)
    requires AtTop(s, slices)
  {
    TopThreads(s);
    var t := s.current.tid;
    assert t in s.queues[TopOf(s)];
    var slices' := slices[t := Spent(slices[t])];
    if slices[t].rem > 1 then (s, slices')
    else
      YieldKeeps(s);
      YieldStaysReady(s);
      (ScheduleStep(YieldStep(s)), slices')
  }

  lemma YieldStaysReady(s: State)
    requires Inv(s) && Enabled(s, Yield) && s.threads[s.current.tid].stat.Ready?
    ensures Enabled(YieldStep(s), Schedule) && YieldStep(s).threads == s.threads
  {
    var t := s.current.tid;
    assert t in YieldStep(s).threads && YieldStep(s).threads[t].stat.Ready?;
  }

  /** The thread whose slice is used up goes to the end, and the next one is scheduled. */
  lemma SliceEnds(s: State)
    requires Inv(s) && s.lockNest == 0 && TopOf(s) < s.max
    requires s.current == Runs(s.queues[TopOf(s)][0])
    ensures s.current.tid in s.threads && Enabled(s, Yield) && s.threads[s.current.tid].stat.Ready?
    ensures Inv(YieldStep(s)) && Enabled(YieldStep(s), Schedule)
    ensures var h, s' := TopOf(s), ScheduleStep(YieldStep(s));
            && Inv(s') && s'.threads == s.threads && s'.lockNest == 0 && s'.max == s.max && TopOf(s') == h
            && s'.queues[h] == s.queues[h][1..] + [s.queues[h][0]] && s'.current == Runs(s'.queues[h][0])
            && s.queues[h][0] !in s.queues[h][1..]
  {
    TopThreads(s);
    var h, t := TopOf(s), s.current.tid;
    var q := s.queues[h];
    assert t in q;
    assert QueueOk(q, s.threads, h);
    NoDuplicatesTail(q);
    YieldKeeps(s);
    YieldStaysReady(s);
    var y := YieldStep(s);
    assert y.queues[h] == q[1..] + [t];
    assert TopOf(y) == h;
  }

  lemma TopTick(q: seq<Tid>, slices: map<Tid, Slice>, q': seq<Tid>, turns: seq<Turn>, turns': seq<Turn>)
    requires q != [] && |turns| == |q| && |turns'| == |q'| && q[0] !in q[1..]
    requires forall i | 0 <= i < |q| :: q[i] in slices && turns[i] == Turn(q[i], slices[q[i]])
    requires slices[q[0]].rem > 0
    requires q' == if slices[q[0]].rem > 1 then q else q[1..] + [q[0]]
    requires var slices' := slices[q[0] := Spent(slices[q[0]])];
             forall i | 0 <= i < |q'| :: q'[i] in slices && turns'[i] == Turn(q'[i], slices'[q'[i]])
    ensures turns' == Tick(turns)
  {
    assert forall i | 0 < i < |q| :: q[i] in q[1..];
  }

  /** The tick of the scheduler is a tick of the queue, and the first thread is current again. */
  lemma TickRefines(s: State, slices: map<Tid, Slice>)
    requires AtTop(s, slices)
    ensures var (s', slices') := TickStep(s, slices);
            && AtTop(s', slices') && TopOf(s') == TopOf(s)
            && Top(s, slices) != [] && Top(s, slices)[0].slice.rem > 0
            && Top(s', slices') == Tick(Top(s, slices))
  {
    SliceEnds(s);
    TopThreads(s);
    var h := TopOf(s);
    var (s', slices') := TickStep(s, slices);
    assert AtTop(s', slices');
    TopThreads(s');
    TopTick(s.queues[h], slices, s'.queues[h], Top(s, slices), Top(s', slices'));
  }

  /** A tick takes one tick of the current thread's slice; after its last one the slice is whole again, the thread is
      the last one of its queue, and the one that was behind it is current. Nothing else changes. */
  lemma TickSpends(s: State, slices: map<Tid, Slice>)
    requires AtTop(s, slices)
    ensures s.current.Runs? && s.current.tid in slices && s.current.tid in s.threads
    ensures var t, (s', slices') := s.current.tid, TickStep(s, slices);
            var p, slice := s.threads[t].prio, slices[t];
            && t in slices' && slices' == slices[t := slices'[t]] && slices'[t].init == slice.init
            && slices'[t].rem == (if slice.rem == 1 then slice.init else slice.rem - 1)
            && (slice.rem > 1 ==> s' == s)
            && (slice.rem == 1 ==>
                  && p < |s.queues| && s.queues[p] != [] && s.queues[p][0] == t
                  && s'.queues == s.queues[p := s.queues[p][1..] + [t]] && s'.threads == s.threads
                  && s'.current == Runs((s.queues[p][1..] + [t])[0]))
  {
    TopThreads(s);
    var t := s.current.tid;
    assert t in s.queues[TopOf(s)];
    SliceEnds(s);
  }

  ghost function After(s: State, slices: map<Tid, Slice>, n: nat): (State, map<Tid, Slice>)
    requires AtTop(s, slices)
    decreases n
  {
    if n == 0 then (s, slices)
    else
      TickRefines(s, slices);
      var (s', slices') := TickStep(s, slices);
      After(s', slices', n - 1)
  }

  lemma TopFacts(s: State, slices: map<Tid, Slice>)
    requires AtTop(s, slices)
    ensures Running(Top(s, slices)) && Top(s, slices) != [] && s.current == Runs(Top(s, slices)[0].tid)
  {
    TopThreads(s);
  }

  lemma {:induction false} AfterRefines(s: State, slices: map<Tid, Slice>, n: nat)
    requires AtTop(s, slices)
    ensures Running(Top(s, slices)) && Top(s, slices) != []
    ensures AtTop(After(s, slices, n).0, After(s, slices, n).1)
    ensures Top(After(s, slices, n).0, After(s, slices, n).1) == Ticks(Top(s, slices), n)
    decreases n
  {
    TopFacts(s, slices);
    if n > 0 {
      TickRefines(s, slices);
      TickRuns(Top(s, slices));
      AfterRefines(TickStep(s, slices).0, TickStep(s, slices).1, n - 1);
    }
  }

  /** The round-robin bound: with the READY threads of the top priority fixed and the scheduler unlocked,
      the k-th of them is current from exactly the sum of the ticks left to those ahead of it on, for
      the ticks left to it. */
  lemma BecomesCurrent(s: State, slices: map<Tid, Slice>, k: nat, n: nat)
    requires AtTop(s, slices) && k < |Top(s, slices)| && n < Top(s, slices)[k].slice.rem
    ensures After(s, slices, Left(Top(s, slices)[..k]) + n).0.current == Runs(Top(s, slices)[k].tid)
  {
    var q := Top(s, slices);
    var m := Left(q[..k]) + n;
    TopFacts(s, slices);
    AfterRefines(s, slices, m);
    TurnComes(q, k, n);
    TopFacts(After(s, slices, m).0, After(s, slices, m).1);
  }

  /** After a full round the threads are in the order they were in, with whole slices. */
  lemma RoundRestores(s: State, slices: map<Tid, Slice>)
    requires AtTop(s, slices)
    ensures var q, (s', slices') := Top(s, slices), After(s, slices, Left(Top(s, slices)));
            && AtTop(s', slices') && |Top(s', slices')| == |q|
            && forall k | 0 <= k < |q| ::
                 Top(s', slices')[k] == Turn(q[k].tid, Slice(q[k].slice.init, q[k].slice.init))
  {
    TopFacts(s, slices);
    AfterRefines(s, slices, Left(Top(s, slices)));
    FullRound(Top(s, slices));
  }

  class Clock {
    const scheduler: Scheduler
    var tick: nat                     // rt_tick, 32-bit
    var slices: map<Tid, Slice>       // remaining_tick and init_tick of the threads

    constructor (scheduler: Scheduler, slices: map<Tid, Slice>)
      ensures this.scheduler == scheduler && this.slices == slices && tick == 0
    {
      this.scheduler, this.slices, tick := scheduler, slices, 0;
    }

    /** rt_tick_incread, up to its check of the timers. */
    method Increase()
      requires AtTop(scheduler.Abs(), slices)
      modifies this, scheduler, scheduler.table, scheduler.queues
      ensures tick == (old(tick) + 1) % U32
      ensures (scheduler.Abs(), slices) == TickStep(old(scheduler.Abs()), old(slices))
      ensures AtTop(scheduler.Abs(), slices)
    {
      ghost var s := scheduler.Abs();
      TickRefines(s, slices);
      SliceEnds(s);
      tick := (tick + 1) % U32;
      var t := scheduler.current.tid;
      var left := slices[t].rem - 1;
      slices := slices[t := slices[t].(rem := left)];
      if left == 0 {
        slices := slices[t := slices[t].(rem := slices[t].init)];
        scheduler.YieldThread();
        scheduler.Reschedule();
      }
      assert slices == TickStep(s, old(slices)).1;
    }
  }
}
