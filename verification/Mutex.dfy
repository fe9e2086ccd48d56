/** Recursive mutexes with one level of priority inheritance (rt_mutex_init, rt_mutex_take,
    rt_mutex_release). Every section with interrupts disabled is one step, so any sequence of steps
    is a run. The priorities the mutex changes are those of the threads themselves. */
module Mutex {
  import opened WaitList
  import opened Words

  const NO_PRIORITY := 0xFF

  datatype Owner = Nobody | By(tid: Tid)
  datatype State = State(value: nat, owner: Owner, original: nat, hold: nat, waiters: seq<Waiter>, prio: map<Tid, nat>)
  datatype Event = Take(tid: Tid, time: int) | Release(tid: Tid) | Expire(tid: Tid)
  datatype Outcome = Done | Timeout | NotOwner | Blocked

  /** What the calls so far amount to: the waiters in the order in which they came, for each thread
      its successful takes (hand-offs count) minus its releases, and the priorities of the threads
      that began to wait under the present owner. */
  datatype Ledger = Ledger(arrivals: seq<Waiter>, depth: map<Tid, int>, asked: seq<nat>)
  datatype Conf = Conf(s: State, g: Ledger)

  /** Whoever finds the mutex taken finds an owner, and all threads concerned exist. */
  ghost predicate WellFormed(s: State) {
    && s.value == (if s.owner.By? then 0 else 1)
    && (s.owner.By? ==> s.owner.tid in s.prio)
    && Tids(s.waiters) <= s.prio.Keys
  }

  /** A suspended thread makes no call, and only a suspended thread times out. */
  ghost predicate Enabled(s: State, e: Event) {
    e.tid in s.prio && (e.Expire? <==> e.tid in Tids(s.waiters))
  }

  function TakeStep(s: State, t: Tid, time: int, flag: Flag): (State, Outcome)
    requires WellFormed(s) && t in s.prio
  {
    if s.owner == By(t) then (s.(hold := (s.hold + 1) % U8), Done)
    else if s.value > 0 then
      (s.(value := s.value - 1, owner := By(t), original := s.prio[t], hold := (s.hold + 1) % U8), Done)
    else if time == 0 then (s, Timeout)
    else
      var o := s.owner.tid;
      (s.(prio := if s.prio[t] < s.prio[o] then s.prio[o := s.prio[t]] else s.prio,
          waiters := Suspended(s.waiters, Waiter(t, s.prio[t]), flag)), Blocked)
  }

  function ReleaseStep(s: State, t: Tid): (State, Outcome)
    requires WellFormed(s) && t in s.prio
  {
    if s.owner != By(t) then (s, NotOwner)
    else if s.hold > 1 then (s.(hold := s.hold - 1), Done)
    else
      var prio := s.prio[t := s.original];
      if s.waiters != [] then
        assert s.waiters[0].tid in Tids(s.waiters);
        var n := s.waiters[0].tid;
        (s.(owner := By(n), original := prio[n], hold := 1, waiters := s.waiters[1..], prio := prio), Done)
      else
        (s.(value := s.value + 1, owner := Nobody, original := NO_PRIORITY, hold := 0, prio := prio), Done)
  }

  function Step(s: State, e: Event, flag: Flag): (State, Outcome)
    requires WellFormed(s) && e.tid in s.prio
  {
    match e
    case Take(t, time) => TakeStep(s, t, time, flag)
    case Release(t) => ReleaseStep(s, t)
    case Expire(t) => (s.(waiters := Remove(s.waiters, t)), Done)
  }

  function Plus(depth: map<Tid, int>, t: Tid, n: int): map<Tid, int> {
    if t in depth then depth[t := depth[t] + n] else depth
  }

  /** The books, kept from the calls and their outcomes alone. */
  function Booked(g: Ledger, s: State, e: Event, s': State, r: Outcome): Ledger
    requires e.tid in s.prio
  {
    match e
    case Expire(t) => g.(arrivals := Remove(g.arrivals, t))
    case Take(t, _) =>
      if r.Blocked? then g.(arrivals := g.arrivals + [Waiter(t, s.prio[t])], asked := g.asked + [s.prio[t]])
      else if r.Done? then g.(depth := Plus(g.depth, t, 1), asked := if s.owner == s'.owner then g.asked else [])
      else g
    case Release(t) =>
      if !r.Done? then g
      else if s'.owner.By? && s'.owner != s.owner then
        Ledger(Remove(g.arrivals, s'.owner.tid), Plus(Plus(g.depth, t, -1), s'.owner.tid, 1), [])
      else g.(depth := Plus(g.depth, t, -1))
  }

  function Next(c: Conf, e: Event, flag: Flag): Conf
    requires WellFormed(c.s) && e.tid in c.s.prio
  {
    var (s', r) := Step(c.s, e, flag);
    Conf(s', Booked(c.g, c.s, e, s', r))
  }

  function Least(p: nat, others: seq<nat>): nat {
    if others == [] then p
    else
      var q := Least(p, others[..|others| - 1]);
      if others[|others| - 1] < q then others[|others| - 1] else q
  }

  /** No waiter is more urgent than p. */
  ghost predicate Outranks(p: nat, s: seq<Waiter>) {
    forall w | w in s :: p <= w.prio
  }

  ghost predicate Waiting(s: State, g: Ledger, flag: Flag) {
    && Unique(g.arrivals) && s.waiters == Queue(g.arrivals, flag)
    && (s.owner.Nobody? ==> g.arrivals == [])
    && (s.owner.By? ==> s.owner.tid !in Tids(g.arrivals))
    && forall w | w in g.arrivals :: w.tid in s.prio && s.prio[w.tid] == w.prio
  }

  ghost predicate Depths(s: State, g: Ledger) {
    && s.hold < U8 && (s.hold == 0 <==> s.owner.Nobody?)
    && g.depth.Keys == s.prio.Keys
    && forall t | t in g.depth :: g.depth[t] == if s.owner == By(t) then s.hold else 0
  }

  /** Priorities: only the owner's differs from its own one, by exactly what was asked of it. */
  ghost predicate Priorities(s: State, g: Ledger, base: map<Tid, nat>) {
    && s.prio.Keys == base.Keys
    && (forall t | t in base && s.owner != By(t) :: s.prio[t] == base[t])
    && (s.owner.Nobody? ==> s.original == NO_PRIORITY)
    && (s.owner.By? && s.owner.tid in base ==>
          s.original == base[s.owner.tid] && s.prio[s.owner.tid] == Least(s.original, g.asked))
  }

  ghost predicate NeverOutranked(s: State, flag: Flag) {
    flag.Prio? && s.owner.By? && s.owner.tid in s.prio ==> Outranks(s.prio[s.owner.tid], s.waiters)
  }

  ghost predicate Inv(c: Conf, base: map<Tid, nat>, flag: Flag) {
    && WellFormed(c.s) && Waiting(c.s, c.g, flag) && Depths(c.s, c.g)
    && Priorities(c.s, c.g, base) && NeverOutranked(c.s, flag)
  }

  lemma QueueMembers(a: seq<Waiter>, flag: Flag, w: Waiter)
    ensures w in Queue(a, flag) <==> w in a
  {
    QueueIsStableSort(a, flag);
    assert w in multiset(Queue(a, flag)) <==> w in multiset(a);
  }

  lemma WaitingBlocked(s: State, g: Ledger, flag: Flag, w: Waiter, s': State, g': Ledger)
    requires Waiting(s, g, flag) && w.tid !in Tids(s.waiters) && s.owner.By? && s.owner.tid != w.tid
    requires w.tid in s.prio && s.prio[w.tid] == w.prio && s.owner.tid in s.prio
    requires s'.owner == s.owner && s'.waiters == Suspended(s.waiters, w, flag) && g'.arrivals == g.arrivals + [w]
    requires s'.prio == s.prio || s'.prio == s.prio[s.owner.tid := w.prio]
    ensures Waiting(s', g', flag)
  {
    QueueTids(g.arrivals, flag);
    assert g'.arrivals[..|g.arrivals|] == g.arrivals;
    assert forall x | x in g.arrivals :: x.tid in Tids(g.arrivals);
  }

  lemma WaitingLeft(s: State, g: Ledger, flag: Flag, t: Tid, s': State, g': Ledger)
    requires Waiting(s, g, flag) && t in Tids(g.arrivals) && s.owner.By?
    requires s'.waiters == Remove(s.waiters, t) && g'.arrivals == Remove(g.arrivals, t)
    requires s'.owner == s.owner || s'.owner == By(t)
    requires s'.prio.Keys == s.prio.Keys && forall u | u in s.prio && u != s.owner.tid :: s'.prio[u] == s.prio[u]
    ensures Waiting(s', g', flag)
  {
    QueueRemove(g.arrivals, flag, t);
    RemoveTids(g.arrivals, t);
    forall w | w in g'.arrivals ensures w.tid in s'.prio && s'.prio[w.tid] == w.prio {
      RemoveSubset(g.arrivals, t, w);
      assert w.tid in Tids(g.arrivals);
    }
  }

  /** The head of a priority list is its most urgent waiter. */
  lemma HeadOutranks(a: seq<Waiter>, flag: Flag)
    requires flag.Prio? && Queue(a, flag) != []
    ensures Outranks(Queue(a, flag)[0].prio, Queue(a, flag))
  {
    QueueIsStableSort(a, flag);
    var q := Queue(a, flag);
    forall w | w in q ensures q[0].prio <= w.prio {
      HeadIsMostUrgent(q, w);
    }
  }

  lemma {:induction false} OutranksSuspended(p: nat, s: seq<Waiter>, w: Waiter, flag: Flag)
    requires Outranks(p, s) && p <= w.prio
    ensures Outranks(p, Suspended(s, w, flag))
  {
    forall x | x in Suspended(s, w, flag) ensures p <= x.prio {
      SuspendedMembers(s, w, flag, x);
    }
  }

  lemma TakeFreeKeeps(c: Conf, t: Tid, time: int, base: map<Tid, nat>, flag: Flag)
    requires Inv(c, base, flag) && Enabled(c.s, Take(t, time)) && c.s.owner.Nobody?
    ensures Inv(Next(c, Take(t, time), flag), base, flag)
  {
    QueueTids(c.g.arrivals, flag);
  }

  lemma TakeBlockedKeeps(c: Conf, t: Tid, time: int, base: map<Tid, nat>, flag: Flag)
    requires Inv(c, base, flag) && Enabled(c.s, Take(t, time)) && c.s.owner.By? && c.s.owner.tid != t && time != 0
    ensures Inv(Next(c, Take(t, time), flag), base, flag)
  {
    var c' := Next(c, Take(t, time), flag);
    var w, o := Waiter(t, c.s.prio[t]), c.s.owner.tid;
    WaitingBlocked(c.s, c.g, flag, w, c'.s, c'.g);
    assert c'.g.asked[..|c.g.asked|] == c.g.asked;
    assert Tids(c'.s.waiters) <= c'.s.prio.Keys by {
      QueueTids(c'.g.arrivals, flag);
    }
    if flag.Prio? {
      assert Outranks(c'.s.prio[o], c.s.waiters);
      OutranksSuspended(c'.s.prio[o], c.s.waiters, w, flag);
    }
  }

  lemma ReleaseKeeps(c: Conf, t: Tid, base: map<Tid, nat>, flag: Flag)
    requires Inv(c, base, flag) && Enabled(c.s, Release(t))
    ensures Inv(Next(c, Release(t), flag), base, flag)
  {
    var c' := Next(c, Release(t), flag);
    QueueTids(c.g.arrivals, flag);
    if c.s.owner == By(t) && c.s.hold <= 1 {
      if c.s.waiters != [] {
        HandOffKeeps(c, t, base, flag);
      } else {
        assert c.g.arrivals == [] by {
          assert forall w | w in c.g.arrivals :: w.tid in Tids(c.g.arrivals);
        }
      }
    }
  }

  lemma HandOffKeeps(c: Conf, t: Tid, base: map<Tid, nat>, flag: Flag)
    requires Inv(c, base, flag) && Enabled(c.s, Release(t)) && c.s.owner == By(t) && c.s.hold == 1 && c.s.waiters != []
    ensures Inv(Next(c, Release(t), flag), base, flag)
  {
    var c', w := Next(c, Release(t), flag), c.s.waiters[0];
    QueueTids(c.g.arrivals, flag);
    QueueMembers(c.g.arrivals, flag, w);
    assert w.tid in Tids(c.s.waiters);
    WaitingLeft(c.s, c.g, flag, w.tid, c'.s, c'.g);
    assert Tids(c'.s.waiters) <= Tids(c.s.waiters);
    if flag.Prio? {
      HeadOutranks(c.g.arrivals, flag);
    }
  }

  lemma ExpireKeeps(c: Conf, t: Tid, base: map<Tid, nat>, flag: Flag)
    requires Inv(c, base, flag) && Enabled(c.s, Expire(t))
    ensures Inv(Next(c, Expire(t), flag), base, flag)
  {
    var c' := Next(c, Expire(t), flag);
    QueueTids(c.g.arrivals, flag);
    WaitingLeft(c.s, c.g, flag, t, c'.s, c'.g);
    forall w | w in c'.s.waiters ensures w in c.s.waiters {
      RemoveSubset(c.s.waiters, t, w);
    }
  }

  /** A nested take fits its 8-bit counter. */
  predicate Fits(s: State, e: Event) {
    e.Take? && s.owner == By(e.tid) ==> s.hold + 1 < U8
  }

  /** A step keeps the invariant if and only if it does not overflow the hold counter. */
  lemma StepKeeps(c: Conf, e: Event, base: map<Tid, nat>, flag: Flag)
    requires Inv(c, base, flag) && Enabled(c.s, e)
    ensures Inv(Next(c, e, flag), base, flag) <==> Fits(c.s, e)
  {
    match e
    case Release(t) => ReleaseKeeps(c, t, base, flag);
    case Expire(t) => ExpireKeeps(c, t, base, flag);
    case Take(t, time) =>
      if c.s.owner.Nobody? {
        TakeFreeKeeps(c, t, time, base, flag);
      } else if c.s.owner.tid != t && time != 0 {
        TakeBlockedKeeps(c, t, time, base, flag);
      } else if c.s.owner.tid == t {
        assert Next(c, e, flag).s.hold == (c.s.hold + 1) % U8;
      }
  }

  // Runs.

  ghost predicate Run(c: Conf, es: seq<Event>, flag: Flag)
    decreases |es|
  {
    es == [] || (WellFormed(c.s) && Enabled(c.s, es[0]) && Fits(c.s, es[0]) && Run(Next(c, es[0], flag), es[1..], flag))
  }

  ghost function After(c: Conf, es: seq<Event>, flag: Flag): Conf
    requires Run(c, es, flag)
    decreases |es|
  {
    if es == [] then c else After(Next(c, es[0], flag), es[1..], flag)
  }

  /** rt_mutex_init. */
  function Initial(prio: map<Tid, nat>): Conf {
    Conf(State(1, Nobody, NO_PRIORITY, 0, [], prio), Ledger([], map t | t in prio :: 0, []))
  }

  lemma {:induction false} RunKeeps(c: Conf, es: seq<Event>, base: map<Tid, nat>, flag: Flag)
    requires Inv(c, base, flag) && Run(c, es, flag)
    ensures Inv(After(c, es, flag), base, flag)
    decreases |es|
  {
    if es != [] {
      StepKeeps(c, es[0], base, flag);
      RunKeeps(Next(c, es[0], flag), es[1..], base, flag);
    }
  }

  /** In every reachable state: the mutex is free iff nobody owns it iff it is not held, and then nobody
      waits; the owner holds it as often as it took it more than it released it; no waiter is more
      urgent than the owner, and the owner no more urgent than it or a thread that waited for it. */
  lemma Safety(prio: map<Tid, nat>, es: seq<Event>, flag: Flag)
    requires Run(Initial(prio), es, flag)
    ensures var c := After(Initial(prio), es, flag);
            && (c.s.value == 1 <==> c.s.owner.Nobody?) && (c.s.owner.Nobody? <==> c.s.hold == 0)
            && (c.s.value == 1 ==> c.s.waiters == [])
            && (forall t | t in prio :: t in c.s.prio && t in c.g.depth
                  && c.g.depth[t] == if c.s.owner == By(t) then c.s.hold else 0)
            && (forall t | t in prio && c.s.owner != By(t) :: c.s.prio[t] == prio[t])
            && (c.s.owner.By? ==>
                  c.s.owner.tid in prio && c.s.prio[c.s.owner.tid] == Least(prio[c.s.owner.tid], c.g.asked))
            && (c.s.owner.By? && flag.Prio? ==> forall w | w in c.s.waiters :: c.s.prio[c.s.owner.tid] <= w.prio)
  {
    assert Inv(Initial(prio), prio, flag);
    RunKeeps(Initial(prio), es, prio, flag);
  }

  // What each call answers, and what it leaves behind.

  /** Only the hold counter, the owner and what goes with it changed. */
  ghost predicate SameThreads(s: State, s': State) {
    s'.prio == s.prio && s'.waiters == s.waiters
  }

  /** A free mutex goes to the thread that takes it, and its owner takes it once more. If it has another owner the
      call reports a timeout and changes nothing if its caller gives it no time; with any other time, limited or
      not, the caller is suspended behind the waiters that come before it, and the owner becomes as urgent as the
      caller if it was less so. */
  lemma TakeAnswers(c: Conf, t: Tid, time: int, base: map<Tid, nat>, flag: Flag)
    requires Inv(c, base, flag) && Enabled(c.s, Take(t, time))
    ensures var s, (s', r) := c.s, Step(c.s, Take(t, time), flag);
            match s.owner
            case Nobody =>
              && r == Done && s'.owner == By(t) && s'.hold == 1 && s'.value == 0 && t in base && s'.original == base[t]
              && SameThreads(s, s')
            case By(o) =>
              if o == t then r == Done && s' == s.(hold := s'.hold) && (s.hold < 255 ==> s'.hold == s.hold + 1)
              else if time == 0 then r == Timeout && s' == s
              else
                && r == Blocked && s'.waiters == Queue(c.g.arrivals + [Waiter(t, s.prio[t])], flag)
                && s'.prio == s.prio[o := if s.prio[t] < s.prio[o] then s.prio[t] else s.prio[o]]
                && s'.value == 0 && s'.owner == s.owner && s'.hold == s.hold && s'.original == s.original
  {
    QueueTids(c.g.arrivals, flag);
    if c.s.owner.By? && c.s.owner.tid != t {
      ArrivedWaits(c.s.waiters, c.g.arrivals, Waiter(t, c.s.prio[t]), flag);
      assert c.s.prio[c.s.owner.tid := c.s.prio[c.s.owner.tid]] == c.s.prio;
    }
  }

  /** A waiter whose time is over leaves the list and nothing else changes: the owner stays as urgent as it was. */
  lemma ExpireAnswers(c: Conf, t: Tid, base: map<Tid, nat>, flag: Flag)
    requires Inv(c, base, flag) && Enabled(c.s, Expire(t))
    ensures var s' := Step(c.s, Expire(t), flag).0;
            && s'.waiters == Queue(Remove(c.g.arrivals, t), flag) && t !in Tids(s'.waiters)
            && s' == c.s.(waiters := s'.waiters)
  {
    ArrivedLeaves(c.s.waiters, c.g.arrivals, t, flag);
    UniqueQueue(c.g.arrivals, flag);
    RemoveTids(c.s.waiters, t);
  }

  /** Whoever does not own the mutex cannot release it. The last release gives the owner the priority it had when
      it acquired the mutex, and the mutex to the waiter that is to be woken first, or to nobody if none waits. */
  lemma FinalRelease(c: Conf, t: Tid, base: map<Tid, nat>, flag: Flag)
    requires Inv(c, base, flag) && Enabled(c.s, Release(t)) && t in base
    ensures c.s.owner != By(t) ==> ReleaseStep(c.s, t) == (c.s, NotOwner)
    ensures c.s.owner == By(t) && c.s.hold > 1 ==> ReleaseStep(c.s, t) == (c.s.(hold := c.s.hold - 1), Done)
    ensures c.s.owner == By(t) && c.s.hold == 1 ==>
              var (s', r) := ReleaseStep(c.s, t);
              && r == Done && s'.prio == c.s.prio[t := base[t]]
              && (if c.g.arrivals == [] then s'.owner.Nobody? && s'.value == 1 && s'.hold == 0 && s'.waiters == []
                  else exists w :: FirstOf(w, c.g.arrivals, flag)
                         && s'.owner == By(w.tid) && s'.hold == 1 && s'.value == 0
                         && w.tid in base && s'.original == base[w.tid] && s'.waiters == Remove(c.s.waiters, w.tid))
  {
    ArrivedWakes(c.s.waiters, c.g.arrivals, flag);
    if c.s.owner == By(t) && c.s.hold == 1 && c.g.arrivals != [] {
      var w := c.s.waiters[0];
      assert w.tid in Tids(c.g.arrivals) && w.tid in Tids(c.s.waiters);
    }
  }

  /** With a FIFO list a hand-off keeps the owner at least as urgent as the waiters exactly if the
      first to have come already is. */
  lemma FifoHandOff(c: Conf, t: Tid, base: map<Tid, nat>)
    requires Inv(c, base, Fifo) && c.s.owner == By(t) && c.s.hold == 1 && c.s.waiters != [] && t in base
    ensures var s' := ReleaseStep(c.s, t).0;
            s'.owner.By? && s'.owner.tid in s'.prio
            && (Outranks(s'.prio[s'.owner.tid], s'.waiters) <==> Outranks(c.s.waiters[0].prio, c.s.waiters))
  {
    var w := c.s.waiters[0];
    QueueMembers(c.g.arrivals, Fifo, w);
    assert w.tid in Tids(c.g.arrivals);
    assert c.s.waiters == [w] + c.s.waiters[1..];
  }

  ghost predicate HandsOver(s: State, e: Event) {
    e.Release? && s.owner == By(e.tid) && s.hold == 1 && s.waiters != []
  }

  /** No waiter is more urgent than the owner. */
  ghost predicate OwnerFirst(s: State) {
    s.owner.By? && s.owner.tid in s.prio ==> Outranks(s.prio[s.owner.tid], s.waiters)
  }

  /** Every other step of a FIFO mutex keeps the owner at least as urgent as the waiters. */
  lemma FifoKeeps(c: Conf, e: Event, base: map<Tid, nat>)
    requires Inv(c, base, Fifo) && Enabled(c.s, e) && Fits(c.s, e) && OwnerFirst(c.s)
    ensures OwnerFirst(Next(c, e, Fifo).s) <==> (HandsOver(c.s, e) ==> Outranks(c.s.waiters[0].prio, c.s.waiters))
  {
    var s' := Next(c, e, Fifo).s;
    match e
    case Release(t) => if HandsOver(c.s, e) { FifoHandOff(c, t, base); }
    case Expire(t) =>
      forall w | w in s'.waiters ensures w in c.s.waiters {
        RemoveSubset(c.s.waiters, t, w);
      }
    case Take(t, time) =>
      if c.s.owner.By? && c.s.owner.tid != t && time != 0 {
        var o := c.s.owner.tid;
        assert Outranks(s'.prio[o], c.s.waiters);
        OutranksSuspended(s'.prio[o], c.s.waiters, Waiter(t, c.s.prio[t]), Fifo);
      } else {
        QueueTids(c.g.arrivals, Fifo);
        assert forall w | w in c.s.waiters :: w.tid in Tids(c.s.waiters);
      }
  }

  lemma RunFrom(c: Conf, e: Event, es: seq<Event>, flag: Flag)
    requires WellFormed(c.s) && Enabled(c.s, e) && Fits(c.s, e) && Run(Next(c, e, flag), es, flag)
    ensures Run(c, [e] + es, flag) && After(c, [e] + es, flag) == After(Next(c, e, flag), es, flag)
  {
    assert ([e] + es)[1..] == es;
  }

  /** It can fail to be: 1 owns the mutex, 2 comes before the more urgent 3, and 1 releases. */
  lemma FifoOutranked(c: Conf)
    requires c == Initial(map[1 := 5, 2 := 20, 3 := 10])
    ensures var es := [Take(1, -1)] + ([Take(2, -1)] + ([Take(3, -1)] + ([Release(1)] + [])));
            && Run(c, es, Fifo)
            && After(c, es, Fifo).s == State(0, By(2), 20, 1, [Waiter(3, 10)], c.s.prio)
  {
    var prio := c.s.prio;
    var c1 := Next(c, Take(1, -1), Fifo);
    assert c1.s == State(0, By(1), 5, 1, [], prio);
    var c2 := Next(c1, Take(2, -1), Fifo);
    assert c2.s == State(0, By(1), 5, 1, [Waiter(2, 20)], prio);
    var c3 := Next(c2, Take(3, -1), Fifo);
    assert c3.s == State(0, By(1), 5, 1, [Waiter(2, 20), Waiter(3, 10)], prio);
    var c4 := Next(c3, Release(1), Fifo);
    assert prio[1 := 5] == prio;
    assert c4.s == State(0, By(2), 20, 1, [Waiter(3, 10)], prio);
    RunFrom(c3, Release(1), [], Fifo);
    RunFrom(c2, Take(3, -1), [Release(1)] + [], Fifo);
    RunFrom(c1, Take(2, -1), [Take(3, -1)] + ([Release(1)] + []), Fifo);
    RunFrom(c, Take(1, -1), [Take(2, -1)] + ([Take(3, -1)] + ([Release(1)] + [])), Fifo);
  }

  function Takes(t: Tid, n: nat): seq<Event> {
    if n == 0 then [] else [Take(t, -1)] + Takes(t, n - 1)
  }

  lemma {:induction false} TakesRun(c: Conf, t: Tid, n: nat, flag: Flag)
    requires WellFormed(c.s) && t in c.s.prio && c.s.owner == By(t) && c.s.waiters == [] && c.s.hold + n < U8
    ensures Run(c, Takes(t, n), flag) && After(c, Takes(t, n), flag).s == c.s.(hold := c.s.hold + n)
    decreases n
  {
    if n > 0 {
      var e := Take(t, -1);
      TakesRun(Next(c, e, flag), t, n - 1, flag);
      RunFrom(c, e, Takes(t, n - 1), flag);
    }
  }

  /** The limit of the hold counter is within reach: after 255 takes, one more makes it 0 while the thread
      owns the mutex. */
  lemma HoldLimit(prio: map<Tid, nat>, t: Tid, flag: Flag)
    requires t in prio
    ensures Run(Initial(prio), Takes(t, 255), flag)
    ensures var c := After(Initial(prio), Takes(t, 255), flag);
            && c.s.owner == By(t) && c.s.hold == 255 && Inv(c, prio, flag)
            && var c' := Next(c, Take(t, -1), flag); c'.s.owner == By(t) && c'.s.hold == 0 && !Inv(c', prio, flag)
  {
    var c, e := Initial(prio), Take(t, -1);
    var c1 := Next(c, e, flag);
    TakesRun(c1, t, 254, flag);
    assert Takes(t, 255) == [e] + Takes(t, 254);
    RunFrom(c, e, Takes(t, 254), flag);
    assert Inv(c, prio, flag);
    RunKeeps(c, Takes(t, 255), prio, flag);
  }

  class Mutex {
    var value: nat               // 16-bit, but never more than 1
    var owner: Owner
    var original: nat            // original_priority
    var hold: nat                // 8-bit
    const flag: Flag
    var waiters: seq<Waiter>     // suspend_thread
    var prio: map<Tid, nat>      // current_priority of every thread

    ghost function Abs(): State
      reads this
    {
      State(value, owner, original, hold, waiters, prio)
    }

    constructor (flag: Flag, prio: map<Tid, nat>)
      ensures Abs() == Initial(prio).s && this.flag == flag
    {
      value, owner, original, hold := 1, Nobody, NO_PRIORITY, 0;
      this.flag, waiters, this.prio := flag, [], prio;
    }

    /** rt_thread_control with RT_THREAD_CTRL_CHANGE_PRIORITY. */
    method ChangePriority(t: Tid, p: nat)
      modifies `prio
      ensures prio == old(prio)[t := p]
    {
      prio := prio[t := p];
    }

    /** rt_mutex_take by thread `t`, up to the point where it returns or is suspended. */
    method Take(t: Tid, time: int) returns (ret: Outcome)
      requires WellFormed(Abs()) && Enabled(Abs(), Event.Take(t, time))
      modifies this
      ensures (Abs(), ret) == Step(old(Abs()), Event.Take(t, time), flag)
    {
      if owner == By(t) {
        hold := (hold + 1) % U8;
        return Done;
      }
      if value > 0 {
        value := value - 1;
        owner, original := By(t), prio[t];
        hold := (hold + 1) % U8;
        return Done;
      }
      if time == 0 {
        return Timeout;
      }
      var p := prio[t];
      if p < prio[owner.tid] {
        ChangePriority(owner.tid, p);
      }
      waiters := ListSuspend(waiters, Waiter(t, p), flag);
      ret := Blocked;
    }

    /** rt_mutex_release by thread `t`. */
    method Release(t: Tid) returns (ret: Outcome)
      requires WellFormed(Abs()) && Enabled(Abs(), Event.Release(t))
      modifies this
      ensures (Abs(), ret) == Step(old(Abs()), Event.Release(t), flag)
    {
      if owner != By(t) {
        return NotOwner;
      }
      if hold > 0 {
        hold := hold - 1;
      }
      if hold == 0 {
        if original != prio[t] {
          ChangePriority(t, original);
        }
        assert prio == old(prio)[t := original];
        if waiters != [] {
          assert waiters[0].tid in Tids(waiters);
          owner := By(waiters[0].tid);
          original := prio[waiters[0].tid];
          hold := hold + 1;
          waiters := waiters[1..];
        } else {
          value := value + 1;
          owner := Nobody;
          original := NO_PRIORITY;
        }
      }
      ret := Done;
    }

    /** rt_thread_timeout of a thread that is suspended here. */
    method Expire(t: Tid)
      requires WellFormed(Abs()) && Enabled(Abs(), Event.Expire(t))
      modifies `waiters
      ensures Abs() == Step(old(Abs()), Event.Expire(t), flag).0
    {
      waiters := Remove(waiters, t);
    }
  }
}
