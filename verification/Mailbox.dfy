/** Mailboxes (rt_mb_init, rt_mb_send_wait, rt_mb_recv, rt_mb_control): a ring buffer of 32-bit mails
    with threads blocked on both sides. A call that blocks is cut where it suspends: its rest is a
    step of its own, and any other steps may come between. */
module Mailbox {
  import opened WaitList
  import opened Words

  type Mail = int


  datatype Status = Done | Full | Timeout | Blocked

  /** The object; `suspended`, the threads it put into the SUSPEND state; and `calls`, the mails of the
      senders blocked in their calls. */
  datatype State = State(pool: seq<Mail>, entry: nat, inOffset: nat, outOffset: nat,
                         receivers: seq<Waiter>, senders: seq<Waiter>, suspended: set<Tid>, calls: map<Tid, Mail>)

  /** `again` marks the next turn of a blocked call's loop, after its thread was woken. */
  datatype Event =
    | Send(tid: Tid, prio: nat, value: Mail, timeout: int, again: bool)
    | Recv(tid: Tid, prio: nat, timeout: int, again: bool)
    | Expire(tid: Tid)
    | Reset

  /** The waiting receivers and senders in the order in which they came; those that were woken and have
      not run since; all mails sent and received since the initialization or the last reset. */
  datatype Ledger = Ledger(arrivedR: seq<Waiter>, arrivedS: seq<Waiter>, wokenR: seq<Waiter>, wokenS: seq<Waiter>,
                           sent: seq<Mail>, received: seq<Mail>)
  datatype Conf = Conf(s: State, g: Ledger)

  /** Cell k of the ring that starts at `o`. */
  function Cell(o: nat, k: nat, size: nat): nat {
    if o + k >= size then o + k - size else o + k
  }

  function Ring(pool: seq<Mail>, o: nat, n: nat): seq<Mail>
    requires n <= |pool| && (n > 0 ==> o < |pool|)
  {
    if n == 0 then [] else Ring(pool, o, n - 1) + [pool[Cell(o, n - 1, |pool|)]]
  }

  lemma Multiple(q: int, s: int)
    requires s > 0
    ensures q >= 1 ==> q * s >= s
    ensures q <= -1 ==> q * s <= -s
  {
    if q >= 1 {
      assert (q - 1) * s >= 0;
    } else if q <= -1 {
      assert (q + 1) * s <= 0;
    }
  }

  lemma CellIsMod(o: nat, k: nat, size: nat)
    requires o < size && k <= size
    ensures Cell(o, k, size) == (o + k) % size
  {
    var x := o + k;
    var q, r, c := x / size, x % size, if x >= size then 1 else 0;
    assert x == q * size + r;
    assert (q - c) * size == q * size - c * size;
    Multiple(q - c, size);
  }

  lemma {:induction false} RingSame(pool: seq<Mail>, pool': seq<Mail>, o: nat, m: nat, n: nat)
    requires |pool| == |pool'| && m <= n < |pool| && o < |pool|
             && pool' == pool[Cell(o, n, |pool|) := pool'[Cell(o, n, |pool|)]]
    ensures Ring(pool', o, m) == Ring(pool, o, m)
  {
    if m > 0 {
      RingSame(pool, pool', o, m - 1, n);
    }
  }

  /** Writing behind the last mail appends it. */
  lemma RingPut(pool: seq<Mail>, o: nat, n: nat, v: Mail)
    requires n < |pool| && o < |pool|
    ensures Ring(pool[Cell(o, n, |pool|) := v], o, n + 1) == Ring(pool, o, n) + [v]
  {
    RingSame(pool, pool[Cell(o, n, |pool|) := v], o, n, n);
  }

  /** Moving the start drops the first mail. */
  lemma {:induction false} RingGet(pool: seq<Mail>, o: nat, n: nat)
    requires 0 < n <= |pool| && o < |pool|
    ensures Ring(pool, o, n) == [pool[o]] + Ring(pool, Cell(o, 1, |pool|), n - 1)
  {
    if n > 1 {
      RingGet(pool, o, n - 1);
      assert Cell(Cell(o, 1, |pool|), n - 2, |pool|) == Cell(o, n - 1, |pool|);
    }
  }

  function Advanced(o: nat, size: nat): nat {
    if o + 1 >= size then 0 else o + 1
  }

  ghost predicate WellFormed(s: State) {
    && s.entry <= |s.pool| < U16
    && (if |s.pool| == 0 then s.inOffset == 0 && s.outOffset == 0
        else s.outOffset < |s.pool| && s.inOffset == (s.outOffset + s.entry) % |s.pool|)
  }

  function Contents(s: State): seq<Mail>
    requires WellFormed(s)
  {
    Ring(s.pool, s.outOffset, s.entry)
  }

  ghost function SendStep(s: State, t: Tid, prio: nat, value: Mail, timeout: int, flag: Flag): (State, Status)
    requires WellFormed(s)
  {
    if s.entry < |s.pool| then
      (s.(pool := s.pool[s.inOffset := value], inOffset := Advanced(s.inOffset, |s.pool|), entry := s.entry + 1,
          receivers := Resumed(s.receivers), suspended := s.suspended - Tids(Head(s.receivers))), Done)
    else if timeout == 0 then (s, Full)
    else
      (s.(senders := Suspended(s.senders, Waiter(t, prio), flag), suspended := s.suspended + {t},
          calls := s.calls[t := value]), Blocked)
  }

  /** A call that finds the box empty and may not wait reports that it is full. */
  ghost function RecvStep(s: State, t: Tid, prio: nat, timeout: int, again: bool, flag: Flag): (State, Status)
    requires WellFormed(s)
  {
    if s.entry > 0 then
      (s.(outOffset := Advanced(s.outOffset, |s.pool|), entry := s.entry - 1,
          senders := Resumed(s.senders), suspended := s.suspended - Tids(Head(s.senders))), Done)
    else if timeout == 0 then (s, if again then Timeout else Full)
    else (s.(receivers := Suspended(s.receivers, Waiter(t, prio), flag), suspended := s.suspended + {t}), Blocked)
  }

  ghost function Step(s: State, e: Event, flag: Flag): (State, Status)
    requires WellFormed(s)
  {
    match e
    case Send(t, prio, value, timeout, _) => SendStep(s, t, prio, value, timeout, flag)
    case Recv(t, prio, timeout, again) => RecvStep(s, t, prio, timeout, again, flag)
    case Expire(t) =>
      (s.(receivers := Remove(s.receivers, t), senders := Remove(s.senders, t), suspended := s.suspended - {t}), Done)
    case Reset =>
      (s.(entry := 0, inOffset := 0, outOffset := 0, receivers := [], senders := [],
          suspended := s.suspended - Tids(s.receivers) - Tids(s.senders)), Done)
  }

  /** Who makes a call is not suspended; who goes on with one was woken for it. */
  ghost predicate Enabled(c: Conf, e: Event) {
    match e
    case Send(t, _, value, _, again) =>
      && t !in Tids(c.s.receivers) && t !in Tids(c.s.senders) && t !in Tids(c.g.wokenR)
      && (again <==> t in Tids(c.g.wokenS)) && (again ==> t in c.s.calls && c.s.calls[t] == value)
    case Recv(t, _, _, again) =>
      && t !in Tids(c.s.receivers) && t !in Tids(c.s.senders) && t !in Tids(c.g.wokenS)
      && (again <==> t in Tids(c.g.wokenR))
    case Expire(t) => t in Tids(c.s.receivers) + Tids(c.s.senders)
    case Reset => true
  }

  ghost function Booked(g: Ledger, s: State, e: Event, r: Status): Ledger
    requires WellFormed(s)
  {
    match e
    case Send(t, prio, value, _, _) =>
      if r.Done? then
        g.(arrivedR := Remaining(g.arrivedR, Head(s.receivers)), wokenS := Remove(g.wokenS, t),
           wokenR := g.wokenR + Head(s.receivers), sent := g.sent + [value])
      else if r.Blocked? then g.(arrivedS := g.arrivedS + [Waiter(t, prio)], wokenS := Remove(g.wokenS, t))
      else g.(wokenS := Remove(g.wokenS, t))
    case Recv(t, prio, _, _) =>
      if r.Done? && s.outOffset < |s.pool| then
        g.(arrivedS := Remaining(g.arrivedS, Head(s.senders)), wokenR := Remove(g.wokenR, t),
           wokenS := g.wokenS + Head(s.senders), received := g.received + [s.pool[s.outOffset]])
      else if r.Blocked? then g.(arrivedR := g.arrivedR + [Waiter(t, prio)], wokenR := Remove(g.wokenR, t))
      else g.(wokenR := Remove(g.wokenR, t))
    case Expire(t) => g.(arrivedR := Remove(g.arrivedR, t), arrivedS := Remove(g.arrivedS, t))
    case Reset => g.(arrivedR := [], arrivedS := [], sent := [], received := [])
  }

  ghost function Next(c: Conf, e: Event, flag: Flag): Conf
    requires WellFormed(c.s)
  {
    var (s', r) := Step(c.s, e, flag);
    Conf(s', Booked(c.g, c.s, e, r))
  }

  /** The mails come out in the order in which they went in. */
  ghost predicate FifoSoFar(sent: seq<Mail>, received: seq<Mail>, contents: seq<Mail>) {
    sent == received + contents
  }

  lemma SentOne(sent: seq<Mail>, received: seq<Mail>, contents: seq<Mail>, value: Mail)
    requires FifoSoFar(sent, received, contents)
    ensures FifoSoFar(sent + [value], received, contents + [value])
  {}

  lemma ReceivedOne(sent: seq<Mail>, received: seq<Mail>, value: Mail, contents: seq<Mail>)
    requires FifoSoFar(sent, received, [value] + contents)
    ensures FifoSoFar(sent, received + [value], contents)
  {}

  ghost predicate Counts(c: Conf) {
    Awaited(c.s.receivers, c.g.wokenR, c.s.entry) && Awaited(c.s.senders, c.g.wokenS, |c.s.pool| - c.s.entry)
  }

  ghost predicate Places(c: Conf) {
    && Placed(c.s.receivers, c.g.wokenR) && Placed(c.s.senders, c.g.wokenS)
    && (Tids(c.s.receivers) + Tids(c.g.wokenR)) !! (Tids(c.s.senders) + Tids(c.g.wokenS))
    && Tids(c.s.receivers) + Tids(c.s.senders) <= c.s.suspended
  }

  /** Blocked and woken senders still have their mails in hand. */
  ghost predicate InHand(c: Conf) {
    Tids(c.s.senders) + Tids(c.g.wokenS) <= c.s.calls.Keys
  }

  /** The lists are those that the arrivals make. */
  ghost predicate Order(c: Conf, flag: Flag) {
    Arrived(c.s.receivers, c.g.arrivedR, flag) && Arrived(c.s.senders, c.g.arrivedS, flag)
  }

  ghost predicate Inv(c: Conf, flag: Flag) {
    && WellFormed(c.s) && FifoSoFar(c.g.sent, c.g.received, Contents(c.s))
    && Counts(c) && Places(c) && InHand(c) && Order(c, flag)
  }

  /** A send that finds room appends its mail. */
  lemma SendAppends(s: State, t: Tid, prio: nat, value: Mail, timeout: int, flag: Flag)
    requires WellFormed(s) && s.entry < |s.pool|
    ensures var s' := SendStep(s, t, prio, value, timeout, flag).0;
            WellFormed(s') && Contents(s') == Contents(s) + [value]
  {
    CellIsMod(s.outOffset, s.entry, |s.pool|);
    CellIsMod(s.outOffset, s.entry + 1, |s.pool|);
    RingPut(s.pool, s.outOffset, s.entry, value);
  }

  /** A receive that finds a mail takes the oldest one. */
  lemma RecvTakesOldest(s: State, t: Tid, prio: nat, timeout: int, again: bool, flag: Flag)
    requires WellFormed(s) && s.entry > 0
    ensures var s' := RecvStep(s, t, prio, timeout, again, flag).0;
            WellFormed(s') && Contents(s) == [s.pool[s.outOffset]] + Contents(s')
  {
    CellIsMod(s.outOffset, s.entry, |s.pool|);
    RingGet(s.pool, s.outOffset, s.entry);
    CellIsMod(Cell(s.outOffset, 1, |s.pool|), s.entry - 1, |s.pool|);
  }

  lemma CountsKept(c: Conf, e: Event, flag: Flag)
    requires WellFormed(c.s) && Counts(c)
    ensures Counts(Next(c, e, flag))
  {
    if e.Send? || e.Recv? {
      RemoveLength(c.g.wokenS, e.tid);
      RemoveLength(c.g.wokenR, e.tid);
    } else if e.Expire? {
      RemoveLength(c.s.receivers, e.tid);
      RemoveLength(c.s.senders, e.tid);
    }
  }

  lemma SendPlaces(c: Conf, e: Event, flag: Flag)
    requires WellFormed(c.s) && Places(c) && InHand(c) && e.Send? && Enabled(c, e)
    ensures Places(Next(c, e, flag)) && InHand(Next(c, e, flag))
  {
    PlacedRuns(c.s.senders, c.g.wokenS, e.tid);
    if c.s.entry < |c.s.pool| {
      PlacedWake(c.s.receivers, c.g.wokenR);
    } else if e.timeout != 0 {
      PlacedWaits(c.s.senders, Remove(c.g.wokenS, e.tid), Waiter(e.tid, e.prio), flag);
    }
  }

  lemma RecvPlaces(c: Conf, e: Event, flag: Flag)
    requires WellFormed(c.s) && Places(c) && InHand(c) && e.Recv? && Enabled(c, e)
    ensures Places(Next(c, e, flag)) && InHand(Next(c, e, flag))
  {
    PlacedRuns(c.s.receivers, c.g.wokenR, e.tid);
    if c.s.entry > 0 {
      PlacedWake(c.s.senders, c.g.wokenS);
    } else if e.timeout != 0 {
      PlacedWaits(c.s.receivers, Remove(c.g.wokenR, e.tid), Waiter(e.tid, e.prio), flag);
    }
  }

  lemma OtherPlaces(c: Conf, e: Event, flag: Flag)
    requires WellFormed(c.s) && Places(c) && InHand(c) && (e.Expire? || e.Reset?)
    ensures Places(Next(c, e, flag)) && InHand(Next(c, e, flag))
  {
    if e.Expire? {
      PlacedExpires(c.s.receivers, c.g.wokenR, e.tid);
      PlacedExpires(c.s.senders, c.g.wokenS, e.tid);
    }
  }

  lemma SendOrder(c: Conf, e: Event, flag: Flag)
    requires WellFormed(c.s) && Order(c, flag) && e.Send? && Enabled(c, e)
    ensures Order(Next(c, e, flag), flag)
  {
    if c.s.entry < |c.s.pool| {
      ArrivedWakes(c.s.receivers, c.g.arrivedR, flag);
    } else if e.timeout != 0 {
      ArrivedWaits(c.s.senders, c.g.arrivedS, Waiter(e.tid, e.prio), flag);
    }
  }

  lemma RecvOrder(c: Conf, e: Event, flag: Flag)
    requires WellFormed(c.s) && Order(c, flag) && e.Recv? && Enabled(c, e)
    ensures Order(Next(c, e, flag), flag)
  {
    if c.s.entry > 0 {
      ArrivedWakes(c.s.senders, c.g.arrivedS, flag);
    } else if e.timeout != 0 {
      ArrivedWaits(c.s.receivers, c.g.arrivedR, Waiter(e.tid, e.prio), flag);
    }
  }

  lemma OtherOrder(c: Conf, e: Event, flag: Flag)
    requires WellFormed(c.s) && Order(c, flag) && (e.Expire? || e.Reset?)
    ensures Order(Next(c, e, flag), flag)
  {
    if e.Expire? {
      ArrivedLeaves(c.s.receivers, c.g.arrivedR, e.tid, flag);
      ArrivedLeaves(c.s.senders, c.g.arrivedS, e.tid, flag);
    }
  }

  lemma FifoKept(c: Conf, e: Event, flag: Flag)
    requires WellFormed(c.s) && FifoSoFar(c.g.sent, c.g.received, Contents(c.s))
    ensures var c' := Next(c, e, flag); WellFormed(c'.s) && FifoSoFar(c'.g.sent, c'.g.received, Contents(c'.s))
  {
    if e.Send? && c.s.entry < |c.s.pool| {
      SendAppends(c.s, e.tid, e.prio, e.value, e.timeout, flag);
      SentOne(c.g.sent, c.g.received, Contents(c.s), e.value);
    } else if e.Recv? && c.s.entry > 0 {
      RecvTakesOldest(c.s, e.tid, e.prio, e.timeout, e.again, flag);
      ReceivedOne(c.g.sent, c.g.received, c.s.pool[c.s.outOffset], Contents(Next(c, e, flag).s));
    }
  }

  /** What every step keeps. */
  lemma StepKeeps(c: Conf, e: Event, flag: Flag)
    requires Inv(c, flag) && Enabled(c, e)
    ensures Inv(Next(c, e, flag), flag)
  {
    CountsKept(c, e, flag);
    FifoKept(c, e, flag);
    if e.Send? {
      SendPlaces(c, e, flag);
      SendOrder(c, e, flag);
    } else if e.Recv? {
      RecvPlaces(c, e, flag);
      RecvOrder(c, e, flag);
    } else {
      OtherPlaces(c, e, flag);
      OtherOrder(c, e, flag);
    }
  }

  // What each call answers, and what it leaves behind.

  ghost predicate SameBox(s: State, s': State) {
    s'.pool == s.pool && s'.entry == s.entry && s'.inOffset == s.inOffset && s'.outOffset == s.outOffset
  }

  /** A send to a box with room returns at once; the receiver that is to be woken first is woken, and nobody
      else is concerned. */
  lemma SendGoes(c: Conf, e: Event, flag: Flag)
    requires Inv(c, flag) && Enabled(c, e) && e.Send? && c.s.entry < |c.s.pool|
    ensures Step(c.s, e, flag).1 == Done
    ensures var s, c' := c.s, Next(c, e, flag);
            && WellFormed(c'.s) && Contents(c'.s) == Contents(s) + [e.value] && c'.g.sent == c.g.sent + [e.value]
            && c'.s.senders == s.senders && c'.s.calls == s.calls
            && WakesFirst(c.g.arrivedR, s.receivers, c.g.wokenR, s.suspended,
                   c'.s.receivers, c'.g.wokenR, c'.s.suspended, flag)
  {
    SendAppends(c.s, e.tid, e.prio, e.value, e.timeout, flag);
    HeadWakesFirst(c.g.arrivedR, c.s.receivers, c.g.wokenR, c.s.suspended, flag);
  }

  /** A send to a full box reports it and changes nothing if its caller gives it no time; with any other time,
      limited or not, its caller is suspended behind the senders that come before it, its mail in hand. */
  lemma SendWaits(c: Conf, e: Event, flag: Flag)
    requires Inv(c, flag) && Enabled(c, e) && e.Send? && c.s.entry == |c.s.pool|
    ensures var s, (s', r) := c.s, Step(c.s, e, flag);
            if e.timeout == 0 then r == Full && s' == s
            else
              && r == Blocked && s'.senders == Queue(c.g.arrivedS + [Waiter(e.tid, e.prio)], flag)
              && s'.suspended == s.suspended + {e.tid} && s'.receivers == s.receivers && SameBox(s, s')
              && e.tid in s'.calls && s'.calls[e.tid] == e.value && s'.calls - {e.tid} == s.calls - {e.tid}
  {
    ArrivedWaits(c.s.senders, c.g.arrivedS, Waiter(e.tid, e.prio), flag);
  }

  /** A receive from a box that is not empty returns at once with the oldest mail; the sender that is to be woken
      first is woken, and nobody else is concerned. */
  lemma RecvGoes(c: Conf, e: Event, flag: Flag)
    requires Inv(c, flag) && Enabled(c, e) && e.Recv? && c.s.entry > 0
    ensures Step(c.s, e, flag).1 == Done && Contents(c.s) != []
    ensures var s, c' := c.s, Next(c, e, flag);
            && WellFormed(c'.s) && Contents(c'.s) == Contents(s)[1..]
            && c'.g.received == c.g.received + [Contents(s)[0]]
            && c'.s.receivers == s.receivers && c'.s.calls == s.calls
            && WakesFirst(c.g.arrivedS, s.senders, c.g.wokenS, s.suspended,
                   c'.s.senders, c'.g.wokenS, c'.s.suspended, flag)
  {
    RecvTakesOldest(c.s, e.tid, e.prio, e.timeout, e.again, flag);
    HeadWakesFirst(c.g.arrivedS, c.s.senders, c.g.wokenS, c.s.suspended, flag);
  }

  /** A receive from an empty box changes nothing if its caller gives it no time, and reports a timeout only if
      it had waited before; with any other time its caller is suspended behind the receivers that come before
      it. */
  lemma RecvWaits(c: Conf, e: Event, flag: Flag)
    requires Inv(c, flag) && Enabled(c, e) && e.Recv? && c.s.entry == 0
    ensures var s, (s', r) := c.s, Step(c.s, e, flag);
            if e.timeout == 0 then r == (if e.again then Timeout else Full) && s' == s
            else
              && r == Blocked && s'.receivers == Queue(c.g.arrivedR + [Waiter(e.tid, e.prio)], flag)
              && s'.suspended == s.suspended + {e.tid} && s'.senders == s.senders && SameBox(s, s')
              && s'.calls == s.calls
  {
    ArrivedWaits(c.s.receivers, c.g.arrivedR, Waiter(e.tid, e.prio), flag);
  }

  /** A thread whose time is over leaves its list, and the others wait on in the order in which they came; a reset
      empties the box and wakes everybody. */
  lemma WaitEnds(c: Conf, e: Event, flag: Flag)
    requires Inv(c, flag) && Enabled(c, e) && (e.Expire? || e.Reset?)
    ensures var s, s' := c.s, Step(c.s, e, flag).0;
            if e.Expire? then
              && s'.receivers == Queue(Remove(c.g.arrivedR, e.tid), flag)
              && s'.senders == Queue(Remove(c.g.arrivedS, e.tid), flag)
              && e.tid !in Tids(s'.receivers) + Tids(s'.senders) && s'.suspended == s.suspended - {e.tid}
              && SameBox(s, s') && s'.calls == s.calls
            else
              && WellFormed(s') && Contents(s') == [] && s'.receivers == [] && s'.senders == [] && s'.calls == s.calls
              && s'.suspended == s.suspended - Tids(s.receivers) - Tids(s.senders)
  {
    if e.Expire? {
      ArrivedLeaves(c.s.receivers, c.g.arrivedR, e.tid, flag);
      ArrivedLeaves(c.s.senders, c.g.arrivedS, e.tid, flag);
      RemoveTids(c.s.receivers, e.tid);
      RemoveTids(c.s.senders, e.tid);
    }
  }

  // Runs.

  ghost predicate Run(c: Conf, es: seq<Event>, flag: Flag)
    decreases |es|
  {
    es == [] || (WellFormed(c.s) && Enabled(c, es[0]) && Run(Next(c, es[0], flag), es[1..], flag))
  }

  ghost function After(c: Conf, es: seq<Event>, flag: Flag): Conf
    requires Run(c, es, flag)
    decreases |es|
  {
    if es == [] then c else After(Next(c, es[0], flag), es[1..], flag)
  }

  /** rt_mb_init. */
  function Initial(pool: seq<Mail>): Conf {
    Conf(State(pool, 0, 0, 0, [], [], {}, map[]), Ledger([], [], [], [], [], []))
  }

  lemma {:induction false} RunKeeps(c: Conf, es: seq<Event>, flag: Flag)
    requires Inv(c, flag) && Run(c, es, flag)
    ensures Inv(After(c, es, flag), flag)
    decreases |es|
  {
    if es != [] {
      StepKeeps(c, es[0], flag);
      RunKeeps(Next(c, es[0], flag), es[1..], flag);
    }
  }

  /** In every reachable state: the lists are the orders of arrival, stably sorted by priority if the flag says so
      (WaitList.QueueIsStableSort); the offsets are those of a ring; the mails received are the first of
      the mails sent, in order, and the box holds the others; and no wake-up was lost: if receivers
      wait, a woken receiver is under way for every mail, and likewise for senders and free cells. */
  lemma BoundedFifo(pool: seq<Mail>, es: seq<Event>, flag: Flag)
    requires |pool| < U16 && Run(Initial(pool), es, flag)
    ensures var c := After(Initial(pool), es, flag);
            && WellFormed(c.s) && c.g.sent == c.g.received + Contents(c.s) && |Contents(c.s)| == c.s.entry
            && (c.s.receivers != [] ==> c.s.entry <= |c.g.wokenR|) && Unique(c.g.wokenR)
            && (c.s.senders != [] ==> |c.s.pool| - c.s.entry <= |c.g.wokenS|) && Unique(c.g.wokenS)
            && Tids(c.s.receivers) + Tids(c.g.wokenR) !! Tids(c.s.senders) + Tids(c.g.wokenS)
            && c.s.receivers == Queue(c.g.arrivedR, flag) && c.s.senders == Queue(c.g.arrivedS, flag)
  {
    RunKeeps(Initial(pool), es, flag);
    var c := After(Initial(pool), es, flag);
    RingLength(c.s.pool, c.s.outOffset, c.s.entry);
  }

  lemma {:induction false} RingLength(pool: seq<Mail>, o: nat, n: nat)
    requires n <= |pool| && (n > 0 ==> o < |pool|)
    ensures |Ring(pool, o, n)| == n
  {
    if n > 0 {
      RingLength(pool, o, n - 1);
    }
  }

  class Mailbox {
    const pool: array<Mail>      // msg_pool; its length is size
    var entry: nat               // 16-bit, like the offsets
    var inOffset: nat
    var outOffset: nat
    const flag: Flag
    var receivers: seq<Waiter>   // suspend_thread
    var senders: seq<Waiter>     // suspend_sender_thread
    var suspended: set<Tid>      // the threads in the SUSPEND state here
    var calls: map<Tid, Mail>    // the values of the blocked calls of rt_mb_send_wait

    ghost var g: Ledger

    ghost function Abs(): Conf
      reads this, pool
    {
      Conf(State(pool[..], entry, inOffset, outOffset, receivers, senders, suspended, calls), g)
    }

    constructor (size: nat, flag: Flag)
      requires size < U16
      ensures Abs() == Initial(pool[..]) && Inv(Abs(), flag) && fresh(pool) && pool.Length == size && this.flag == flag
    {
      pool := new Mail[size];
      entry, inOffset, outOffset := 0, 0, 0;
      this.flag, receivers, senders, suspended, calls := flag, [], [], {}, map[];
      g := Ledger([], [], [], [], [], []);
    }

    /** Wakes the first waiting receiver. */
    method WakeReceiver()
      requires Unique(receivers) && Tids(receivers) <= suspended
      modifies `receivers, `suspended
      ensures receivers == Resumed(old(receivers)) && suspended == old(suspended) - Tids(Head(old(receivers)))
    {
      if receivers != [] {
        receivers, suspended := ListResume(receivers, suspended);
      }
    }

    /** Wakes the first waiting sender. */
    method WakeSender()
      requires Unique(senders) && Tids(senders) <= suspended
      modifies `senders, `suspended
      ensures senders == Resumed(old(senders)) && suspended == old(suspended) - Tids(Head(old(senders)))
    {
      if senders != [] {
        senders, suspended := ListResume(senders, suspended);
      }
    }

    /** rt_mb_send_wait by thread `t`, or the next turn of its loop, up to where it returns or is suspended. */
    method SendWait(t: Tid, prio: nat, value: Mail, timeout: int, again: bool) returns (ret: Status)
      requires Inv(Abs(), flag) && Enabled(Abs(), Send(t, prio, value, timeout, again))
      modifies this, pool
      ensures Abs() == Next(old(Abs()), Send(t, prio, value, timeout, again), flag) && Inv(Abs(), flag)
      ensures ret == Step(old(Abs().s), Send(t, prio, value, timeout, again), flag).1
    {
      ghost var c, e := Abs(), Send(t, prio, value, timeout, again);
      StepKeeps(c, e, flag);
      ret := SendPart(t, prio, value, timeout, again);
      g := Booked(g, c.s, e, ret);
    }

    method SendPart(t: Tid, prio: nat, value: Mail, timeout: int, again: bool) returns (ret: Status)
      requires Inv(Abs(), flag)
      modifies this, pool
      ensures (Abs().s, ret) == Step(old(Abs().s), Send(t, prio, value, timeout, again), flag) && g == old(g)
    {
      if !again && entry == pool.Length && timeout == 0 {
        return Full;
      }
      if entry == pool.Length {
        if timeout == 0 {
          return Full;
        }
        calls := calls[t := value];
        suspended := suspended + {t};
        senders := ListSuspend(senders, Waiter(t, prio), flag);
        return Blocked;
      }
      pool[inOffset] := value;
      inOffset := inOffset + 1;
      if inOffset >= pool.Length {
        inOffset := 0;
      }
      entry := entry + 1;
      WakeReceiver();
      ret := Done;
    }

    /** rt_mb_recv by thread `t`, or the next turn of its loop, up to where it returns or is suspended. */
    method Recv(t: Tid, prio: nat, timeout: int, again: bool) returns (ret: Status, value: Mail)
      requires Inv(Abs(), flag) && Enabled(Abs(), Event.Recv(t, prio, timeout, again))
      modifies this
      ensures Abs() == Next(old(Abs()), Event.Recv(t, prio, timeout, again), flag) && Inv(Abs(), flag)
      ensures ret == Step(old(Abs().s), Event.Recv(t, prio, timeout, again), flag).1
      ensures ret.Done? ==> g.received == old(g).received + [value]
    {
      ghost var c, e := Abs(), Event.Recv(t, prio, timeout, again);
      StepKeeps(c, e, flag);
      ret, value := RecvPart(t, prio, timeout, again);
      g := Booked(g, c.s, e, ret);
    }

    method RecvPart(t: Tid, prio: nat, timeout: int, again: bool) returns (ret: Status, value: Mail)
      requires Inv(Abs(), flag)
      modifies this
      ensures (Abs().s, ret) == Step(old(Abs().s), Event.Recv(t, prio, timeout, again), flag) && g == old(g)
      ensures ret.Done? ==> old(outOffset) < pool.Length && value == old(pool[outOffset])
    {
      value := 0;
      if !again && entry == 0 && timeout == 0 {
        return Full, value;
      }
      if entry == 0 {
        if timeout == 0 {
          return Timeout, value;
        }
        suspended := suspended + {t};
        receivers := ListSuspend(receivers, Waiter(t, prio), flag);
        return Blocked, value;
      }
      value := pool[outOffset];
      outOffset := outOffset + 1;
      if outOffset >= pool.Length {
        outOffset := 0;
      }
      entry := entry - 1;
      WakeSender();
      ret := Done;
    }

    /** rt_thread_timeout of a thread that is suspended here. */
    method Expire(t: Tid)
      requires Inv(Abs(), flag) && Enabled(Abs(), Event.Expire(t))
      modifies `receivers, `senders, `suspended, `g
      ensures Abs() == Next(old(Abs()), Event.Expire(t), flag) && Inv(Abs(), flag)
    {
      ghost var c := Abs();
      StepKeeps(c, Event.Expire(t), flag);
      receivers, senders, suspended := Remove(receivers, t), Remove(senders, t), suspended - {t};
      g := Booked(g, c.s, Event.Expire(t), Done);
    }

    /** rt_mb_control with RT_IPC_CMD_RESET. */
    method ResetAll()
      requires Inv(Abs(), flag)
      modifies this
      ensures Abs() == Next(old(Abs()), Reset, flag) && Inv(Abs(), flag)
    {
      ghost var c := Abs();
      StepKeeps(c, Reset, flag);
      var failed;
      receivers, suspended, failed := ResumeAll(receivers, suspended);
      senders, suspended, failed := ResumeAll(senders, suspended);
      entry, inOffset, outOffset := 0, 0, 0;
      g := Booked(g, c.s, Reset, Done);
    }
  }
}
