/** Message queues (rt_mq_init, rt_mq_send, rt_mq_urgent, rt_mq_recv, rt_mq_control). Messages are
    copied in and out byte by byte with interrupts enabled, so a call is many steps, and steps of
    any other calls may come between any two of them. */
module MessageQueue {
  import opened Lists
  import opened WaitList
  import opened Words

  type Byte = int


  datatype Ptr = Null | Node(n: nat)
  datatype Status = Done | Error | Full | Timeout | Blocked

  /** Where a thread is in its call: a sender copies `msg` into its node, a receiver copies its node
      to `buf`. A normal sender first clears the link of its node. */
  datatype Pc =
    | Sending(node: nat, msg: seq<Byte>, urgent: bool, cleared: bool, i: nat)
    | Fetching(node: nat, size: nat, buf: seq<Byte>)

  /** `suspended` are the threads in the SUSPEND state here. */
  datatype State = State(next: seq<Ptr>, data: seq<seq<Byte>>, msgSize: nat, head: Ptr, tail: Ptr, free: Ptr,
                         entry: nat, receivers: seq<Waiter>, suspended: set<Tid>, pc: map<Tid, Pc>)

  datatype Event =
    | SendBegin(tid: Tid, msg: seq<Byte>, urgent: bool)
    | ClearNext(tid: Tid)
    | CopyIn(tid: Tid)
    | SendEnd(tid: Tid)
    | RecvBegin(tid: Tid, prio: nat, size: nat, timeout: int, again: bool)
    | CopyOut(tid: Tid)
    | RecvEnd(tid: Tid)
    | Expire(tid: Tid)
    | Reset

  datatype Owner = Free | Queued | Held(tid: Tid)

  datatype Mail = Mail(bytes: seq<Byte>, urgent: bool)

  /** What a thread passed in its last call: a message, normal or urgent, or the size of its buffer. */
  datatype Call = ToSend(mail: Mail) | ToFetch(size: nat)

  /** A receive that is done: the message it took, and the size its caller passed and the bytes it has. */
  datatype Delivery = Delivery(bytes: seq<Byte>, size: nat, buf: seq<Byte>)

  /** The nodes in the queue and on the free list in link order, who owns each node, the messages in
      the queue, the message due to each receiver that is copying; what each thread passed in its last
      call; the waiting receivers in the order in which they came, and the woken ones; the messages that
      were linked and those that were taken since the initialization or the last reset, in this order,
      and all receives that are done. */
  datatype Ledger = Ledger(queue: seq<nat>, freeNodes: seq<nat>, owner: seq<Owner>, mail: seq<Mail>,
                           due: map<Tid, seq<Byte>>, calls: map<Tid, Call>, arrivals: seq<Waiter>, woken: seq<Waiter>,
                           sent: seq<Mail>, taken: seq<Mail>, done: seq<Delivery>)
  datatype Conf = Conf(s: State, g: Ledger)

  // Linked nodes.

  /** Following the links from `p` visits the nodes `ns`, no node twice. */
  ghost predicate Chain(next: seq<Ptr>, p: Ptr, ns: seq<nat>)
    decreases ns
  {
    if ns == [] then p == Null
    else p == Node(ns[0]) && ns[0] < |next| && ns[0] !in Members(ns[1..]) && Chain(next, next[ns[0]], ns[1..])
  }

  function LastPtr(ns: seq<nat>): Ptr {
    if ns == [] then Null else Node(ns[|ns| - 1])
  }

  lemma {:induction false} ChainKept(next: seq<Ptr>, p: Ptr, ns: seq<nat>, n: nat, q: Ptr)
    requires Chain(next, p, ns) && n < |next| && n !in Members(ns)
    ensures Chain(next[n := q], p, ns)
    decreases ns
  {
    if ns != [] {
      MembersTail(ns);
      ChainKept(next, next[ns[0]], ns[1..], n, q);
    }
  }

  /** A node put in front: the free list, and an urgent message. */
  lemma ChainPush(next: seq<Ptr>, p: Ptr, ns: seq<nat>, n: nat)
    requires Chain(next, p, ns) && n < |next| && n !in Members(ns)
    ensures Chain(next[n := p], Node(n), [n] + ns) && Members([n] + ns) == Members(ns) + {n}
    ensures LastPtr([n] + ns) == if ns == [] then Node(n) else LastPtr(ns)
  {
    ChainKept(next, p, ns, n, p);
    assert ([n] + ns)[1..] == ns;
  }

  /** A node whose link is cleared, put at the end: a normal message. */
  lemma {:induction false} ChainAppend(next: seq<Ptr>, p: Ptr, ns: seq<nat>, n: nat)
    requires Chain(next, p, ns) && n < |next| && n !in Members(ns) && next[n] == Null
    requires ns == [] || (LastPtr(ns).Node? && LastPtr(ns).n < |next|)
    ensures Chain(if ns == [] then next else next[LastPtr(ns).n := Node(n)], if ns == [] then Node(n) else p, ns + [n])
    ensures Members(ns + [n]) == Members(ns) + {n}
    decreases ns
  {
    if ns == [] {
      assert [n][1..] == [] && [] + [n] == [n];
    } else {
      MembersTail(ns);
      assert (ns + [n])[1..] == ns[1..] + [n];
      if |ns| == 1 {
        assert ns[1..] == [] && [] + [n] == [n] && [n][1..] == [];
      } else {
        assert LastPtr(ns[1..]) == LastPtr(ns);
        assert LastPtr(ns).n == ns[1..][|ns| - 2] && LastPtr(ns).n in Members(ns[1..]);
        ChainAppend(next, next[ns[0]], ns[1..], n);
      }
    }
  }

  lemma {:induction false} ChainInside(next: seq<Ptr>, p: Ptr, ns: seq<nat>)
    requires Chain(next, p, ns)
    ensures forall n | n in ns :: n < |next|
    decreases ns
  {
    if ns != [] {
      MembersTail(ns);
      ChainInside(next, next[ns[0]], ns[1..]);
    }
  }

  // Stored messages.

  /** The node's body begins with the message. */
  ghost predicate Holds(data: seq<seq<Byte>>, n: nat, m: seq<Byte>) {
    n < |data| && m <= data[n]
  }

  ghost predicate Stored(data: seq<seq<Byte>>, ns: seq<nat>, ms: seq<Mail>) {
    if ns == [] then ms == []
    else ms != [] && Holds(data, ns[0], ms[0].bytes) && Stored(data, ns[1..], ms[1..])
  }

  lemma {:induction false} StoredKept(data: seq<seq<Byte>>, ns: seq<nat>, ms: seq<Mail>, n: nat, d: seq<Byte>)
    requires Stored(data, ns, ms) && n < |data| && n !in Members(ns)
    ensures Stored(data[n := d], ns, ms)
  {
    if ns != [] {
      MembersTail(ns);
      StoredKept(data, ns[1..], ms[1..], n, d);
    }
  }

  lemma {:induction false} StoredAppend(data: seq<seq<Byte>>, ns: seq<nat>, ms: seq<Mail>, n: nat, m: Mail)
    requires Stored(data, ns, ms) && Holds(data, n, m.bytes)
    ensures Stored(data, ns + [n], ms + [m])
  {
    if ns == [] {
      assert [] + [n] == [n] && [n][1..] == [] && ms + [m] == [m] && [m][1..] == [];
    } else {
      StoredAppend(data, ns[1..], ms[1..], n, m);
      assert (ns + [n])[1..] == ns[1..] + [n] && (ms + [m])[1..] == ms[1..] + [m];
    }
  }

  lemma StoredPush(data: seq<seq<Byte>>, ns: seq<nat>, ms: seq<Mail>, n: nat, m: Mail)
    requires Stored(data, ns, ms) && Holds(data, n, m.bytes)
    ensures Stored(data, [n] + ns, [m] + ms)
  {
    assert ([n] + ns)[1..] == ns && ([m] + ms)[1..] == ms;
  }

  // Ownership.

  ghost function OwnedBy(owner: seq<Owner>, o: Owner): set<nat> {
    set n | 0 <= n < |owner| && owner[n] == o
  }

  lemma Give(owner: seq<Owner>, n: nat, o: Owner)
    requires n < |owner| && owner[n] != o
    ensures OwnedBy(owner[n := o], o) == OwnedBy(owner, o) + {n}
    ensures OwnedBy(owner[n := o], owner[n]) == OwnedBy(owner, owner[n]) - {n}
    ensures forall x {:trigger OwnedBy(owner[n := o], x)} | x != o && x != owner[n] ::
            OwnedBy(owner[n := o], x) == OwnedBy(owner, x)
  {}

  // Steps.

  predicate Inside(s: State, p: Ptr) {
    p.Node? ==> p.n < |s.next|
  }

  function Room(s: State, size: nat): nat {
    if size > s.msgSize then s.msgSize else size
  }

  /** The pointers and the buffers of the program are in range. */
  ghost predicate Shape(s: State) {
    && |s.next| == |s.data|
    && (forall n | 0 <= n < |s.data| :: |s.data[n]| == s.msgSize)
    && Inside(s, s.head) && Inside(s, s.tail) && Inside(s, s.free)
    && (s.entry > 0 ==> s.head.Node?)
    && (forall t | t in s.pc :: s.pc[t].node < |s.next| && (s.pc[t].Sending? ==> |s.pc[t].msg| <= s.msgSize))
  }

  /** A suspended thread makes no call; who goes on with a receive was woken for it; the steps of a
      call come in its program's order. */
  ghost predicate Enabled(c: Conf, e: Event) {
    var s := c.s;
    match e
    case SendBegin(t, msg, _) => msg != [] && t !in s.pc && t !in Tids(s.receivers) && t !in Tids(c.g.woken)
    case ClearNext(t) => t in s.pc && s.pc[t].Sending? && !s.pc[t].urgent && !s.pc[t].cleared
    case CopyIn(t) =>
      t in s.pc && s.pc[t].Sending? && (s.pc[t].urgent || s.pc[t].cleared) && s.pc[t].i < |s.pc[t].msg|
    case SendEnd(t) => t in s.pc && s.pc[t].Sending? && (s.pc[t].urgent || s.pc[t].cleared)
      && s.pc[t].i == |s.pc[t].msg|
    case RecvBegin(t, _, size, _, again) =>
      size != 0 && t !in s.pc && t !in Tids(s.receivers) && (again <==> t in Tids(c.g.woken))
    case CopyOut(t) => t in s.pc && s.pc[t].Fetching? && |s.pc[t].buf| < Room(s, s.pc[t].size)
    case RecvEnd(t) => t in s.pc && s.pc[t].Fetching? && |s.pc[t].buf| == Room(s, s.pc[t].size)
    case Expire(t) => t in Tids(s.receivers)
    case Reset => true
  }

  function SendBeginStep(s: State, t: Tid, msg: seq<Byte>, urgent: bool): (State, Status)
    requires Shape(s)
  {
    if |msg| > s.msgSize then (s, Error)
    else if s.free.Null? then (s, Full)
    else (s.(free := s.next[s.free.n], pc := s.pc[t := Sending(s.free.n, msg, urgent, false, 0)]), Done)
  }

  ghost function SendEndStep(s: State, t: Tid): State
    requires Shape(s) && t in s.pc
  {
    var n := s.pc[t].node;
    var linked :=
      if s.pc[t].Sending? && s.pc[t].urgent then
        s.(next := s.next[n := s.head], head := Node(n), tail := if s.tail.Null? then Node(n) else s.tail)
      else
        s.(next := if s.tail.Node? then s.next[s.tail.n := Node(n)] else s.next,
           tail := Node(n), head := if s.head.Null? then Node(n) else s.head);
    linked.(entry := s.entry + 1, receivers := Resumed(s.receivers), suspended := s.suspended - Tids(Head(s.receivers)),
            pc := s.pc - {t})
  }

  ghost function RecvBeginStep(s: State, t: Tid, prio: nat, size: nat, timeout: int, flag: Flag): (State, Status)
    requires Shape(s)
  {
    if s.entry == 0 then
      if timeout == 0 then (s, Timeout)
      else (s.(receivers := Suspended(s.receivers, Waiter(t, prio), flag), suspended := s.suspended + {t}), Blocked)
    else
      (s.(head := s.next[s.head.n], tail := if s.tail == s.head then Null else s.tail, entry := s.entry - 1,
          pc := s.pc[t := Fetching(s.head.n, size, [])]), Done)
  }

  function RecvEndStep(s: State, t: Tid): State
    requires Shape(s) && t in s.pc
  {
    var n := s.pc[t].node;
    s.(next := s.next[n := s.free], free := Node(n), pc := s.pc - {t})
  }

  /** The links and the free list after `k` nodes were moved from the queue to the free list. */
  function Drained(next: seq<Ptr>, head: Ptr, free: Ptr, k: nat): (r: (seq<Ptr>, Ptr))
    ensures |r.0| == |next|
    decreases k
  {
    if k == 0 || head.Null? || head.n >= |next| then (next, free)
    else Drained(next[head.n := free], next[head.n], head, k - 1)
  }

  ghost function ResetStep(s: State): State {
    var (next, free) := Drained(s.next, s.head, s.free, s.entry);
    s.(next := next, head := Null, tail := Null, free := free, entry := 0, receivers := [],
       suspended := s.suspended - Tids(s.receivers))
  }

  ghost function Step(c: Conf, e: Event, flag: Flag): (State, Status)
    requires Shape(c.s) && Enabled(c, e)
  {
    var s := c.s;
    match e
    case SendBegin(t, msg, urgent) => SendBeginStep(s, t, msg, urgent)
    case ClearNext(t) => (s.(next := s.next[s.pc[t].node := Null], pc := s.pc[t := s.pc[t].(cleared := true)]), Done)
    case CopyIn(t) =>
      var p := s.pc[t];
      (s.(data := s.data[p.node := s.data[p.node][p.i := p.msg[p.i]]], pc := s.pc[t := p.(i := p.i + 1)]), Done)
    case SendEnd(t) => (SendEndStep(s, t), Done)
    case RecvBegin(t, prio, size, timeout, _) => RecvBeginStep(s, t, prio, size, timeout, flag)
    case CopyOut(t) =>
      var p := s.pc[t];
      (s.(pc := s.pc[t := p.(buf := p.buf + [s.data[p.node][|p.buf|]])]), Done)
    case RecvEnd(t) => (RecvEndStep(s, t), Done)
    case Expire(t) => (s.(receivers := Remove(s.receivers, t), suspended := s.suspended - {t}), Done)
    case Reset => (ResetStep(s), Done)
  }

  function Reversed(ns: seq<nat>): seq<nat> {
    if ns == [] then [] else Reversed(ns[1..]) + [ns[0]]
  }

  function Freed(owner: seq<Owner>): seq<Owner> {
    seq(|owner|, n requires 0 <= n < |owner| => if owner[n].Queued? then Free else owner[n])
  }

  function Handed(owner: seq<Owner>, n: nat, o: Owner): seq<Owner> {
    if n < |owner| then owner[n := o] else owner
  }

  /** The books: a message is what the call passed; a normal one joins the queue at its end, an urgent one
      at its front, and a receiver is due the message at the front. */
  ghost function Booked(g: Ledger, s: State, e: Event, r: Status): Ledger
    requires Shape(s)
  {
    match e
    case SendBegin(t, msg, urgent) =>
      var g' := g.(calls := g.calls[t := ToSend(Mail(msg, urgent))]);
      if r.Done? && g.freeNodes != [] then
        g'.(freeNodes := g.freeNodes[1..], owner := Handed(g.owner, g.freeNodes[0], Held(t)))
      else g'
    case SendEnd(t) =>
      if t in s.pc && t in g.calls && g.calls[t].ToSend? then
        var n, m := s.pc[t].node, g.calls[t].mail;
        g.(queue := if m.urgent then [n] + g.queue else g.queue + [n],
           mail := if m.urgent then [m] + g.mail else g.mail + [m],
           owner := Handed(g.owner, n, Queued), sent := g.sent + [m],
           arrivals := Remaining(g.arrivals, Head(s.receivers)), woken := g.woken + Head(s.receivers))
      else g
    case RecvBegin(t, prio, size, _, _) =>
      var g' := g.(calls := g.calls[t := ToFetch(size)], woken := Remove(g.woken, t));
      if r.Done? && g.queue != [] && g.mail != [] then
        g'.(queue := g.queue[1..], mail := g.mail[1..], taken := g.taken + [g.mail[0]],
            due := g.due[t := g.mail[0].bytes], owner := Handed(g.owner, g.queue[0], Held(t)))
      else if r.Blocked? then g'.(arrivals := g.arrivals + [Waiter(t, prio)])
      else g'
    case RecvEnd(t) =>
      if t in s.pc && s.pc[t].Fetching? && t in g.due && t in g.calls && g.calls[t].ToFetch? then
        g.(freeNodes := [s.pc[t].node] + g.freeNodes, owner := Handed(g.owner, s.pc[t].node, Free), due := g.due - {t},
           done := g.done + [Delivery(g.due[t], g.calls[t].size, s.pc[t].buf)])
      else g
    case Expire(t) => g.(arrivals := Remove(g.arrivals, t))
    case Reset =>
      g.(queue := [], mail := [], sent := [], taken := [], arrivals := [],
         freeNodes := Reversed(g.queue) + g.freeNodes, owner := Freed(g.owner))
    case _ => g
  }

  ghost function Next(c: Conf, e: Event, flag: Flag): Conf
    requires Shape(c.s) && Enabled(c, e)
  {
    var (s', r) := Step(c, e, flag);
    Conf(s', Booked(c.g, c.s, e, r))
  }

  // The invariant.

  ghost predicate Linked(s: State, g: Ledger) {
    && Chain(s.next, s.head, g.queue) && Chain(s.next, s.free, g.freeNodes)
    && s.tail == LastPtr(g.queue) && s.entry == |g.queue| && |g.owner| == |s.next|
  }

  ghost predicate HeldBy(owner: seq<Owner>, pc: map<Tid, Pc>, t: Tid) {
    OwnedBy(owner, Held(t)) == if t in pc then {pc[t].node} else {}
  }

  /** Every node is in the queue, on the free list or in the hands of one thread. */
  ghost predicate Owners(pc: map<Tid, Pc>, g: Ledger) {
    && Members(g.queue) == OwnedBy(g.owner, Queued) && Members(g.freeNodes) == OwnedBy(g.owner, Free)
    && Holders(g.owner, pc)
  }

  ghost predicate Holders(owner: seq<Owner>, pc: map<Tid, Pc>) {
    forall t {:trigger HeldBy(owner, pc, t)} :: HeldBy(owner, pc, t)
  }

  ghost predicate CallOk(next: seq<Ptr>, data: seq<seq<Byte>>, msgSize: nat, p: Pc, due: map<Tid, seq<Byte>>, t: Tid) {
    match p
    case Sending(n, msg, urgent, cleared, i) =>
      && i <= |msg| && Holds(data, n, msg[..i]) && (i > 0 ==> urgent || cleared)
      && (cleared ==> !urgent && n < |next| && next[n] == Null)
    case Fetching(n, size, buf) =>
      && t in due && Holds(data, n, due[t]) && n < |data| && buf <= data[n] && |buf| <= size && |buf| <= msgSize
  }

  ghost predicate Calls(s: State, g: Ledger) {
    forall t {:trigger CallOk(s.next, s.data, s.msgSize, s.pc[t], g.due, t)} | t in s.pc ::
        CallOk(s.next, s.data, s.msgSize, s.pc[t], g.due, t)
  }

  /** A call works with what its thread passed. */
  ghost predicate AsPassed(p: Pc, call: Call) {
    match p
    case Sending(_, msg, urgent, _, _) => call == ToSend(Mail(msg, urgent))
    case Fetching(_, size, _) => call == ToFetch(size)
  }

  ghost predicate Passed(pc: map<Tid, Pc>, calls: map<Tid, Call>) {
    forall t | t in pc :: t in calls && AsPassed(pc[t], calls[t])
  }

  ghost predicate Waits(s: State, g: Ledger) {
    && Awaited(s.receivers, g.woken, s.entry) && Placed(s.receivers, g.woken) && Tids(s.receivers) <= s.suspended
    && s.pc.Keys !! Tids(s.receivers) && s.pc.Keys !! Tids(g.woken)
  }

  ghost predicate Core(c: Conf) {
    && Shape(c.s) && Linked(c.s, c.g) && Owners(c.s.pc, c.g) && Stored(c.s.data, c.g.queue, c.g.mail)
    && Calls(c.s, c.g) && Passed(c.s.pc, c.g.calls) && Waits(c.s, c.g)
  }

  function Normal(ms: seq<Mail>): seq<Mail> {
    if ms == [] then [] else (if ms[0].urgent then [] else [ms[0]]) + Normal(ms[1..])
  }

  /** Urgent messages come before all normal ones. */
  ghost predicate UrgentFirst(ms: seq<Mail>) {
    forall i, j | 0 <= i < j < |ms| :: ms[j].urgent ==> ms[i].urgent
  }

  /** The caller has as many bytes as it asked for, or the size of a node if that is less, and they begin with
      the message, as far as they go. */
  ghost predicate Faithful(d: Delivery, msgSize: nat) {
    && |d.buf| == (if d.size < msgSize then d.size else msgSize)
    && forall k | 0 <= k < |d.bytes| && k < |d.buf| :: d.buf[k] == d.bytes[k]
  }

  /** No message is lost, invented or doubled. */
  ghost predicate Accounted(sent: seq<Mail>, taken: seq<Mail>, mail: seq<Mail>) {
    multiset(sent) == multiset(taken) + multiset(mail)
  }

  /** Normal messages are taken in the order in which they were linked, urgent ones before them. */
  ghost predicate InOrder(sent: seq<Mail>, taken: seq<Mail>, mail: seq<Mail>) {
    Normal(sent) == Normal(taken) + Normal(mail) && UrgentFirst(mail)
  }

  ghost predicate Exchanged(g: Ledger, msgSize: nat) {
    && Accounted(g.sent, g.taken, g.mail) && InOrder(g.sent, g.taken, g.mail)
    && forall d | d in g.done :: Faithful(d, msgSize)
  }

  ghost predicate Inv(c: Conf, flag: Flag) {
    Core(c) && Exchanged(c.g, c.s.msgSize) && Arrived(c.s.receivers, c.g.arrivals, flag)
  }

  lemma {:induction false} NormalAppend(ms: seq<Mail>, m: Mail)
    ensures Normal(ms + [m]) == Normal(ms) + Normal([m])
  {
    if ms == [] {
      assert [] + [m] == [m];
    } else {
      NormalAppend(ms[1..], m);
      assert (ms + [m])[1..] == ms[1..] + [m];
    }
  }

  lemma NormalPush(m: Mail, ms: seq<Mail>)
    ensures Normal([m] + ms) == Normal([m]) + Normal(ms)
  {
    assert ([m] + ms)[1..] == ms && [m][1..] == [];
  }

  lemma UrgentSent(sent: seq<Mail>, taken: seq<Mail>, mail: seq<Mail>, m: Mail)
    requires InOrder(sent, taken, mail) && m.urgent
    ensures InOrder(sent + [m], taken, [m] + mail)
  {
    NormalAppend(sent, m);
    NormalPush(m, mail);
    assert Normal([m]) == [];
  }

  lemma NormalSent(sent: seq<Mail>, taken: seq<Mail>, mail: seq<Mail>, m: Mail)
    requires InOrder(sent, taken, mail) && !m.urgent
    ensures InOrder(sent + [m], taken, mail + [m])
  {
    NormalAppend(sent, m);
    NormalAppend(mail, m);
    assert Normal(taken) + (Normal(mail) + Normal([m])) == Normal(taken) + Normal(mail) + Normal([m]);
  }

  lemma OneTaken(sent: seq<Mail>, taken: seq<Mail>, m: Mail, mail: seq<Mail>)
    requires InOrder(sent, taken, [m] + mail)
    ensures InOrder(sent, taken + [m], mail)
  {
    NormalAppend(taken, m);
    NormalPush(m, mail);
    assert Normal(taken) + (Normal([m]) + Normal(mail)) == Normal(taken) + Normal([m]) + Normal(mail);
    forall i, j | 0 <= i < j < |mail| ensures mail[j].urgent ==> mail[i].urgent {
      assert mail[i] == ([m] + mail)[i + 1] && mail[j] == ([m] + mail)[j + 1];
    }
  }

  lemma NoneLost(sent: seq<Mail>, taken: seq<Mail>, m: Mail, mail: seq<Mail>)
    ensures Accounted(sent, taken, mail) ==>
              Accounted(sent + [m], taken, [m] + mail) && Accounted(sent + [m], taken, mail + [m])
    ensures Accounted(sent, taken, [m] + mail) ==> Accounted(sent, taken + [m], mail)
  {}

  /** Integrity: a receiver that is done has as many bytes as it asked for, or the size of a node if that is
      less; they begin with the message that was at the front of the queue when its receive began, as its
      sender passed it. */
  lemma Delivered(c: Conf, t: Tid)
    requires Core(c) && Enabled(c, RecvEnd(t))
    ensures t in c.g.due && t in c.s.pc && t in c.g.calls && c.g.calls[t].ToFetch?
    ensures var m, size, buf := c.g.due[t], c.g.calls[t].size, c.s.pc[t].buf;
            && |buf| == (if size < c.s.msgSize then size else c.s.msgSize)
            && forall k | 0 <= k < |m| && k < |buf| :: buf[k] == m[k]
  {
    assert CallOk(c.s.next, c.s.data, c.s.msgSize, c.s.pc[t], c.g.due, t);
  }

  lemma SendExchanged(c: Conf, e: Event, flag: Flag)
    requires Core(c) && Exchanged(c.g, c.s.msgSize) && e.SendEnd? && Enabled(c, e)
    ensures Exchanged(Next(c, e, flag).g, c.s.msgSize)
  {
    var m := c.g.calls[e.tid].mail;
    NoneLost(c.g.sent, c.g.taken, m, c.g.mail);
    if m.urgent {
      UrgentSent(c.g.sent, c.g.taken, c.g.mail, m);
    } else {
      NormalSent(c.g.sent, c.g.taken, c.g.mail, m);
    }
  }

  lemma RecvExchanged(c: Conf, e: Event, flag: Flag)
    requires Core(c) && Exchanged(c.g, c.s.msgSize) && e.RecvBegin? && Enabled(c, e)
    ensures Exchanged(Next(c, e, flag).g, c.s.msgSize)
  {
    if c.s.entry == 0 {
      NothingTaken(c, e, flag);
    } else {
      FrontTaken(c, e, flag);
      var mail := c.g.mail;
      assert mail == [mail[0]] + mail[1..];
      NoneLost(c.g.sent, c.g.taken, mail[0], mail[1..]);
      OneTaken(c.g.sent, c.g.taken, mail[0], mail[1..]);
    }
  }

  lemma NothingTaken(c: Conf, e: Event, flag: Flag)
    requires Core(c) && e.RecvBegin? && Enabled(c, e) && c.s.entry == 0
    ensures var g, g' := c.g, Next(c, e, flag).g;
            g'.mail == g.mail && g'.taken == g.taken && g'.sent == g.sent && g'.done == g.done
  {}

  /** A receive that finds a message takes the one at the front. */
  lemma FrontTaken(c: Conf, e: Event, flag: Flag)
    requires Core(c) && e.RecvBegin? && Enabled(c, e) && c.s.entry > 0
    ensures Step(c, e, flag).1 == Done && c.g.mail != []
    ensures var g, g' := c.g, Next(c, e, flag).g;
            && g'.mail == g.mail[1..] && g'.taken == g.taken + [g.mail[0]] && g'.sent == g.sent && g'.done == g.done
  {
    HeadNode(c.s.next, c.s.head, c.g.queue);
  }

  lemma ExchangeKept(c: Conf, e: Event, flag: Flag)
    requires Core(c) && Exchanged(c.g, c.s.msgSize) && Enabled(c, e)
    ensures Exchanged(Next(c, e, flag).g, c.s.msgSize)
  {
    match e
    case SendEnd(_) => SendExchanged(c, e, flag);
    case RecvBegin(_, _, _, _, _) => RecvExchanged(c, e, flag);
    case RecvEnd(t) => Delivered(c, t);
    case _ =>
  }

  /** What a step does to one node, and to the call of one thread, leaves the calls of the others. */
  lemma OthersKept(s: State, g: Ledger, s': State, g': Ledger, t: Tid, m: nat)
    requires Calls(s, g) && Owners(s.pc, g) && |g.owner| == |s.next| == |s.data| && m < |g.owner|
    requires forall u | u != t :: g.owner[m] != Held(u)
    requires |s'.next| == |s.next| && s'.next == s.next[m := s'.next[m]]
    requires |s'.data| == |s.data| && s'.data == s.data[m := s'.data[m]]
    requires s'.msgSize == s.msgSize && s'.pc.Keys <= s.pc.Keys + {t}
    requires forall u | u in s'.pc && u != t :: u in s.pc && s'.pc[u] == s.pc[u]
    requires forall u | u in g.due && u != t :: u in g'.due && g'.due[u] == g.due[u]
    requires t in s'.pc ==> CallOk(s'.next, s'.data, s'.msgSize, s'.pc[t], g'.due, t)
    ensures Calls(s', g')
  {
    forall u | u in s'.pc ensures CallOk(s'.next, s'.data, s'.msgSize, s'.pc[u], g'.due, u) {
      if u != t {
        assert CallOk(s.next, s.data, s.msgSize, s.pc[u], g.due, u);
        assert HeldBy(g.owner, s.pc, u);
        assert m !in OwnedBy(g.owner, Held(u));
      }
    }
  }

  lemma HeadNode(next: seq<Ptr>, p: Ptr, ns: seq<nat>)
    requires Chain(next, p, ns)
    ensures p.Node? ==> p.n < |next| && ns != [] && p.n == ns[0]
    ensures ns != [] ==>
              p.Node? && ns[0] in Members(ns) && Members(ns) == {ns[0]} + Members(ns[1..]) && ns[0] !in Members(ns[1..])
    ensures ns != [] ==> Chain(next, next[p.n], ns[1..]) && (LastPtr(ns) == p <==> ns[1..] == [])
    ensures ns != [] && ns[1..] != [] ==> LastPtr(ns[1..]) == LastPtr(ns)
  {
    if ns != [] {
      MembersTail(ns);
      if ns[1..] != [] {
        assert ns[|ns| - 1] == ns[1..][|ns| - 2];
        assert ns[|ns| - 1] in Members(ns[1..]);
      }
    }
  }

  lemma MineAlone(g: Ledger, pc: map<Tid, Pc>, t: Tid)
    requires Owners(pc, g) && t in pc
    ensures pc[t].node < |g.owner| && g.owner[pc[t].node] == Held(t)
    ensures pc[t].node !in Members(g.queue) && pc[t].node !in Members(g.freeNodes)
  {
    assert HeldBy(g.owner, pc, t);
    assert pc[t].node in OwnedBy(g.owner, Held(t));
  }

  lemma Taken(owner: seq<Owner>, pc: map<Tid, Pc>, n: nat, t: Tid, p: Pc)
    requires n < |owner| && !owner[n].Held? && t !in pc && p.node == n
    requires Holders(owner, pc)
    ensures Holders(owner[n := Held(t)], pc[t := p])
  {
    Give(owner, n, Held(t));
    var owner', pc' := owner[n := Held(t)], pc[t := p];
    forall u ensures HeldBy(owner', pc', u) {
      assert HeldBy(owner, pc, u);
      assert OwnedBy(owner', Held(u)) == OwnedBy(owner, Held(u)) + if u == t then {n} else {};
    }
  }

  lemma Returned(owner: seq<Owner>, pc: map<Tid, Pc>, t: Tid, o: Owner)
    requires t in pc && pc[t].node < |owner| && owner[pc[t].node] == Held(t) && !o.Held?
    requires Holders(owner, pc)
    ensures Holders(owner[pc[t].node := o], pc - {t})
  {
    var n := pc[t].node;
    Give(owner, n, o);
    var owner', pc' := owner[n := o], pc - {t};
    forall u ensures HeldBy(owner', pc', u) {
      assert HeldBy(owner, pc, u);
      assert OwnedBy(owner', Held(u)) == if u == t then OwnedBy(owner, Held(u)) - {n} else OwnedBy(owner, Held(u));
    }
  }

  lemma SameHolders(owner: seq<Owner>, pc: map<Tid, Pc>, t: Tid, p: Pc)
    requires t in pc && p.node == pc[t].node
    requires Holders(owner, pc)
    ensures Holders(owner, pc[t := p])
  {
    var pc' := pc[t := p];
    forall u ensures HeldBy(owner, pc', u) {
      assert HeldBy(owner, pc, u);
    }
  }

  // Sending.

  lemma SendBeginKeeps(c: Conf, e: Event, flag: Flag)
    requires Core(c) && e.SendBegin? && Enabled(c, e)
    ensures Core(Next(c, e, flag))
  {
    var c' := Next(c, e, flag);
    HeadNode(c.s.next, c.s.free, c.g.freeNodes);
    if |e.msg| <= c.s.msgSize && c.s.free.Node? {
      var n := c.s.free.n;
      assert n in OwnedBy(c.g.owner, Free);
      Give(c.g.owner, n, Held(e.tid));
      Taken(c.g.owner, c.s.pc, n, e.tid, c'.s.pc[e.tid]);
      HeadNode(c.s.next, c'.s.free, c'.g.freeNodes);
      assert e.msg[..0] == [];
      OthersKept(c.s, c.g, c'.s, c'.g, e.tid, n);
    }
  }

  lemma ClearNextKeeps(c: Conf, e: Event, flag: Flag)
    requires Core(c) && e.ClearNext? && Enabled(c, e)
    ensures Core(Next(c, e, flag))
  {
    var c', t := Next(c, e, flag), e.tid;
    MineAlone(c.g, c.s.pc, t);
    var n := c.s.pc[t].node;
    ChainKept(c.s.next, c.s.head, c.g.queue, n, Null);
    ChainKept(c.s.next, c.s.free, c.g.freeNodes, n, Null);
    SameHolders(c.g.owner, c.s.pc, t, c'.s.pc[t]);
    assert CallOk(c.s.next, c.s.data, c.s.msgSize, c.s.pc[t], c.g.due, t);
    OthersKept(c.s, c.g, c'.s, c'.g, t, n);
  }

  lemma CopyInKeeps(c: Conf, e: Event, flag: Flag)
    requires Core(c) && e.CopyIn? && Enabled(c, e)
    ensures Core(Next(c, e, flag))
  {
    var c', t := Next(c, e, flag), e.tid;
    MineAlone(c.g, c.s.pc, t);
    var p := c.s.pc[t];
    StoredKept(c.s.data, c.g.queue, c.g.mail, p.node, c'.s.data[p.node]);
    SameHolders(c.g.owner, c.s.pc, t, c'.s.pc[t]);
    assert CallOk(c.s.next, c.s.data, c.s.msgSize, p, c.g.due, t);
    assert p.msg[..p.i + 1] == p.msg[..p.i] + [p.msg[p.i]];
    OthersKept(c.s, c.g, c'.s, c'.g, t, p.node);
  }

  lemma UrgentKeeps(c: Conf, e: Event, flag: Flag)
    requires Core(c) && e.SendEnd? && Enabled(c, e) && c.s.pc[e.tid].urgent
    ensures Core(Next(c, e, flag))
  {
    var c', t := Next(c, e, flag), e.tid;
    MineAlone(c.g, c.s.pc, t);
    var n := c.s.pc[t].node;
    ChainPush(c.s.next, c.s.head, c.g.queue, n);
    ChainKept(c.s.next, c.s.free, c.g.freeNodes, n, c.s.head);
    Give(c.g.owner, n, Queued);
    Returned(c.g.owner, c.s.pc, t, Queued);
    assert CallOk(c.s.next, c.s.data, c.s.msgSize, c.s.pc[t], c.g.due, t);
    StoredPush(c.s.data, c.g.queue, c.g.mail, n, c.g.calls[t].mail);
    OthersKept(c.s, c.g, c'.s, c'.g, t, n);
    PlacedWake(c.s.receivers, c.g.woken);
  }

  lemma NormalLists(c: Conf, e: Event, flag: Flag)
    requires Core(c) && e.SendEnd? && Enabled(c, e) && !c.s.pc[e.tid].urgent
    ensures Shape(Next(c, e, flag).s) && Linked(Next(c, e, flag).s, Next(c, e, flag).g)
    ensures Members(c.g.queue + [c.s.pc[e.tid].node]) == Members(c.g.queue) + {c.s.pc[e.tid].node}
  {
    var t, ns := e.tid, c.g.queue;
    MineAlone(c.g, c.s.pc, t);
    var n := c.s.pc[t].node;
    assert CallOk(c.s.next, c.s.data, c.s.msgSize, c.s.pc[t], c.g.due, t);
    HeadNode(c.s.next, c.s.head, ns);
    ChainAppend(c.s.next, c.s.head, ns, n);
    if ns != [] {
      assert c.s.tail.n in Members(ns);
      assert c.s.tail.n in OwnedBy(c.g.owner, Queued) && c.s.tail.n !in OwnedBy(c.g.owner, Free);
      ChainKept(c.s.next, c.s.free, c.g.freeNodes, c.s.tail.n, Node(n));
    }
  }

  lemma NormalKeeps(c: Conf, e: Event, flag: Flag)
    requires Core(c) && e.SendEnd? && Enabled(c, e) && !c.s.pc[e.tid].urgent
    ensures Core(Next(c, e, flag))
  {
    var c', t := Next(c, e, flag), e.tid;
    NormalLists(c, e, flag);
    MineAlone(c.g, c.s.pc, t);
    var n := c.s.pc[t].node;
    Give(c.g.owner, n, Queued);
    Returned(c.g.owner, c.s.pc, t, Queued);
    assert CallOk(c.s.next, c.s.data, c.s.msgSize, c.s.pc[t], c.g.due, t);
    assert c.s.pc[t].msg[..c.s.pc[t].i] == c.s.pc[t].msg;
    StoredAppend(c.s.data, c.g.queue, c.g.mail, n, c.g.calls[t].mail);
    if c.s.tail.Node? {
      assert c.s.tail.n in Members(c.g.queue);
      assert c.s.tail.n in OwnedBy(c.g.owner, Queued);
      OthersKept(c.s, c.g, c'.s, c'.g, t, c.s.tail.n);
    } else {
      OthersKept(c.s, c.g, c'.s, c'.g, t, n);
    }
    PlacedWake(c.s.receivers, c.g.woken);
  }

  // Receiving.

  lemma RecvWaitsKeeps(c: Conf, e: Event, flag: Flag)
    requires Core(c) && e.RecvBegin? && Enabled(c, e) && c.s.entry == 0
    ensures Core(Next(c, e, flag))
  {
    PlacedRuns(c.s.receivers, c.g.woken, e.tid);
    if e.timeout != 0 {
      PlacedWaits(c.s.receivers, Remove(c.g.woken, e.tid), Waiter(e.tid, e.prio), flag);
    }
  }

  lemma RecvTakesKeeps(c: Conf, e: Event, flag: Flag)
    requires Core(c) && e.RecvBegin? && Enabled(c, e) && c.s.entry > 0
    ensures Core(Next(c, e, flag))
  {
    var c', t := Next(c, e, flag), e.tid;
    HeadNode(c.s.next, c.s.head, c.g.queue);
    var n := c.g.queue[0];
    assert n in OwnedBy(c.g.owner, Queued);
    Give(c.g.owner, n, Held(t));
    Taken(c.g.owner, c.s.pc, n, t, c'.s.pc[t]);
    HeadNode(c.s.next, c'.s.head, c'.g.queue);
    OthersKept(c.s, c.g, c'.s, c'.g, t, n);
    PlacedRuns(c.s.receivers, c.g.woken, t);
    RemoveLength(c.g.woken, t);
  }

  lemma CopyOutKeeps(c: Conf, e: Event, flag: Flag)
    requires Core(c) && e.CopyOut? && Enabled(c, e)
    ensures Core(Next(c, e, flag))
  {
    var c', t := Next(c, e, flag), e.tid;
    MineAlone(c.g, c.s.pc, t);
    SameHolders(c.g.owner, c.s.pc, t, c'.s.pc[t]);
    assert CallOk(c.s.next, c.s.data, c.s.msgSize, c.s.pc[t], c.g.due, t);
    OthersKept(c.s, c.g, c'.s, c'.g, t, c.s.pc[t].node);
  }

  lemma RecvEndKeeps(c: Conf, e: Event, flag: Flag)
    requires Core(c) && e.RecvEnd? && Enabled(c, e)
    ensures Core(Next(c, e, flag))
  {
    var c', t := Next(c, e, flag), e.tid;
    assert CallOk(c.s.next, c.s.data, c.s.msgSize, c.s.pc[t], c.g.due, t);
    MineAlone(c.g, c.s.pc, t);
    var n := c.s.pc[t].node;
    ChainPush(c.s.next, c.s.free, c.g.freeNodes, n);
    ChainKept(c.s.next, c.s.head, c.g.queue, n, c.s.free);
    Give(c.g.owner, n, Free);
    Returned(c.g.owner, c.s.pc, t, Free);
    OthersKept(c.s, c.g, c'.s, c'.g, t, n);
  }

  lemma ExpireKeeps(c: Conf, e: Event, flag: Flag)
    requires Core(c) && e.Expire? && Enabled(c, e)
    ensures Core(Next(c, e, flag))
  {
    PlacedExpires(c.s.receivers, c.g.woken, e.tid);
    RemoveLength(c.s.receivers, e.tid);
  }

  // Reset.

  lemma {:induction false} DrainChain(next: seq<Ptr>, head: Ptr, free: Ptr, q: seq<nat>, f: seq<nat>)
    requires Chain(next, head, q) && Chain(next, free, f) && Members(q) !! Members(f)
    ensures var (next', free') := Drained(next, head, free, |q|); Chain(next', free', Reversed(q) + f)
    decreases q
  {
    if q == [] {
      assert [] + f == f;
    } else {
      HeadNode(next, head, q);
      ChainPush(next, free, f, q[0]);
      ChainKept(next, next[q[0]], q[1..], q[0], free);
      DrainChain(next[q[0] := free], next[q[0]], head, q[1..], [q[0]] + f);
      assert Reversed(q) + f == Reversed(q[1..]) + ([q[0]] + f);
    }
  }

  /** Only the links of the nodes that are moved change. */
  lemma {:induction false} DrainKeeps(next: seq<Ptr>, head: Ptr, free: Ptr, q: seq<nat>)
    requires Chain(next, head, q)
    ensures forall m | 0 <= m < |next| && m !in q :: Drained(next, head, free, |q|).0[m] == next[m]
    decreases q
  {
    if q != [] {
      HeadNode(next, head, q);
      ChainKept(next, next[q[0]], q[1..], q[0], free);
      DrainKeeps(next[q[0] := free], next[q[0]], head, q[1..]);
    }
  }

  lemma {:induction false} ReversedMembers(q: seq<nat>, f: seq<nat>)
    ensures Members(Reversed(q) + f) == Members(q) + Members(f)
    decreases q
  {
    if q == [] {
      assert [] + f == f;
    } else {
      MembersTail(q);
      ReversedMembers(q[1..], [q[0]] + f);
      assert Reversed(q) + f == Reversed(q[1..]) + ([q[0]] + f);
    }
  }

  lemma FreedOwned(owner: seq<Owner>)
    ensures OwnedBy(Freed(owner), Free) == OwnedBy(owner, Free) + OwnedBy(owner, Queued)
    ensures OwnedBy(Freed(owner), Queued) == {}
    ensures forall t :: OwnedBy(Freed(owner), Held(t)) == OwnedBy(owner, Held(t))
  {}

  lemma ResetKeeps(c: Conf, e: Event, flag: Flag)
    requires Core(c) && e.Reset?
    ensures Core(Next(c, e, flag))
  {
    var c' := Next(c, e, flag);
    assert Members(c.g.queue) !! Members(c.g.freeNodes);
    DrainChain(c.s.next, c.s.head, c.s.free, c.g.queue, c.g.freeNodes);
    DrainKeeps(c.s.next, c.s.head, c.s.free, c.g.queue);
    ReversedMembers(c.g.queue, c.g.freeNodes);
    HeadNode(c'.s.next, c'.s.free, c'.g.freeNodes);
    FreedOwned(c.g.owner);
    forall t ensures HeldBy(c'.g.owner, c'.s.pc, t) {
      assert HeldBy(c.g.owner, c.s.pc, t);
    }
    forall t | t in c'.s.pc ensures CallOk(c'.s.next, c'.s.data, c'.s.msgSize, c'.s.pc[t], c'.g.due, t) {
      assert CallOk(c.s.next, c.s.data, c.s.msgSize, c.s.pc[t], c.g.due, t);
      MineAlone(c.g, c.s.pc, t);
    }
  }

  lemma SendOrder(c: Conf, e: Event, flag: Flag)
    requires Core(c) && Arrived(c.s.receivers, c.g.arrivals, flag) && e.SendEnd? && Enabled(c, e)
    ensures Arrived(Next(c, e, flag).s.receivers, Next(c, e, flag).g.arrivals, flag)
  {
    ArrivedWakes(c.s.receivers, c.g.arrivals, flag);
  }

  lemma RecvOrder(c: Conf, e: Event, flag: Flag)
    requires Core(c) && Arrived(c.s.receivers, c.g.arrivals, flag) && e.RecvBegin? && Enabled(c, e)
    ensures Arrived(Next(c, e, flag).s.receivers, Next(c, e, flag).g.arrivals, flag)
  {
    if c.s.entry == 0 {
      ArrivedWaits(c.s.receivers, c.g.arrivals, Waiter(e.tid, e.prio), flag);
    } else {
      HeadNode(c.s.next, c.s.head, c.g.queue);
    }
  }

  /** The list of the receivers is the one that their arrivals make. */
  lemma OrderKept(c: Conf, e: Event, flag: Flag)
    requires Core(c) && Arrived(c.s.receivers, c.g.arrivals, flag) && Enabled(c, e)
    ensures Arrived(Next(c, e, flag).s.receivers, Next(c, e, flag).g.arrivals, flag)
  {
    match e
    case SendEnd(_) => SendOrder(c, e, flag);
    case RecvBegin(_, _, _, _, _) => RecvOrder(c, e, flag);
    case Expire(t) => ArrivedLeaves(c.s.receivers, c.g.arrivals, t, flag);
    case _ =>
  }

  /** What every step keeps. */
  lemma StepKeeps(c: Conf, e: Event, flag: Flag)
    requires Inv(c, flag) && Enabled(c, e)
    ensures Inv(Next(c, e, flag), flag)
  {
    ExchangeKept(c, e, flag);
    OrderKept(c, e, flag);
    StepSize(c, e, flag);
    match e
    case SendBegin(_, _, _) => SendBeginKeeps(c, e, flag);
    case ClearNext(_) => ClearNextKeeps(c, e, flag);
    case CopyIn(_) => CopyInKeeps(c, e, flag);
    case SendEnd(t) => if c.s.pc[t].urgent { UrgentKeeps(c, e, flag); } else { NormalKeeps(c, e, flag); }
    case RecvBegin(_, _, _, _, _) =>
      if c.s.entry == 0 { RecvWaitsKeeps(c, e, flag); } else { RecvTakesKeeps(c, e, flag); }
    case CopyOut(_) => CopyOutKeeps(c, e, flag);
    case RecvEnd(_) => RecvEndKeeps(c, e, flag);
    case Expire(_) => ExpireKeeps(c, e, flag);
    case Reset => ResetKeeps(c, e, flag);
  }

  lemma StepSize(c: Conf, e: Event, flag: Flag)
    requires Shape(c.s) && Enabled(c, e)
    ensures |Next(c, e, flag).s.next| == |c.s.next| && Next(c, e, flag).s.msgSize == c.s.msgSize
  {}

  // What each call answers, and what it leaves behind.

  ghost predicate SameQueue(s: State, s': State) {
    && s'.next == s.next && s'.data == s.data && s'.msgSize == s.msgSize
    && s'.head == s.head && s'.tail == s.tail && s'.entry == s.entry
  }

  ghost predicate SameWaits(s: State, s': State) {
    s'.receivers == s.receivers && s'.suspended == s.suspended
  }

  /** A send is refused exactly if its message is too long, or else if every node is queued or in the hands of a
      thread, and then changes nothing; otherwise its thread has a node that was free. Nobody has to wait. */
  lemma SendAnswers(c: Conf, e: Event, flag: Flag)
    requires Core(c) && e.SendBegin? && Enabled(c, e)
    ensures var s, (s', r) := c.s, Step(c, e, flag);
            && r == (if |e.msg| > s.msgSize then Error
                     else if forall n | 0 <= n < |c.g.owner| :: c.g.owner[n] != Free then Full else Done)
            && (r != Done ==> s' == s)
            && (r == Done ==>
                  && e.tid in s'.pc && s'.pc - {e.tid} == s.pc && s'.pc[e.tid].node < |c.g.owner|
                  && c.g.owner[s'.pc[e.tid].node] == Free && SameQueue(s, s') && SameWaits(s, s'))
  {
    HeadNode(c.s.next, c.s.free, c.g.freeNodes);
    if c.g.freeNodes != [] {
      assert c.g.freeNodes[0] in OwnedBy(c.g.owner, Free);
    } else {
      assert Members(c.g.freeNodes) == {};
      forall n | 0 <= n < |c.g.owner| ensures c.g.owner[n] != Free {
        assert n !in OwnedBy(c.g.owner, Free);
      }
    }
  }

  /** The last section of a send counts its message, and wakes exactly the receiver that is to be woken first. */
  lemma SendWakes(c: Conf, e: Event, flag: Flag)
    requires Inv(c, flag) && e.SendEnd? && Enabled(c, e)
    ensures var s, c' := c.s, Next(c, e, flag);
            && c'.s.entry == s.entry + 1 && c'.s.pc == s.pc - {e.tid} && c'.s.free == s.free && c'.s.data == s.data
            && WakesFirst(c.g.arrivals, s.receivers, c.g.woken, s.suspended,
                   c'.s.receivers, c'.g.woken, c'.s.suspended, flag)
  {
    HeadWakesFirst(c.g.arrivals, c.s.receivers, c.g.woken, c.s.suspended, flag);
  }

  /** A receive from an empty queue changes nothing and reports a timeout if its caller gives it no time; with any
      other time, limited or not, its caller is suspended behind the receivers that come before it. */
  lemma RecvWaits(c: Conf, e: Event, flag: Flag)
    requires Inv(c, flag) && e.RecvBegin? && Enabled(c, e) && c.s.entry == 0
    ensures var s, (s', r) := c.s, Step(c, e, flag);
            if e.timeout == 0 then r == Timeout && s' == s
            else
              && r == Blocked && s'.receivers == Queue(c.g.arrivals + [Waiter(e.tid, e.prio)], flag)
              && s'.suspended == s.suspended + {e.tid}
              && SameQueue(s, s') && s'.free == s.free && s'.pc == s.pc
  {
    ArrivedWaits(c.s.receivers, c.g.arrivals, Waiter(e.tid, e.prio), flag);
  }

  /** A receive from a queue that is not empty takes the first message, with its node, and nobody has to wait. */
  lemma RecvGoes(c: Conf, e: Event, flag: Flag)
    requires Core(c) && e.RecvBegin? && Enabled(c, e) && c.s.entry > 0
    ensures Step(c, e, flag).1 == Done && c.g.mail != [] && c.g.queue != []
    ensures var s, c' := c.s, Next(c, e, flag);
            && c'.g.mail == c.g.mail[1..] && c'.g.taken == c.g.taken + [c.g.mail[0]]
            && e.tid in c'.s.pc && c'.s.pc[e.tid].node == c.g.queue[0] && c'.s.pc - {e.tid} == s.pc
            && e.tid in c'.g.due && c'.g.due[e.tid] == c.g.mail[0].bytes
            && c'.s.entry == s.entry - 1 && c'.s.free == s.free && c'.s.data == s.data && SameWaits(s, c'.s)
  {
    FrontTaken(c, e, flag);
    HeadNode(c.s.next, c.s.head, c.g.queue);
  }

  /** A receiver whose time is over leaves the list, and the others wait on in the order in which they came; a
      reset wakes everybody and leaves no message, and the calls under way go on. */
  lemma WaitEnds(c: Conf, e: Event, flag: Flag)
    requires Inv(c, flag) && Enabled(c, e) && (e.Expire? || e.Reset?)
    ensures var s, c' := c.s, Next(c, e, flag);
            if e.Expire? then
              && c'.s.receivers == Queue(Remove(c.g.arrivals, e.tid), flag) && e.tid !in Tids(c'.s.receivers)
              && c'.s.suspended == s.suspended - {e.tid} && SameQueue(s, c'.s) && c'.s.free == s.free && c'.s.pc == s.pc
            else
              && c'.s.entry == 0 && c'.g.mail == [] && c'.s.receivers == [] && c'.s.pc == s.pc && c'.s.data == s.data
              && c'.s.suspended == s.suspended - Tids(s.receivers)
              && OwnedBy(c'.g.owner, Free) == OwnedBy(c.g.owner, Free) + OwnedBy(c.g.owner, Queued)
  {
    if e.Expire? {
      ArrivedLeaves(c.s.receivers, c.g.arrivals, e.tid, flag);
      RemoveTids(c.s.receivers, e.tid);
    } else {
      FreedOwned(c.g.owner);
    }
  }

  // Runs.

  ghost predicate Run(c: Conf, es: seq<Event>, flag: Flag)
    decreases |es|
  {
    es == [] || (Shape(c.s) && Enabled(c, es[0]) && Run(Next(c, es[0], flag), es[1..], flag))
  }

  ghost function After(c: Conf, es: seq<Event>, flag: Flag): Conf
    requires Run(c, es, flag)
    decreases |es|
  {
    if es == [] then c else After(Next(c, es[0], flag), es[1..], flag)
  }

  lemma {:induction false} RunKeeps(c: Conf, es: seq<Event>, flag: Flag)
    requires Inv(c, flag) && Run(c, es, flag)
    ensures Inv(After(c, es, flag), flag)
    ensures |After(c, es, flag).s.next| == |c.s.next| && After(c, es, flag).s.msgSize == c.s.msgSize
    decreases |es|
  {
    if es != [] {
      StepKeeps(c, es[0], flag);
      StepSize(c, es[0], flag);
      RunKeeps(Next(c, es[0], flag), es[1..], flag);
    }
  }

  function Links(max: nat): seq<Ptr> {
    seq(max, k requires 0 <= k < max => if k == 0 then Null else Node(k - 1))
  }

  function Down(n: nat): seq<nat> {
    if n == 0 then [] else [n - 1] + Down(n - 1)
  }

  /** rt_mq_init. */
  function Initial(data: seq<seq<Byte>>, msgSize: nat): Conf {
    var max := |data|;
    Conf(State(Links(max), data, msgSize, Null, Null, if max == 0 then Null else Node(max - 1), 0, [], {}, map[]),
         Ledger([], Down(max), seq(max, _ => Free), [], map[], map[], [], [], [], [], []))
  }

  lemma {:induction false} LinksDown(max: nat, n: nat)
    requires n <= max
    ensures Chain(Links(max), if n == 0 then Null else Node(n - 1), Down(n))
    ensures forall k :: k in Down(n) <==> 0 <= k < n
  {
    if n > 0 {
      LinksDown(max, n - 1);
      MembersTail(Down(n));
      assert Down(n)[1..] == Down(n - 1);
    }
  }

  lemma InitialInv(data: seq<seq<Byte>>, msgSize: nat, flag: Flag)
    requires forall n | 0 <= n < |data| :: |data[n]| == msgSize
    ensures Inv(Initial(data, msgSize), flag)
  {
    LinksDown(|data|, |data|);
    var c := Initial(data, msgSize);
    forall t ensures HeldBy(c.g.owner, c.s.pc, t) {
      assert OwnedBy(c.g.owner, Held(t)) == {};
    }
  }

  lemma {:induction false} ChainCount(next: seq<Ptr>, p: Ptr, ns: seq<nat>)
    requires Chain(next, p, ns)
    ensures |Members(ns)| == |ns|
    decreases ns
  {
    if ns != [] {
      MembersTail(ns);
      ChainCount(next, next[ns[0]], ns[1..]);
    }
  }

  lemma {:induction false} BelowCount(s: set<nat>, n: nat)
    requires forall x | x in s :: x < n
    ensures |s| <= n
  {
    if n > 0 {
      BelowCount(s - {n - 1}, n - 1);
    }
  }

  lemma OnePlace(c: Conf, n: nat)
    requires Core(c) && n < |c.s.next|
    ensures n in c.g.queue || n in c.g.freeNodes || exists t | t in c.s.pc :: c.s.pc[t].node == n
    ensures !(n in c.g.queue && n in c.g.freeNodes)
    ensures forall t | t in c.s.pc && c.s.pc[t].node == n :: n !in c.g.queue && n !in c.g.freeNodes
    ensures forall t, u | t in c.s.pc && u in c.s.pc && c.s.pc[t].node == n && c.s.pc[u].node == n :: t == u
  {
    assert n in Members(c.g.queue) <==> c.g.owner[n] == Queued;
    assert n in Members(c.g.freeNodes) <==> c.g.owner[n] == Free;
    if c.g.owner[n].Held? {
      var t := c.g.owner[n].tid;
      assert HeldBy(c.g.owner, c.s.pc, t);
      assert n in OwnedBy(c.g.owner, Held(t));
    }
    forall t | t in c.s.pc && c.s.pc[t].node == n ensures c.g.owner[n] == Held(t) {
      MineAlone(c.g, c.s.pc, t);
    }
  }

  lemma {:induction false} StoredCount(data: seq<seq<Byte>>, ns: seq<nat>, ms: seq<Mail>)
    requires Stored(data, ns, ms)
    ensures |ms| == |ns|
  {
    if ns != [] {
      StoredCount(data, ns[1..], ms[1..]);
    }
  }

  lemma QueueCount(c: Conf)
    requires Core(c)
    ensures c.s.entry == |c.g.queue| == |c.g.mail| <= |c.s.next|
    ensures (c.s.head == Null <==> c.s.entry == 0) && (c.s.tail == Null <==> c.s.entry == 0)
  {
    ChainCount(c.s.next, c.s.head, c.g.queue);
    ChainInside(c.s.next, c.s.head, c.g.queue);
    BelowCount(Members(c.g.queue), |c.s.next|);
    StoredCount(c.s.data, c.g.queue, c.g.mail);
  }

  lemma Reached(data: seq<seq<Byte>>, msgSize: nat, es: seq<Event>, flag: Flag)
    requires (forall k | 0 <= k < |data| :: |data[k]| == msgSize) && Run(Initial(data, msgSize), es, flag)
    ensures var c := After(Initial(data, msgSize), es, flag);
            Inv(c, flag) && |c.s.next| == |data| && c.s.msgSize == msgSize
  {
    InitialInv(data, msgSize, flag);
    RunKeeps(Initial(data, msgSize), es, flag);
  }

  /** Node `n` of the pool is in the queue, on the free list or in the hands of one thread, and in one of
      these only; the counter is the length of the queue, which the pool bounds, and head and tail are null
      together, exactly when it is empty; if receivers wait, a woken receiver is under way for every message,
      and their list is their order of arrival, stably sorted by priority if the flag says so. */
  ghost predicate Consistent(c: Conf, n: nat, flag: Flag) {
    && (n in c.g.queue || n in c.g.freeNodes || exists t | t in c.s.pc :: c.s.pc[t].node == n)
    && !(n in c.g.queue && n in c.g.freeNodes)
    && (forall t | t in c.s.pc && c.s.pc[t].node == n :: n !in c.g.queue && n !in c.g.freeNodes)
    && (forall t, u | t in c.s.pc && u in c.s.pc && c.s.pc[t].node == n && c.s.pc[u].node == n :: t == u)
    && c.s.entry == |c.g.queue| == |c.g.mail| <= |c.s.next|
    && (c.s.head == Null <==> c.s.entry == 0) && (c.s.tail == Null <==> c.s.entry == 0)
    && (c.s.receivers != [] ==> c.s.entry <= |c.g.woken|) && Unique(c.g.woken)
    && c.s.receivers == Queue(c.g.arrivals, flag)
  }

  lemma InvConsistent(c: Conf, n: nat, flag: Flag)
    requires Inv(c, flag) && n < |c.s.next|
    ensures Consistent(c, n, flag)
  {
    OnePlace(c, n);
    QueueCount(c);
  }

  /** In every reachable state the pool, the queue and the list of the receivers are consistent. */
  lemma Safety(data: seq<seq<Byte>>, msgSize: nat, es: seq<Event>, flag: Flag, n: nat)
    requires (forall k | 0 <= k < |data| :: |data[k]| == msgSize) && Run(Initial(data, msgSize), es, flag) && n < |data|
    ensures Consistent(After(Initial(data, msgSize), es, flag), n, flag)
    ensures |After(Initial(data, msgSize), es, flag).s.next| == |data|
  {
    Reached(data, msgSize, es, flag);
    InvConsistent(After(Initial(data, msgSize), es, flag), n, flag);
  }

  lemma {:induction false} AllNormal(ms: seq<Mail>)
    requires forall m | m in ms :: !m.urgent
    ensures Normal(ms) == ms
  {
    if ms != [] {
      assert ms == [ms[0]] + ms[1..];
      AllNormal(ms[1..]);
    }
  }

  lemma WithoutUrgent(sent: seq<Mail>, taken: seq<Mail>, mail: seq<Mail>)
    requires Accounted(sent, taken, mail) && InOrder(sent, taken, mail) && forall m | m in sent :: !m.urgent
    ensures sent == taken + mail
  {
    forall m | m in taken + mail ensures !m.urgent {
      assert m in multiset(taken) + multiset(mail);
      assert m in multiset(sent);
    }
    AllNormal(sent);
    AllNormal(taken);
    AllNormal(mail);
  }

  /** One of these calls passed the message. */
  ghost predicate WasPassed(m: Mail, es: seq<Event>) {
    exists e :: e in es && e.SendBegin? && e.msg == m.bytes && e.urgent == m.urgent
  }

  ghost predicate FromCalls(g: Ledger, es: seq<Event>) {
    && (forall m | m in g.sent :: WasPassed(m, es))
    && (forall t | t in g.calls && g.calls[t].ToSend? :: WasPassed(g.calls[t].mail, es))
  }

  lemma StillPassed(m: Mail, past: seq<Event>, e: Event)
    ensures WasPassed(m, past) ==> WasPassed(m, past + [e])
    ensures e.SendBegin? ==> WasPassed(Mail(e.msg, e.urgent), past + [e])
  {
    assert e in past + [e];
    if WasPassed(m, past) {
      var x :| x in past && x.SendBegin? && x.msg == m.bytes && x.urgent == m.urgent;
      assert x in past + [e];
    }
  }

  lemma StepFromCalls(c: Conf, e: Event, flag: Flag, past: seq<Event>)
    requires Shape(c.s) && Enabled(c, e) && FromCalls(c.g, past)
    ensures FromCalls(Next(c, e, flag).g, past + [e])
  {
    var g' := Next(c, e, flag).g;
    forall m | m in g'.sent ensures WasPassed(m, past + [e]) {
      StillPassed(m, past, e);
    }
    forall t | t in g'.calls && g'.calls[t].ToSend? ensures WasPassed(g'.calls[t].mail, past + [e]) {
      StillPassed(g'.calls[t].mail, past, e);
    }
  }

  lemma {:induction false} RunFromCalls(c: Conf, es: seq<Event>, flag: Flag, past: seq<Event>)
    requires Run(c, es, flag) && FromCalls(c.g, past)
    ensures FromCalls(After(c, es, flag).g, past + es)
    decreases |es|
  {
    if es == [] {
      assert past + [] == past;
    } else {
      StepFromCalls(c, es[0], flag, past);
      RunFromCalls(Next(c, es[0], flag), es[1..], flag, past + [es[0]]);
      assert past + [es[0]] + es[1..] == past + es;
    }
  }

  /** The messages linked since the last reset were passed, as they are and as urgent as they are, by calls of
      rt_mq_send and rt_mq_urgent; they are those taken since and those in the queue; the normal ones are taken
      in the order in which they were linked, and the urgent ones in the queue come first; without urgent ones
      the queue is a FIFO; and every receive that is done gave its caller the bytes of the message it took. */
  ghost predicate FairExchange(g: Ledger, msgSize: nat, es: seq<Event>) {
    && (forall m | m in g.sent :: WasPassed(m, es))
    && multiset(g.sent) == multiset(g.taken) + multiset(g.mail)
    && Normal(g.sent) == Normal(g.taken) + Normal(g.mail) && UrgentFirst(g.mail)
    && ((forall m | m in g.sent :: !m.urgent) ==> g.sent == g.taken + g.mail)
    && forall d | d in g.done :: Faithful(d, msgSize)
  }

  lemma InvFairExchange(g: Ledger, msgSize: nat, es: seq<Event>)
    requires Exchanged(g, msgSize) && FromCalls(g, es)
    ensures FairExchange(g, msgSize, es)
  {
    if forall m | m in g.sent :: !m.urgent {
      WithoutUrgent(g.sent, g.taken, g.mail);
    }
  }

  lemma ReachedExchange(data: seq<seq<Byte>>, msgSize: nat, es: seq<Event>, flag: Flag)
    requires (forall k | 0 <= k < |data| :: |data[k]| == msgSize) && Run(Initial(data, msgSize), es, flag)
    ensures Exchanged(After(Initial(data, msgSize), es, flag).g, msgSize)
  {
    Reached(data, msgSize, es, flag);
  }

  /** In every reachable state the exchange is fair. */
  lemma Exchange(data: seq<seq<Byte>>, msgSize: nat, es: seq<Event>, flag: Flag)
    requires (forall k | 0 <= k < |data| :: |data[k]| == msgSize) && Run(Initial(data, msgSize), es, flag)
    ensures FairExchange(After(Initial(data, msgSize), es, flag).g, msgSize, es)
  {
    ReachedExchange(data, msgSize, es, flag);
    RunFromCalls(Initial(data, msgSize), es, flag, []);
    assert [] + es == es;
    InvFairExchange(After(Initial(data, msgSize), es, flag).g, msgSize, es);
  }

  function Align(n: nat): (r: nat)
    ensures n <= r < n + 4 && r % 4 == 0
  {
    (n + 3) / 4 * 4
  }

  class MessageQueue {
    const next: array<Ptr>            // the links of the nodes of msg_pool
    const data: array<seq<Byte>>      // and what follows each link
    const msgSize: nat                // 16-bit, like the number of nodes and `entry`
    var head: Ptr                     // msg_queue_head
    var tail: Ptr
    var free: Ptr
    var entry: nat
    const flag: Flag
    var receivers: seq<Waiter>        // suspend_thread
    var suspended: set<Tid>           // the threads in the SUSPEND state here
    var pc: map<Tid, Pc>              // the calls under way, on their threads' stacks

    ghost var g: Ledger

    ghost function Abs(): Conf
      reads this, next, data
    {
      Conf(State(next[..], data[..], msgSize, head, tail, free, entry, receivers, suspended, pc), g)
    }

    /** rt_mq_init: the pool is cut into nodes of `msgSize` bytes behind a link of 4. */
    constructor (msgSize: nat, poolSize: nat, flag: Flag)
      ensures this.msgSize == Align(msgSize) % U16 && next.Length == data.Length == poolSize / (this.msgSize + 4) % U16
      ensures fresh(next) && fresh(data) && next.Length < U16 && this.flag == flag
      ensures Abs() == Initial(data[..], this.msgSize) && Inv(Abs(), flag)
    {
      var size := Align(msgSize) % U16;
      var max := poolSize / (size + 4) % U16;
      this.msgSize, this.flag, receivers, suspended, pc := size, flag, [], {}, map[];
      head, tail, free, entry := Null, Null, Null, 0;
      next, data := new Ptr[max](_ => Null), new seq<Byte>[max](_ => seq(size, _ => 0));
      g := Initial(seq(max, _ => []), size).g;
      new;
      var temp := 0;
      while temp < max
        invariant 0 <= temp <= max && free == if temp == 0 then Null else Node(temp - 1)
        invariant forall k | 0 <= k < temp :: next[k] == Links(max)[k]
        invariant head == Null && tail == Null && entry == 0 && receivers == [] && suspended == {} && pc == map[]
        invariant g == Initial(seq(max, _ => []), size).g
        invariant forall k | 0 <= k < max :: |data[k]| == size
      {
        next[temp] := free;
        free := Node(temp);
        temp := temp + 1;
      }
      assert next[..] == Links(max);
      InitialInv(data[..], size, flag);
    }

    /** The first section of rt_mq_send and rt_mq_urgent: takes a free node. */
    method SendBegin(t: Tid, msg: seq<Byte>, urgent: bool) returns (ret: Status)
      requires Shape(Abs().s) && Enabled(Abs(), Event.SendBegin(t, msg, urgent))
      modifies this
      ensures Abs() == Next(old(Abs()), Event.SendBegin(t, msg, urgent), flag)
      ensures ret == Step(old(Abs()), Event.SendBegin(t, msg, urgent), flag).1
    {
      ghost var c := Abs();
      if |msg| > msgSize {
        ret := Error;
      } else if free == Null {
        ret := Full;
      } else {
        var n := free.n;
        free := next[n];
        pc := pc[t := Sending(n, msg, urgent, false, 0)];
        ret := Done;
      }
      g := Booked(g, c.s, Event.SendBegin(t, msg, urgent), ret);
    }

    /** The stores outside the sections: the link of a normal message, then its bytes. */
    method ClearNext(t: Tid)
      requires Shape(Abs().s) && Enabled(Abs(), Event.ClearNext(t))
      modifies this, next
      ensures Abs() == Next(old(Abs()), Event.ClearNext(t), flag)
    {
      next[pc[t].node] := Null;
      pc := pc[t := pc[t].(cleared := true)];
    }

    method CopyIn(t: Tid)
      requires Shape(Abs().s) && Enabled(Abs(), Event.CopyIn(t))
      modifies this, data
      ensures Abs() == Next(old(Abs()), Event.CopyIn(t), flag)
    {
      var p := pc[t];
      assert |data[..][p.node]| == msgSize;
      data[p.node] := data[p.node][p.i := p.msg[p.i]];
      pc := pc[t := p.(i := p.i + 1)];
    }

    /** Links a node at the front of the queue. */
    method LinkFirst(n: nat)
      requires n < next.Length
      modifies next, `head, `tail
      ensures next[..] == old(next[..])[n := old(head)] && head == Node(n)
              && tail == if old(tail) == Null then Node(n) else old(tail)
    {
      next[n] := head;
      head := Node(n);
      if tail == Null {
        tail := Node(n);
      }
    }

    /** Links a node at the end of the queue. */
    method LinkLast(n: nat)
      requires n < next.Length && (tail.Node? ==> tail.n < next.Length)
      modifies next, `head, `tail
      ensures next[..] == if old(tail).Node? then old(next[..])[old(tail).n := Node(n)] else old(next[..])
      ensures tail == Node(n) && head == if old(head) == Null then Node(n) else old(head)
    {
      if tail != Null {
        next[tail.n] := Node(n);
      }
      tail := Node(n);
      if head == Null {
        head := Node(n);
      }
    }

    /** Wakes the first waiting receiver. */
    method WakeReceiver()
      requires Unique(receivers) && Tids(receivers) <= suspended
      modifies `receivers, `suspended
      ensures receivers == Resumed(old(receivers)) && suspended == old(suspended) - Tids(Head(old(receivers)))
    {
      if receivers != [] {
        receivers, suspended := ListResume(receivers, suspended);
      }
    }

    /** The second section of rt_mq_send or rt_mq_urgent: links the message and wakes a receiver. */
    method SendEnd(t: Tid)
      requires Shape(Abs().s) && Waits(Abs().s, g) && Enabled(Abs(), Event.SendEnd(t))
      modifies this, next
      ensures Abs() == Next(old(Abs()), Event.SendEnd(t), flag)
    {
      ghost var c := Abs();
      var n := pc[t].node;
      if pc[t].urgent {
        LinkFirst(n);
      } else {
        LinkLast(n);
      }
      entry := entry + 1;
      WakeReceiver();
      pc := pc - {t};
      g := Booked(g, c.s, Event.SendEnd(t), Done);
    }

    /** rt_mq_recv up to the end of its first section, or the next turn of its loop. */
    method RecvBegin(t: Tid, prio: nat, size: nat, timeout: int, again: bool) returns (ret: Status)
      requires Shape(Abs().s) && Enabled(Abs(), Event.RecvBegin(t, prio, size, timeout, again))
      modifies this
      ensures Abs() == Next(old(Abs()), Event.RecvBegin(t, prio, size, timeout, again), flag)
      ensures ret == Step(old(Abs()), Event.RecvBegin(t, prio, size, timeout, again), flag).1
    {
      ghost var c := Abs();
      if entry == 0 {
        if timeout == 0 {
          ret := Timeout;
        } else {
          suspended := suspended + {t};
          receivers := ListSuspend(receivers, Waiter(t, prio), flag);
          ret := Blocked;
        }
      } else {
        var n := head.n;
        if tail == head {
          tail := Null;
        }
        head := next[n];
        entry := entry - 1;
        pc := pc[t := Fetching(n, size, [])];
        ret := Done;
      }
      g := Booked(g, c.s, Event.RecvBegin(t, prio, size, timeout, again), ret);
    }

    method CopyOut(t: Tid)
      requires Shape(Abs().s) && Enabled(Abs(), Event.CopyOut(t))
      modifies this
      ensures Abs() == Next(old(Abs()), Event.CopyOut(t), flag)
    {
      var p := pc[t];
      assert |data[..][p.node]| == msgSize;
      pc := pc[t := p.(buf := p.buf + [data[p.node][|p.buf|]])];
    }

    /** The second section of rt_mq_recv: gives the node back. */
    method RecvEnd(t: Tid) returns (buf: seq<Byte>)
      requires Shape(Abs().s) && Enabled(Abs(), Event.RecvEnd(t))
      modifies this, next
      ensures Abs() == Next(old(Abs()), Event.RecvEnd(t), flag) && buf == old(pc)[t].buf
    {
      ghost var c := Abs();
      var n := pc[t].node;
      buf := pc[t].buf;
      next[n] := free;
      free := Node(n);
      pc := pc - {t};
      g := Booked(g, c.s, Event.RecvEnd(t), Done);
    }

    /** The loop of a reset, which gives every queued node back. */
    method Drain(ghost nodes: seq<nat>)
      requires Chain(next[..], head, nodes) && tail == LastPtr(nodes)
      modifies next, `head, `tail, `free
      ensures (next[..], free) == Drained(old(next[..]), old(head), old(free), |nodes|) && head == Null && tail == Null
    {
      ghost var q := nodes;
      HeadNode(next[..], head, q);
      while head != Null
        invariant Chain(next[..], head, q) && tail == LastPtr(q)
        invariant Drained(next[..], head, free, |q|) == Drained(old(next[..]), old(head), old(free), |nodes|)
        decreases |q|
      {
        HeadNode(next[..], head, q);
        var msg := head.n;
        ghost var was := next[..];
        head := next[msg];
        if tail == Node(msg) {
          tail := Null;
        }
        next[msg] := free;
        assert next[..] == was[msg := free];
        ChainKept(was, head, q[1..], msg, free);
        free := Node(msg);
        q := q[1..];
      }
      HeadNode(next[..], head, q);
    }

    /** rt_mq_control with RT_IPC_CMD_RESET. */
    method ResetAll()
      requires Shape(Abs().s) && Linked(Abs().s, g) && Waits(Abs().s, g)
      modifies this, next
      ensures Abs() == Next(old(Abs()), Reset, flag)
    {
      ghost var c := Abs();
      var failed;
      receivers, suspended, failed := ResumeAll(receivers, suspended);
      Drain(g.queue);
      entry := 0;
      g := Booked(g, c.s, Reset, Done);
    }

    /** rt_thread_timeout of a receiver that is suspended here. */
    method Expire(t: Tid)
      requires Shape(Abs().s) && Enabled(Abs(), Event.Expire(t))
      modifies `receivers, `suspended, `g
      ensures Abs() == Next(old(Abs()), Event.Expire(t), flag)
    {
      ghost var c := Abs();
      receivers, suspended := Remove(receivers, t), suspended - {t};
      g := Booked(g, c.s, Event.Expire(t), Done);
    }
  }
}
