/** The ready queues, the ready bitmap over them and the thread states (rt_schedule,
    rt_schedule_insert_thread, rt_schedule_remove_thread, rt_enter_critical, rt_exit_critical and the
    calls of thread.c). With more than 32 priorities the bitmap has two levels. A context switch is
    an assignment to the current thread. */
module Scheduler {
  import opened Bits
  import opened Lists
  import opened Words

  type Tid = nat

  datatype Stat = Init | Ready | Suspend | Close

  datatype Current = Nobody | Runs(tid: Tid)

  datatype Thread = Thread(stat: Stat, initPrio: nat, prio: nat, number: nat, numberMask: nat, highMask: nat)

  /** `max` is RT_THREAD_PRIORITY_MAX, `group` and `table` are rt_thread_ready_priority_group and
      rt_thread_ready_table, `queues` is rt_thread_priority_table. */
  datatype State = State(max: nat, group: nat, table: seq<nat>, queues: seq<seq<Tid>>, threads: map<Tid, Thread>,
                         current: Current, currentPrio: nat, lockNest: int)

  /** A number in 16 bits with a sign. */
  function Signed16(n: int): int {
    (n + U16 / 2) % U16 - U16 / 2
  }

  predicate TwoLevel(max: nat) {
    max > 32
  }

  /** The priority and what is computed from it. */
  function WithPriority(th: Thread, p: nat, max: nat): Thread {
    if TwoLevel(max) then th.(prio := p, number := p / 8, numberMask := Mask(p / 8), highMask := Mask(p % 8))
    else th.(prio := p, numberMask := Mask(p))
  }

  predicate InRange(th: Thread, max: nat) {
    th.prio < max && th.initPrio < max && th.number < 32
  }

  /** The masks of a thread are those of its priority, or were never computed. */
  ghost predicate ThreadOk(th: Thread, max: nat) {
    InRange(th, max) && (Masked(th, max) || (th.number == 0 && th.numberMask == 0 && th.highMask == 0))
  }

  predicate Masked(th: Thread, max: nat) {
    if TwoLevel(max) then
      th.number == th.prio / 8 && th.numberMask == Mask(th.number) && th.highMask == Mask(th.prio % 8)
    else th.numberMask == Mask(th.prio)
  }

  ghost predicate Shape(s: State) {
    && |s.queues| == s.max <= 256 && |s.table| == 32
    && forall t | t in s.threads :: InRange(s.threads[t], s.max)
  }

  ghost predicate Threads(s: State) {
    forall t | t in s.threads :: ThreadOk(s.threads[t], s.max)
  }

  /** rt_schedule_insert_thread */
  function Insert(s: State, t: Tid): State
    requires Shape(s) && t in s.threads
  {
    var th := s.threads[t];
    s.(threads := s.threads[t := th.(stat := Ready)],
       queues := s.queues[th.prio := s.queues[th.prio] + [t]],
       table := if TwoLevel(s.max) then s.table[th.number := Or(s.table[th.number], th.highMask)] else s.table,
       group := Or(s.group, th.numberMask))
  }

  /** rt_schedule_remove_thread. A thread that is not in its ready queue leaves another list. */
  function Remove(s: State, t: Tid): State
    requires Shape(s) && t in s.threads
  {
    var th := s.threads[t];
    var q := Without(s.queues[th.prio], t);
    var unlinked := s.(queues := s.queues[th.prio := q]);
    if q != [] then unlinked
    else if TwoLevel(s.max) then
      var w := AndNot(s.table[th.number], th.highMask);
      unlinked.(table := s.table[th.number := w], group := if w == 0 then AndNot(s.group, th.numberMask) else s.group)
    else unlinked.(group := AndNot(s.group, th.numberMask))
  }

  /** The priority rt_schedule finds. */
  function Highest(s: State): int
    requires |s.table| == 32 && s.group < U32
  {
    var number := Ffs(s.group) - 1;
    if TwoLevel(s.max) then number * 8 + (if 0 <= number < 32 then Ffs(s.table[number]) else 0) - 1 else number
  }

  /** The first non-empty queue from p on, if there is one: what rt_schedule is to find. */
  function First(queues: seq<seq<Tid>>, p: nat): (r: nat)
    requires p <= |queues|
    ensures p <= r <= |queues| && (r < |queues| ==> queues[r] != []) && forall k | p <= k < r :: queues[k] == []
    decreases |queues| - p
  {
    if p == |queues| || queues[p] != [] then p else First(queues, p + 1)
  }

  // The invariant.

  ghost function ReadyAt(threads: map<Tid, Thread>, p: nat): set<Tid> {
    set t | t in threads && threads[t].stat.Ready? && threads[t].prio == p
  }

  /** The queue of priority p holds the READY threads of this priority, each once. */
  ghost predicate QueueOk(q: seq<Tid>, threads: map<Tid, Thread>, p: nat) {
    NoDuplicates(q) && Members(q) == ReadyAt(threads, p)
  }

  ghost predicate Queues(s: State) {
    |s.queues| == s.max && forall p {:trigger QueueOk(s.queues[p], s.threads, p)} | 0 <= p < s.max ::
        QueueOk(s.queues[p], s.threads, p)
  }

  ghost predicate NonEmpty(queues: seq<seq<Tid>>, p: nat) {
    p < |queues| && queues[p] != []
  }

  /** Each bit is set iff a queue under it is not empty. */
  ghost predicate OneLevel(group: nat, queues: seq<seq<Tid>>) {
    group < U32 && forall p {:trigger Has(group, p)} | 0 <= p < 32 :: Has(group, p) <==> NonEmpty(queues, p)
  }

  ghost predicate ByteOk(w: nat, queues: seq<seq<Tid>>, n: nat) {
    w < 256 && forall k {:trigger Has(w, k)} | 0 <= k < 8 :: Has(w, k) <==> NonEmpty(queues, 8 * n + k)
  }

  ghost predicate TwoLevels(group: nat, table: seq<nat>, queues: seq<seq<Tid>>) {
    && group < U32 && |table| == 32
    && (forall n {:trigger Has(group, n)} | 0 <= n < 32 :: Has(group, n) <==> table[n] != 0)
    && (forall n {:trigger ByteOk(table[n], queues, n)} | 0 <= n < 32 :: ByteOk(table[n], queues, n))
  }

  ghost predicate Bitmap(s: State) {
    if TwoLevel(s.max) then TwoLevels(s.group, s.table, s.queues) else OneLevel(s.group, s.queues)
  }

  ghost predicate Inv(s: State) {
    Shape(s) && Threads(s) && Queues(s) && Bitmap(s)
  }

  // The bitmap follows the queues.

  lemma MaskBelow32(i: nat)
    requires i < 32
    ensures 0 < Mask(i) < U32 && U32 == Mask(32)
  {
    MaskMonotone(i, 32);
    Mask32();
  }

  lemma Mask32()
    ensures Mask(8) == 256 && Mask(32) == U32
  {
    assert Mask(4) == 16;
    assert Mask(8) == 256;
    assert Mask(12) == 0x1000;
    assert Mask(16) == 0x1_0000;
    assert Mask(20) == 0x10_0000;
    assert Mask(24) == 0x100_0000;
    assert Mask(28) == 0x1000_0000;
  }

  /** One queue changes; bit i of w stands for it. */
  lemma BitSet(w: nat, i: nat, k: nat)
    ensures Has(Or(w, Mask(i)), k) <==> Has(w, k) || k == i
  {
    HasOr(w, Mask(i), k);
    HasMask(i, k);
  }

  lemma BitCleared(w: nat, i: nat, k: nat)
    ensures Has(AndNot(w, Mask(i)), k) <==> Has(w, k) && k != i
  {
    HasAndNot(w, Mask(i), k);
    HasMask(i, k);
  }

  lemma OneLevelInsert(group: nat, queues: seq<seq<Tid>>, p: nat, q: seq<Tid>)
    requires OneLevel(group, queues) && p < |queues| <= 32 && q != []
    ensures OneLevel(Or(group, Mask(p)), queues[p := q])
  {
    MaskBelow32(p);
    OrBelow(group, Mask(p), 32);
    forall k | 0 <= k < 32 ensures Has(Or(group, Mask(p)), k) <==> NonEmpty(queues[p := q], k) {
      BitSet(group, p, k);
      assert Has(group, k) <==> NonEmpty(queues, k);
    }
  }

  lemma OneLevelRemove(group: nat, queues: seq<seq<Tid>>, p: nat)
    requires OneLevel(group, queues) && p < |queues| <= 32
    ensures OneLevel(AndNot(group, Mask(p)), queues[p := []])
  {
    AndNotBelow(group, Mask(p));
    forall k | 0 <= k < 32 ensures Has(AndNot(group, Mask(p)), k) <==> NonEmpty(queues[p := []], k) {
      BitCleared(group, p, k);
      assert Has(group, k) <==> NonEmpty(queues, k);
    }
  }

  lemma OneLevelSame(group: nat, queues: seq<seq<Tid>>, p: nat, q: seq<Tid>)
    requires OneLevel(group, queues) && p < |queues| && (q == [] <==> queues[p] == [])
    ensures OneLevel(group, queues[p := q])
  {
    forall k | 0 <= k < 32 ensures Has(group, k) <==> NonEmpty(queues[p := q], k) {
      assert NonEmpty(queues[p := q], k) <==> NonEmpty(queues, k);
    }
  }

  lemma ByteInsert(w: nat, queues: seq<seq<Tid>>, n: nat, i: nat, q: seq<Tid>)
    requires ByteOk(w, queues, n) && i < 8 && 8 * n + i < |queues| && q != []
    ensures ByteOk(Or(w, Mask(i)), queues[8 * n + i := q], n) && Or(w, Mask(i)) != 0
  {
    MaskMonotone(i, 8);
    Mask32();
    OrBelow(w, Mask(i), 8);
    BitSet(w, i, i);
    HasZero(i);
    forall k | 0 <= k < 8 ensures Has(Or(w, Mask(i)), k) <==> NonEmpty(queues[8 * n + i := q], 8 * n + k) {
      BitSet(w, i, k);
      assert Has(w, k) <==> NonEmpty(queues, 8 * n + k);
    }
  }

  lemma ByteRemove(w: nat, queues: seq<seq<Tid>>, n: nat, i: nat)
    requires ByteOk(w, queues, n) && i < 8 && 8 * n + i < |queues|
    ensures ByteOk(AndNot(w, Mask(i)), queues[8 * n + i := []], n)
  {
    AndNotBelow(w, Mask(i));
    forall k | 0 <= k < 8 ensures Has(AndNot(w, Mask(i)), k) <==> NonEmpty(queues[8 * n + i := []], 8 * n + k) {
      BitCleared(w, i, k);
      assert Has(w, k) <==> NonEmpty(queues, 8 * n + k);
    }
  }

  lemma ByteSame(w: nat, queues: seq<seq<Tid>>, n: nat, p: nat, q: seq<Tid>)
    requires ByteOk(w, queues, n) && p < |queues| && (p / 8 != n || (q == [] <==> queues[p] == []))
    ensures ByteOk(w, queues[p := q], n)
  {
    forall k | 0 <= k < 8 ensures Has(w, k) <==> NonEmpty(queues[p := q], 8 * n + k) {
      assert Has(w, k) <==> NonEmpty(queues, 8 * n + k);
      assert (8 * n + k) / 8 == n;
    }
  }

  lemma BytesSame(table: seq<nat>, queues: seq<seq<Tid>>, p: nat, q: seq<Tid>, w: nat)
    requires |table| == 32 && p < |queues| <= 256
    requires forall n {:trigger ByteOk(table[n], queues, n)} | 0 <= n < 32 :: ByteOk(table[n], queues, n)
    requires ByteOk(w, queues[p := q], p / 8)
    ensures var table', queues' := table[p / 8 := w], queues[p := q];
            forall n {:trigger ByteOk(table'[n], queues', n)} | 0 <= n < 32 :: ByteOk(table'[n], queues', n)
  {
    var table', queues' := table[p / 8 := w], queues[p := q];
    forall n | 0 <= n < 32 ensures ByteOk(table'[n], queues', n) {
      if n != p / 8 {
        assert ByteOk(table[n], queues, n);
        ByteSame(table[n], queues, n, p, q);
      }
    }
  }

  lemma TwoLevelsInsert(group: nat, table: seq<nat>, queues: seq<seq<Tid>>, p: nat, q: seq<Tid>)
    requires TwoLevels(group, table, queues) && p < |queues| <= 256 && q != []
    ensures TwoLevels(Or(group, Mask(p / 8)), table[p / 8 := Or(table[p / 8], Mask(p % 8))], queues[p := q])
  {
    var n := p / 8;
    assert ByteOk(table[n], queues, n) && 8 * n + p % 8 == p;
    ByteInsert(table[n], queues, n, p % 8, q);
    var w := Or(table[n], Mask(p % 8));
    BytesSame(table, queues, p, q, w);
    MaskBelow32(n);
    OrBelow(group, Mask(n), 32);
    forall m | 0 <= m < 32 ensures Has(Or(group, Mask(n)), m) <==> table[n := w][m] != 0 {
      BitSet(group, n, m);
      assert Has(group, m) <==> table[m] != 0;
    }
  }

  lemma TwoLevelsRemove(group: nat, table: seq<nat>, queues: seq<seq<Tid>>, p: nat)
    requires TwoLevels(group, table, queues) && p < |queues| <= 256
    ensures var w := AndNot(table[p / 8], Mask(p % 8));
            TwoLevels(if w == 0 then AndNot(group, Mask(p / 8)) else group, table[p / 8 := w], queues[p := []])
  {
    var n := p / 8;
    assert ByteOk(table[n], queues, n) && 8 * n + p % 8 == p;
    ByteRemove(table[n], queues, n, p % 8);
    var w := AndNot(table[n], Mask(p % 8));
    AndNotBelow(table[n], Mask(p % 8));
    BytesSame(table, queues, p, [], w);
    AndNotBelow(group, Mask(n));
    var group' := if w == 0 then AndNot(group, Mask(n)) else group;
    forall m | 0 <= m < 32 ensures Has(group', m) <==> table[n := w][m] != 0 {
      BitCleared(group, n, m);
      assert Has(group, m) <==> table[m] != 0;
    }
  }

  lemma TwoLevelsSame(group: nat, table: seq<nat>, queues: seq<seq<Tid>>, p: nat, q: seq<Tid>)
    requires TwoLevels(group, table, queues) && p < |queues| <= 256 && (q == [] <==> queues[p] == [])
    ensures TwoLevels(group, table, queues[p := q])
  {
    var n := p / 8;
    assert ByteOk(table[n], queues, n);
    ByteSame(table[n], queues, n, p, q);
    BytesSame(table, queues, p, q, table[n]);
    assert table[n := table[n]] == table;
  }

  // The queues follow the states.

  lemma OtherQueues(s: State, threads: map<Tid, Thread>, p: nat, q: seq<Tid>)
    requires Queues(s) && p < s.max && QueueOk(q, threads, p)
    requires forall k | 0 <= k < s.max && k != p :: ReadyAt(threads, k) == ReadyAt(s.threads, k)
    ensures Queues(s.(threads := threads, queues := s.queues[p := q]))
  {
    var s' := s.(threads := threads, queues := s.queues[p := q]);
    forall k | 0 <= k < s.max ensures QueueOk(s'.queues[k], s'.threads, k) {
      if k != p {
        assert QueueOk(s.queues[k], s.threads, k);
      }
    }
  }

  lemma InsertQueues(s: State, t: Tid)
    requires Shape(s) && Queues(s) && t in s.threads && !s.threads[t].stat.Ready?
    ensures Queues(Insert(s, t))
  {
    var th := s.threads[t];
    var q := s.queues[th.prio];
    assert QueueOk(q, s.threads, th.prio);
    AppendMember(q, t);
    var threads := s.threads[t := th.(stat := Ready)];
    assert ReadyAt(threads, th.prio) == ReadyAt(s.threads, th.prio) + {t};
    OtherQueues(s, threads, th.prio, q + [t]);
    assert Queues(s.(threads := threads, queues := s.queues[th.prio := q + [t]]));
  }

  lemma {:induction false} AndNotZero(a: nat)
    ensures AndNot(a, 0) == a
  {
    if a > 0 {
      AndNotZero(a / 2);
    }
  }

  lemma OrZero(a: nat)
    ensures Or(a, 0) == a
  {}

  /** One queue changes and no bit does: right iff the queue is empty as before. */
  lemma BitmapSame(s: State, p: nat, q: seq<Tid>)
    requires Shape(s) && Bitmap(s) && p < s.max
    ensures Bitmap(s.(queues := s.queues[p := q])) <==> (q == [] <==> s.queues[p] == [])
  {
    var queues := s.queues[p := q];
    assert NonEmpty(queues, p) <==> q != [];
    assert NonEmpty(s.queues, p) <==> s.queues[p] != [];
    if q == [] <==> s.queues[p] == [] {
      if TwoLevel(s.max) {
        TwoLevelsSame(s.group, s.table, s.queues, p, q);
      } else {
        OneLevelSame(s.group, s.queues, p, q);
      }
    } else if TwoLevel(s.max) {
      var n, k := p / 8, p % 8;
      assert ByteOk(s.table[n], s.queues, n) && 8 * n + k == p;
      assert Has(s.table[n], k) <==> NonEmpty(s.queues, p);
      assert !ByteOk(s.table[n], queues, n);
    } else {
      assert Has(s.group, p) <==> NonEmpty(s.queues, p);
    }
  }

  /** A thread can be inserted without harm. */
  predicate CanInsert(s: State, t: Tid)
    requires Shape(s) && t in s.threads
  {
    Masked(s.threads[t], s.max) || s.queues[s.threads[t].prio] != []
  }

  /** A thread that is inserted is found in the bitmap iff its masks were computed or its queue is in
      the bitmap already. */
  lemma InsertKeeps(s: State, t: Tid)
    requires Inv(s) && t in s.threads && !s.threads[t].stat.Ready?
    ensures Shape(Insert(s, t)) && Threads(Insert(s, t)) && Queues(Insert(s, t))
    ensures Bitmap(Insert(s, t)) <==> CanInsert(s, t)
  {
    InsertQueues(s, t);
    var th := s.threads[t];
    var q := s.queues[th.prio] + [t];
    if !Masked(th, s.max) {
      OrZero(s.group);
      OrZero(s.table[0]);
      BitmapSame(s, th.prio, q);
      assert s.table[0 := s.table[0]] == s.table;
      assert Insert(s, t).group == s.group && Insert(s, t).table == s.table;
    } else if TwoLevel(s.max) {
      TwoLevelsInsert(s.group, s.table, s.queues, th.prio, q);
    } else {
      OneLevelInsert(s.group, s.queues, th.prio, q);
    }
  }

  /** `t` leaves the ready queues and has `th` for its record from then on. */
  function Out(s: State, t: Tid, th: Thread): State
    requires Shape(s) && t in s.threads
  {
    var s' := Remove(s, t);
    s'.(threads := s'.threads[t := th])
  }

  lemma OutQueues(s: State, t: Tid, th: Thread)
    requires Shape(s) && Queues(s) && t in s.threads && !th.stat.Ready?
    ensures Queues(Out(s, t, th))
    ensures s.threads[t].stat.Ready? || Without(s.queues[s.threads[t].prio], t) == s.queues[s.threads[t].prio]
  {
    var p := s.threads[t].prio;
    var q := s.queues[p];
    assert QueueOk(q, s.threads, p);
    WithoutMembers(q, t);
    var threads := s.threads[t := th];
    assert ReadyAt(threads, p) == ReadyAt(s.threads, p) - {t};
    forall k | 0 <= k < s.max && k != p ensures ReadyAt(threads, k) == ReadyAt(s.threads, k) {}
    OtherQueues(s, threads, p, Without(q, t));
    assert Queues(s.(threads := threads, queues := s.queues[p := Without(q, t)]));
    if !s.threads[t].stat.Ready? {
      WithoutNone(q, t);
    }
  }

  /** A READY thread whose masks were never computed is alone in its queue. */
  predicate AloneUnmasked(s: State, t: Tid)
    requires Shape(s) && t in s.threads
  {
    s.threads[t].stat.Ready? && !Masked(s.threads[t], s.max) && |s.queues[s.threads[t].prio]| == 1
  }

  lemma OnlyOne(q: seq<Tid>, t: Tid)
    requires NoDuplicates(q) && t in q
    ensures Without(q, t) == [] <==> |q| == 1
  {
    WithoutMembers(q, t);
    if |q| == 1 {
      assert q[0] == t;
    } else {
      assert Differ(q, 0, 1);
      assert q[0] in Members(Without(q, t)) || q[1] in Members(Without(q, t));
    }
  }

  /** A thread that leaves its queue leaves the bitmap right iff its masks were computed or others stay. */
  lemma OutKeeps(s: State, t: Tid, th: Thread)
    requires Inv(s) && t in s.threads && !th.stat.Ready? && ThreadOk(th, s.max)
    ensures Shape(Out(s, t, th)) && Threads(Out(s, t, th)) && Queues(Out(s, t, th))
    ensures Bitmap(Out(s, t, th)) <==> !AloneUnmasked(s, t)
  {
    OutQueues(s, t, th);
    var p := s.threads[t].prio;
    var q := Without(s.queues[p], t);
    assert QueueOk(s.queues[p], s.threads, p);
    if s.threads[t].stat.Ready? {
      assert t in ReadyAt(s.threads, p) && t in Members(s.queues[p]);
      OnlyOne(s.queues[p], t);
    }
    if q != [] || !Masked(s.threads[t], s.max) {
      AndNotZero(s.table[0]);
      AndNotZero(s.group);
      assert s.table[0 := s.table[0]] == s.table;
      assert Out(s, t, th).group == s.group && Out(s, t, th).table == s.table;
      BitmapSame(s, p, q);
    } else if TwoLevel(s.max) {
      TwoLevelsRemove(s.group, s.table, s.queues, p);
    } else {
      OneLevelRemove(s.group, s.queues, p);
    }
  }

  /** A change of a record that concerns no ready queue. */
  lemma RecordKeeps(s: State, t: Tid, th: Thread)
    requires Inv(s) && (t in s.threads ==> !s.threads[t].stat.Ready?) && !th.stat.Ready? && ThreadOk(th, s.max)
    ensures Inv(s.(threads := s.threads[t := th]))
  {
    var threads := s.threads[t := th];
    forall p | 0 <= p < s.max ensures QueueOk(s.queues[p], threads, p) {
      assert QueueOk(s.queues[p], s.threads, p);
      assert ReadyAt(threads, p) == ReadyAt(s.threads, p);
    }
  }

  lemma SomeQueue(s: State) returns (p: nat)
    requires Inv(s) && exists t :: t in s.threads && s.threads[t].stat.Ready?
    ensures NonEmpty(s.queues, p) && First(s.queues, 0) < s.max
  {
    var t :| t in s.threads && s.threads[t].stat.Ready?;
    p := s.threads[t].prio;
    assert QueueOk(s.queues[p], s.threads, p);
    assert t in ReadyAt(s.threads, p) && t in Members(s.queues[p]);
  }

  /** The bitmap leads rt_schedule to the first non-empty queue. */
  lemma HighestIsFirst(s: State)
    requires Inv(s) && exists t :: t in s.threads && s.threads[t].stat.Ready?
    ensures Highest(s) == First(s.queues, 0) < s.max
  {
    var p := SomeQueue(s);
    HighestIsLeast(s, p);
  }

  lemma HighestIsLeast(s: State, p: nat)
    requires Inv(s) && NonEmpty(s.queues, p)
    ensures 0 <= Highest(s) < s.max && s.queues[Highest(s)] != []
    ensures forall p | 0 <= p < Highest(s) :: s.queues[p] == []
  {
    if TwoLevel(s.max) {
      HighestOfTwoLevels(s, p);
    } else {
      HighestOfOneLevel(s, p);
    }
  }

  lemma HighestOfOneLevel(s: State, p: nat)
    requires Inv(s) && !TwoLevel(s.max) && NonEmpty(s.queues, p)
    ensures 0 <= Highest(s) < s.max && s.queues[Highest(s)] != []
    ensures forall p | 0 <= p < Highest(s) :: s.queues[p] == []
  {
    assert Has(s.group, p);
    HasZero(p);
    FfsIsLowest(s.group);
    var h := Ffs(s.group) - 1;
    assert Has(s.group, h);
    forall k | 0 <= k < h ensures s.queues[k] == [] {
      assert !Has(s.group, k);
    }
  }

  /** The group and the byte under its lowest bit. */
  lemma LeastOfTwoLevels(s: State, p: nat) returns (n: nat, k: nat)
    requires Inv(s) && TwoLevel(s.max) && NonEmpty(s.queues, p)
    ensures Highest(s) == 8 * n + k
    ensures n < 32 && Lowest(s.group, n) && k < 8 && ByteOk(s.table[n], s.queues, n) && Lowest(s.table[n], k)
  {
    assert ByteOk(s.table[p / 8], s.queues, p / 8) && 8 * (p / 8) + p % 8 == p;
    assert Has(s.table[p / 8], p % 8);
    HasZero(p % 8);
    assert Has(s.group, p / 8);
    HasZero(p / 8);
    FfsIsLowest(s.group);
    n := Ffs(s.group) - 1;
    assert Has(s.group, n);
    assert ByteOk(s.table[n], s.queues, n);
    FfsIsLowest(s.table[n]);
    k := Ffs(s.table[n]) - 1;
    ByteTop(s.table[n], k);
  }

  lemma HighestInTable(s: State)
    requires Inv(s) && TwoLevel(s.max) && Enabled(s, Schedule)
    ensures 0 < Ffs(s.group) <= 32
  {
    var p := SomeQueue(s);
    var n, k := LeastOfTwoLevels(s, p);
    FfsIsLowest(s.group);
    HasZero(n);
  }

  lemma HighestOfTwoLevels(s: State, p: nat)
    requires Inv(s) && TwoLevel(s.max) && NonEmpty(s.queues, p)
    ensures 0 <= Highest(s) < s.max && s.queues[Highest(s)] != []
    ensures forall p | 0 <= p < Highest(s) :: s.queues[p] == []
  {
    var n, k := LeastOfTwoLevels(s, p);
    LeastQueue(s, n, k);
  }

  lemma LeastQueue(s: State, n: nat, k: nat)
    requires Inv(s) && TwoLevel(s.max) && n < 32 && Lowest(s.group, n)
    requires k < 8 && ByteOk(s.table[n], s.queues, n) && Lowest(s.table[n], k)
    ensures 8 * n + k < s.max && s.queues[8 * n + k] != []
    ensures forall j | 0 <= j < 8 * n + k :: s.queues[j] == []
  {
    assert Has(s.table[n], k);
    assert NonEmpty(s.queues, 8 * n + k);
    forall j | 0 <= j < 8 * n + k ensures s.queues[j] == [] {
      LowerIsEmpty(s, n, k, j);
    }
  }

  lemma LowerIsEmpty(s: State, n: nat, k: nat, j: nat)
    requires Inv(s) && TwoLevel(s.max) && n < 32 && Lowest(s.group, n) && k < 8 && Lowest(s.table[n], k)
    requires j < 8 * n + k < s.max
    ensures s.queues[j] == []
  {
    assert ByteOk(s.table[j / 8], s.queues, j / 8) && 8 * (j / 8) + j % 8 == j;
    if j / 8 < n {
      assert !Has(s.group, j / 8);
      HasZero(j % 8);
    } else {
      assert !Has(s.table[n], j % 8);
    }
    assert NonEmpty(s.queues, j) <==> Has(s.table[j / 8], j % 8);
  }

  lemma ByteTop(w: nat, k: nat)
    requires w < 256 && w != 0 && k == Ffs(w) - 1
    ensures k < 8
  {}

  // Thread states.

  datatype Event =
    | Create(tid: Tid, prio: nat)
    | Startup(tid: Tid)
    | StartupBegin(tid: Tid)
    | Suspend(tid: Tid)
    | Resume(tid: Tid)
    | ResumeBegin(tid: Tid)
    | ResumeEnd(tid: Tid)
    | Timeout(tid: Tid)
    | SetPriority(tid: Tid, prio: nat)
    | Yield
    | Exit
    | Detach(tid: Tid)
    | DetachBegin(tid: Tid)
    | DetachEnd(tid: Tid)
    | Lock
    | Unlock
    | Schedule

  /** A start, a resume and a detach are more than one section. `Startup`, `Resume` and `Detach` are whole
      calls, with nothing in between. `StartupBegin` computes the masks. `ResumeBegin` and `ResumeEnd` are the
      two sections of a resume, also that of a start, whose test found the thread suspended at some time
      before: they unlink the thread and insert it. `DetachBegin` takes the thread out of its queue and
      `DetachEnd` closes it.
      What is enabled is what the assertions of the source demand; the current thread of a yield or exit
      runs, so it is READY; rt_schedule needs a thread to run, which the idle thread provides. */
  ghost predicate Enabled(s: State, e: Event) {
    match e
    case Create(t, prio) => t !in s.threads && prio < s.max
    case Startup(t) => t in s.threads && s.threads[t].stat.Init?
    case StartupBegin(t) => t in s.threads && s.threads[t].stat.Init?
    case Suspend(t) => t in s.threads
    case Resume(t) => t in s.threads
    case ResumeBegin(t) => t in s.threads
    case ResumeEnd(t) => t in s.threads
    case Timeout(t) => t in s.threads && s.threads[t].stat.Suspend?
    case SetPriority(t, prio) => t in s.threads && prio < s.max
    case Yield => s.current.Runs? && s.current.tid in s.threads
    case Exit => s.current.Runs? && s.current.tid in s.threads && s.threads[s.current.tid].stat.Ready?
    case Detach(t) => t in s.threads
    case DetachBegin(t) => t in s.threads && !s.threads[t].stat.Init?
    case DetachEnd(t) => t in s.threads
    case Lock => true
    case Unlock => true
    case Schedule => exists t :: t in s.threads && s.threads[t].stat.Ready?
  }

  function SetPriorityStep(s: State, t: Tid, p: nat): State
    requires Shape(s) && t in s.threads && p < s.max
  {
    var th := WithPriority(s.threads[t], p, s.max);
    if s.threads[t].stat.Ready? then
      MaskedAfter(s.threads[t], p, s.max);
      Insert(Out(s, t, th), t)
    else s.(threads := s.threads[t := th])
  }

  lemma MaskedAfter(th: Thread, p: nat, max: nat)
    requires p < max <= 256 && InRange(th, max)
    ensures ThreadOk(WithPriority(th, p, max), max) && Masked(WithPriority(th, p, max), max)
  {}

  function ScheduleStep(s: State): State
  {
    var h := First(s.queues, 0);
    if s.lockNest == 0 && h < |s.queues| && s.current != Runs(s.queues[h][0])
    then s.(current := Runs(s.queues[h][0]), currentPrio := h)
    else s
  }

  function YieldStep(s: State): State
    requires Shape(s) && Enabled(s, Yield)
  {
    var t := s.current.tid;
    var th := s.threads[t];
    if th.stat.Ready? && |s.queues[th.prio]| > 1 then
      s.(queues := s.queues[th.prio := Without(s.queues[th.prio], t) + [t]])
    else s
  }

  /** The record of a thread that is being started: its masks are computed and it is suspended. */
  function Prepared(s: State, t: Tid): State
    requires t in s.threads
  {
    var th := s.threads[t];
    s.(threads := s.threads[t := WithPriority(th, th.initPrio, s.max).(stat := Stat.Suspend)])
  }

  /** The first section of rt_thread_resume: whatever list the thread is in, it leaves it. */
  function Unlinked(s: State, t: Tid): State
    requires Shape(s) && t in s.threads
  {
    var p := s.threads[t].prio;
    s.(queues := s.queues[p := Without(s.queues[p], t)])
  }

  ghost function Step(s: State, e: Event): State
    requires Inv(s) && Enabled(s, e)
  {
    match e
    case Create(t, prio) => s.(threads := s.threads[t := Thread(Init, prio, prio, 0, 0, 0)])
    case Startup(t) =>
      MaskedAfter(s.threads[t], s.threads[t].initPrio, s.max);
      Insert(Prepared(s, t), t)
    case StartupBegin(t) => Prepared(s, t)
    case Suspend(t) => Out(s, t, s.threads[t].(stat := Stat.Suspend))
    case Resume(t) => if s.threads[t].stat.Suspend? then Insert(s, t) else s
    case ResumeBegin(t) => Unlinked(s, t)
    case ResumeEnd(t) => Insert(s, t)
    case Timeout(t) => Insert(s, t)
    case SetPriority(t, prio) => SetPriorityStep(s, t, prio)
    case Yield => YieldStep(s)
    case Exit => Out(s, s.current.tid, s.threads[s.current.tid].(stat := Close))
    case Detach(t) =>
      var th := s.threads[t].(stat := Close);
      if s.threads[t].stat.Init? then s.(threads := s.threads[t := th]) else Out(s, t, th)
    case DetachBegin(t) => Remove(s, t)
    case DetachEnd(t) => s.(threads := s.threads[t := s.threads[t].(stat := Close)])
    case Lock => s.(lockNest := Signed16(s.lockNest + 1))
    case Unlock => s.(lockNest := if Signed16(s.lockNest - 1) <= 0 then 0 else Signed16(s.lockNest - 1))
    case Schedule => ScheduleStep(s)
  }

  lemma SetPriorityKeeps(s: State, t: Tid, p: nat)
    requires Inv(s) && t in s.threads && p < s.max
    ensures Inv(SetPriorityStep(s, t, p)) <==> !AloneUnmasked(s, t) || p == s.threads[t].prio
  {
    var th := WithPriority(s.threads[t], p, s.max);
    MaskedAfter(s.threads[t], p, s.max);
    if !s.threads[t].stat.Ready? {
      RecordKeeps(s, t, th);
    } else {
      var paused := th.(stat := Stat.Suspend);
      assert s.threads[t := paused][t := th.(stat := Ready)] == s.threads[t := th][t := th.(stat := Ready)];
      assert Insert(Out(s, t, paused), t) == SetPriorityStep(s, t, p);
      OutKeeps(s, t, paused);
      if !AloneUnmasked(s, t) {
        InsertKeeps(Out(s, t, paused), t);
      } else {
        LateMasks(s, t, p, paused);
      }
    }
  }

  /** A thread that is alone in its queue, without a bit to clear, leaves a bit behind; to insert it again
      makes this right iff the queue is the same. */
  lemma LateMasks(s: State, t: Tid, p: nat, th: Thread)
    requires Inv(s) && t in s.threads && AloneUnmasked(s, t)
    requires p < s.max && !th.stat.Ready? && ThreadOk(th, s.max) && Masked(th, s.max) && th.prio == p
    ensures Inv(Insert(Out(s, t, th), t)) <==> p == s.threads[t].prio
  {
    var o := s.threads[t].prio;
    var out, s' := Out(s, t, th), Insert(Out(s, t, th), t);
    OutQueues(s, t, th);
    assert QueueOk(s.queues[o], s.threads, o);
    assert t in ReadyAt(s.threads, o) && t in Members(s.queues[o]);
    OnlyOne(s.queues[o], t);
    InsertQueues(out, t);
    AndNotZero(s.table[0]);
    AndNotZero(s.group);
    assert s.table[0 := s.table[0]] == s.table;
    assert out.group == s.group && out.table == s.table && out.queues == s.queues[o := []];
    assert NonEmpty(s.queues, o) && (p != o ==> !NonEmpty(s'.queues, o));
    assert ThreadOk(s'.threads[t], s.max) && Threads(s');
    if TwoLevel(s.max) {
      LateMasksTwo(s, o, p, t);
    } else {
      LateMasksOne(s, o, p, t);
    }
  }

  lemma LateMasksOne(s: State, o: nat, p: nat, t: Tid)
    requires Inv(s) && !TwoLevel(s.max) && o < s.max && p < s.max && s.queues[o] != []
    ensures var queues := s.queues[o := []];
            OneLevel(Or(s.group, Mask(p)), queues[p := queues[p] + [t]]) <==> p == o
  {
    var queues := s.queues[o := []];
    var queues' := queues[p := queues[p] + [t]];
    if p == o {
      OneLevelInsert(s.group, s.queues, p, queues[p] + [t]);
      assert queues' == s.queues[p := queues[p] + [t]];
    } else {
      BitSet(s.group, p, o);
      assert Has(s.group, o) <==> NonEmpty(s.queues, o);
      assert !NonEmpty(queues', o);
    }
  }

  lemma LateMasksTwo(s: State, o: nat, p: nat, t: Tid)
    requires Inv(s) && TwoLevel(s.max) && o < s.max && p < s.max && s.queues[o] != []
    ensures var queues, table := s.queues[o := []], s.table[p / 8 := Or(s.table[p / 8], Mask(p % 8))];
            TwoLevels(Or(s.group, Mask(p / 8)), table, queues[p := queues[p] + [t]]) <==> p == o
  {
    var queues := s.queues[o := []];
    var queues', table' := queues[p := queues[p] + [t]], s.table[p / 8 := Or(s.table[p / 8], Mask(p % 8))];
    if p == o {
      TwoLevelsInsert(s.group, s.table, s.queues, p, queues[p] + [t]);
      assert queues' == s.queues[p := queues[p] + [t]];
    } else {
      var n, k := o / 8, o % 8;
      assert ByteOk(s.table[n], s.queues, n) && 8 * n + k == o;
      assert Has(s.table[n], k) <==> NonEmpty(s.queues, o);
      BitSet(s.table[n], p % 8, k);
      assert Has(table'[n], k) && !NonEmpty(queues', o);
      assert !ByteOk(table'[n], queues', n);
    }
  }

  lemma StartupKeeps(s: State, t: Tid)
    requires Inv(s) && t in s.threads && s.threads[t].stat.Init?
    ensures Inv(Prepared(s, t)) && Inv(Insert(Prepared(s, t), t))
  {
    MaskedAfter(s.threads[t], s.threads[t].initPrio, s.max);
    RecordKeeps(s, t, Prepared(s, t).threads[t]);
    InsertKeeps(Prepared(s, t), t);
  }

  lemma YieldKeeps(s: State)
    requires Inv(s) && Enabled(s, Yield)
    ensures Inv(YieldStep(s))
  {
    var t := s.current.tid;
    var p := s.threads[t].prio;
    if s.threads[t].stat.Ready? && |s.queues[p]| > 1 {
      var q := Without(s.queues[p], t);
      assert QueueOk(s.queues[p], s.threads, p);
      WithoutMembers(s.queues[p], t);
      AppendMember(q, t);
      assert t in ReadyAt(s.threads, p);
      OtherQueues(s, s.threads, p, q + [t]);
      assert s.(threads := s.threads, queues := s.queues[p := q + [t]]) == YieldStep(s);
      if TwoLevel(s.max) {
        TwoLevelsSame(s.group, s.table, s.queues, p, q + [t]);
      } else {
        OneLevelSame(s.group, s.queues, p, q + [t]);
      }
    }
  }

  lemma DetachKeeps(s: State, t: Tid)
    requires Inv(s) && t in s.threads
    ensures Inv(Step(s, Detach(t))) <==> !AloneUnmasked(s, t)
  {
    var th := s.threads[t].(stat := Close);
    if s.threads[t].stat.Init? {
      RecordKeeps(s, t, th);
    } else {
      OutKeeps(s, t, th);
    }
  }

  lemma DetachParts(s: State, t: Tid)
    requires Inv(s) && t in s.threads
    ensures Inv(Remove(s, t)) <==> !s.threads[t].stat.Ready?
    ensures Inv(s.(threads := s.threads[t := s.threads[t].(stat := Close)])) <==> !s.threads[t].stat.Ready?
  {
    var th, p := s.threads[t], s.threads[t].prio;
    var q := s.queues[p];
    assert QueueOk(q, s.threads, p);
    if th.stat.Ready? {
      assert t in ReadyAt(s.threads, p) && t in Members(q);
      WithoutMembers(q, t);
      var s1, s2 := Remove(s, t), s.(threads := s.threads[t := th.(stat := Close)]);
      assert t !in Members(s1.queues[p]) && t in ReadyAt(s1.threads, p);
      assert !QueueOk(s1.queues[p], s1.threads, p);
      assert t in Members(s2.queues[p]) && t !in ReadyAt(s2.threads, p);
      assert !QueueOk(s2.queues[p], s2.threads, p);
    } else {
      OutKeeps(s, t, th);
      assert s.threads[t := th] == s.threads;
      assert Out(s, t, th) == Remove(s, t);
      RecordKeeps(s, t, th.(stat := Close));
    }
  }

  /** The first section of a resume changes nothing if the thread is not READY; a READY one it takes out of
      its queue. */
  lemma UnlinkKeeps(s: State, t: Tid)
    requires Inv(s) && t in s.threads
    ensures !s.threads[t].stat.Ready? ==> Unlinked(s, t) == s
    ensures Inv(Unlinked(s, t)) <==> !s.threads[t].stat.Ready?
  {
    var th, p := s.threads[t], s.threads[t].prio;
    var q, s' := s.queues[p], Unlinked(s, t);
    assert QueueOk(q, s.threads, p);
    if th.stat.Ready? {
      WithoutMembers(q, t);
      assert t !in Members(s'.queues[p]) && t in ReadyAt(s.threads, p);
      assert !QueueOk(s'.queues[p], s'.threads, p);
    } else {
      OutQueues(s, t, th);
    }
  }

  /** If another resume, or the timeout, made the thread READY between the sections, the second one puts it into
      its queue twice. */
  lemma InsertTwice(s: State, t: Tid)
    requires Inv(s) && t in s.threads && s.threads[t].stat.Ready?
    ensures !Inv(Insert(s, t))
  {
    var p := s.threads[t].prio;
    var q := s.queues[p];
    assert QueueOk(q, s.threads, p);
    assert t in ReadyAt(s.threads, p) && t in Members(q);
    var k :| 0 <= k < |q| && q[k] == t;
    var s' := Insert(s, t);
    assert !Differ(s'.queues[p], k, |q|);
    assert !QueueOk(s'.queues[p], s'.threads, p);
  }

  /** If that came before the first section, both sections together move the thread to the end of its queue, and
      the agreement holds again. */
  lemma MovedToEnd(s: State, t: Tid)
    requires Inv(s) && t in s.threads && s.threads[t].stat.Ready?
    ensures var s' := Insert(Unlinked(s, t), t);
            && Inv(s') && s'.threads == s.threads
            && s'.queues[s.threads[t].prio] == Without(s.queues[s.threads[t].prio], t) + [t]
  {
    var th, p := s.threads[t], s.threads[t].prio;
    var q := Without(s.queues[p], t);
    assert QueueOk(s.queues[p], s.threads, p);
    assert t in ReadyAt(s.threads, p) && t in Members(s.queues[p]);
    WithoutMembers(s.queues[p], t);
    AppendMember(q, t);
    assert s.threads[t := th.(stat := Ready)] == s.threads;
    OtherQueues(s, s.threads, p, q + [t]);
    assert s.queues[p := q][p := q + [t]] == s.queues[p := q + [t]];
    if !Masked(th, s.max) {
      OrZero(s.group);
      OrZero(s.table[0]);
      assert s.table[0 := s.table[0]] == s.table;
      BitmapSame(s, p, q + [t]);
    } else if TwoLevel(s.max) {
      TwoLevelsInsert(s.group, s.table, s.queues, p, q + [t]);
    } else {
      OneLevelInsert(s.group, s.queues, p, q + [t]);
    }
  }

  /** What a caller of each function has to see to: a thread without masks finds others in the queue it
      enters, and leaves others in the queue it leaves, unless it comes back to it; nobody else has made the
      thread READY that a resume is about to unlink or to insert; and a thread that is READY is not detached in
      parts. */
  predicate Safe(s: State, e: Event)
    requires Shape(s)
  {
    match e
    case Suspend(t) => t in s.threads ==> !AloneUnmasked(s, t)
    case Detach(t) => t in s.threads ==> !AloneUnmasked(s, t)
    case Exit => s.current.Runs? && s.current.tid in s.threads ==> !AloneUnmasked(s, s.current.tid)
    case SetPriority(t, p) => t in s.threads ==> !AloneUnmasked(s, t) || p == s.threads[t].prio
    case Resume(t) => t in s.threads && s.threads[t].stat.Suspend? ==> CanInsert(s, t)
    case Timeout(t) => t in s.threads ==> CanInsert(s, t)
    case ResumeBegin(t) => t in s.threads ==> !s.threads[t].stat.Ready?
    case ResumeEnd(t) => t in s.threads ==> !s.threads[t].stat.Ready? && CanInsert(s, t)
    case DetachBegin(t) => t in s.threads ==> !s.threads[t].stat.Ready?
    case DetachEnd(t) => t in s.threads ==> !s.threads[t].stat.Ready?
    case _ => true
  }

  /** Every step keeps the bitmap, the queues and the states in agreement if and only if it is safe. */
  lemma StepKeeps(s: State, e: Event)
    requires Inv(s) && Enabled(s, e)
    ensures Inv(Step(s, e)) <==> Safe(s, e)
  {
    match e
    case Create(t, prio) => RecordKeeps(s, t, Thread(Init, prio, prio, 0, 0, 0));
    case Startup(t) => StartupKeeps(s, t);
    case StartupBegin(t) => StartupKeeps(s, t);
    case Suspend(t) => OutKeeps(s, t, s.threads[t].(stat := Stat.Suspend));
    case Resume(t) => if s.threads[t].stat.Suspend? { InsertKeeps(s, t); }
    case ResumeBegin(t) => UnlinkKeeps(s, t);
    case ResumeEnd(t) => if s.threads[t].stat.Ready? { InsertTwice(s, t); } else { InsertKeeps(s, t); }
    case Timeout(t) => InsertKeeps(s, t);
    case SetPriority(t, prio) => SetPriorityKeeps(s, t, prio);
    case Yield => YieldKeeps(s);
    case Exit => OutKeeps(s, s.current.tid, s.threads[s.current.tid].(stat := Close));
    case Detach(t) => DetachKeeps(s, t);
    case DetachBegin(t) => DetachParts(s, t);
    case DetachEnd(t) => DetachParts(s, t);
    case Lock =>
    case Unlock =>
    case Schedule =>
  }

  /** How it goes wrong: a thread that was never started is suspended, which does no harm, and resumed; if
      it is alone in its queue it is READY where the bitmap shows nothing. */
  lemma ResumedUnmasked(s: State, t: Tid)
    requires Inv(s) && t in s.threads && !Masked(s.threads[t], s.max) && s.queues[s.threads[t].prio] == []
    ensures var suspended := Out(s, t, s.threads[t].(stat := Stat.Suspend));
            var s' := Insert(suspended, t);
            && Inv(suspended) && t in s'.threads && s'.threads[t].stat.Ready? && s'.queues[s.threads[t].prio] == [t]
            && s'.group == s.group && s'.table == s.table && !Bitmap(s')
  {
    var th := s.threads[t].(stat := Stat.Suspend);
    var suspended := Out(s, t, th);
    OutKeeps(s, t, th);
    InsertKeeps(suspended, t);
    AndNotZero(s.group);
    AndNotZero(s.table[0]);
    OrZero(s.group);
    OrZero(s.table[0]);
    assert Insert(suspended, t).table == s.table;
  }

  lemma NoMembers(q: seq<Tid>)
    ensures Members(q) == {} ==> q == []
  {
    if q != [] {
      assert q[0] in Members(q);
    }
  }

  lemma NoneAsUrgent(s: State, p: nat, k: nat)
    requires Inv(s) && k <= p < s.max
    requires forall u | u in s.threads && s.threads[u].stat.Ready? :: p < s.threads[u].prio
    ensures s.queues[k] == []
  {
    assert QueueOk(s.queues[k], s.threads, k);
    NoMembers(s.queues[k]);
  }

  /** A thread that is alone at the top: rt_schedule looks for it in its queue, also when it was unlinked. */
  lemma LookedFor(s: State, t: Tid)
    requires Inv(s) && t in s.threads && s.threads[t].stat.Ready? && s.queues[s.threads[t].prio] == [t]
    requires forall k | 0 <= k < s.threads[t].prio :: s.queues[k] == []
    ensures var s', p := Unlinked(s, t), s.threads[t].prio; Highest(s') == p && s'.queues[p] == []
  {
    HighestIsFirst(s);
  }

  /** Another way: the test of a resume finds the thread suspended; it times out before the first section, which
      then takes it out of its queue; until the second section rt_schedule looks for it there. */
  lemma ResumedMeanwhile(s: State, t: Tid)
    requires Inv(s) && t in s.threads && s.threads[t].stat.Suspend? && Masked(s.threads[t], s.max)
    requires forall u | u in s.threads && s.threads[u].stat.Ready? :: s.threads[t].prio < s.threads[u].prio
    ensures Safe(s, Timeout(t)) && Inv(Step(s, Timeout(t)))
    ensures var s1, p := Step(s, Timeout(t)), s.threads[t].prio;
            var s2 := Step(s1, ResumeBegin(t));
            Highest(s2) == p && s2.queues[p] == [] && !Inv(s2) && Inv(Insert(s2, t))
  {
    var p := s.threads[t].prio;
    InsertKeeps(s, t);
    var s1 := Insert(s, t);
    forall k | 0 <= k <= p ensures s.queues[k] == [] {
      NoneAsUrgent(s, p, k);
    }
    LookedFor(s1, t);
    UnlinkKeeps(s1, t);
    MovedToEnd(s1, t);
  }

  /** A whole start, resume or detach is its parts, one at once after the other. */
  lemma WholeCalls(s: State, t: Tid)
    requires Inv(s) && t in s.threads
    ensures s.threads[t].stat.Init? ==>
              && Inv(Prepared(s, t)) && Inv(Unlinked(Prepared(s, t), t))
              && Step(s, Startup(t)) == Step(Step(Step(s, StartupBegin(t)), ResumeBegin(t)), ResumeEnd(t))
    ensures s.threads[t].stat.Suspend? ==>
              Inv(Unlinked(s, t)) && Step(s, Resume(t)) == Step(Step(s, ResumeBegin(t)), ResumeEnd(t))
    ensures !s.threads[t].stat.Suspend? ==> Step(s, Resume(t)) == s
    ensures !s.threads[t].stat.Init? ==>
              var s' := Step(s, DetachBegin(t));
              t in s'.threads && Step(s, Detach(t)) == s'.(threads := s'.threads[t := s'.threads[t].(stat := Close)])
  {
    UnlinkKeeps(s, t);
    if s.threads[t].stat.Init? {
      StartupKeeps(s, t);
      UnlinkKeeps(Prepared(s, t), t);
    }
  }

  // What each call does to the threads.

  /** Only thread `t` is concerned, whose record now is `th`: if it is READY it is the last one in the queue of its
      priority, and it is in no other queue; the other threads are as they were, and where they were. */
  ghost predicate NowIs(s: State, s': State, t: Tid, th: Thread) {
    && SameCurrent(s, s') && s'.max == s.max && s'.threads == s.threads[t := th] && |s'.queues| == |s.queues|
    && forall k | 0 <= k < |s.queues| ::
         s'.queues[k] == Without(s.queues[k], t) + if th.stat.Ready? && k == th.prio then [t] else []
  }

  ghost predicate SameCurrent(s: State, s': State) {
    s'.current == s.current && s'.currentPrio == s.currentPrio && s'.lockNest == s.lockNest
  }

  /** No other queue holds the thread. */
  lemma NotThere(s: State, t: Tid, k: nat)
    requires Inv(s) && t in s.threads && k < s.max && (!s.threads[t].stat.Ready? || k != s.threads[t].prio)
    ensures Without(s.queues[k], t) == s.queues[k]
  {
    assert QueueOk(s.queues[k], s.threads, k);
    assert t !in Members(s.queues[k]);
    WithoutNone(s.queues[k], t);
  }

  lemma OutIs(s: State, t: Tid, th: Thread)
    requires Inv(s) && t in s.threads && !th.stat.Ready?
    ensures NowIs(s, Out(s, t, th), t, th)
  {
    forall k | 0 <= k < s.max
        ensures Out(s, t, th).queues[k] == Without(s.queues[k], t) {
      if k != s.threads[t].prio {
        NotThere(s, t, k);
      }
    }
  }

  lemma InsertIs(s: State, t: Tid)
    requires Inv(s) && t in s.threads && !s.threads[t].stat.Ready?
    ensures NowIs(s, Insert(s, t), t, s.threads[t].(stat := Ready))
  {
    forall k | 0 <= k < s.max ensures Without(s.queues[k], t) == s.queues[k] {
      NotThere(s, t, k);
    }
  }

  lemma RecordIs(s: State, t: Tid, th: Thread)
    requires Inv(s) && t in s.threads && !s.threads[t].stat.Ready? && !th.stat.Ready?
    ensures NowIs(s, s.(threads := s.threads[t := th]), t, th)
  {
    forall k | 0 <= k < s.max ensures Without(s.queues[k], t) == s.queues[k] {
      NotThere(s, t, k);
    }
  }

  /** The masks of a thread are those of this priority, which it has. */
  ghost predicate HasPriority(th: Thread, p: nat, max: nat) {
    && th.prio == p
    && (max <= 32 ==> th.numberMask == Mask(p))
    && (max > 32 ==> th.number == p / 8 && th.numberMask == Mask(p / 8) && th.highMask == Mask(p % 8))
  }

  /** A new thread has its priority and is in no queue; a start gives it its initial priority with the masks, and
      makes it READY, by its last section only. */
  lemma Starts(s: State, e: Event)
    requires Inv(s) && Enabled(s, e) && (e.Create? || e.Startup? || e.StartupBegin?)
    ensures var s', t := Step(s, e), e.tid;
            && t in s'.threads && s'.threads[t].initPrio == s'.threads[t].prio
            && (if e.Create? then
                  && s'.threads[t].stat.Init? && s'.threads[t].prio == e.prio && s'.queues == s.queues
                  && s'.threads == s.threads[t := s'.threads[t]] && SameCurrent(s, s')
                else
                  && NowIs(s, s', t, s'.threads[t]) && s'.threads[t].initPrio == s.threads[t].initPrio
                  && HasPriority(s'.threads[t], s.threads[t].initPrio, s.max)
                  && s'.threads[t].stat == if e.Startup? then Ready else Stat.Suspend)
  {
    var t := e.tid;
    if !e.Create? {
      var s1 := Prepared(s, t);
      StartupKeeps(s, t);
      RecordIs(s, t, s1.threads[t]);
      if e.Startup? {
        InsertIs(s1, t);
        forall k | 0 <= k < s.max ensures Step(s, e).queues[k]
            == Without(s.queues[k], t) + if k == s.threads[t].initPrio then [t] else [] {
          NotThere(s, t, k);
        }
      }
    }
  }

  /** A suspended thread is in state SUSPEND, whatever it was in before; a resume makes exactly a suspended thread
      READY, and a timeout the thread it finds suspended. */
  lemma SuspendsAndResumes(s: State, e: Event)
    requires Inv(s) && Enabled(s, e) && (e.Suspend? || e.Resume? || e.Timeout?)
    ensures var s', t, th := Step(s, e), e.tid, s.threads[e.tid];
            if e.Suspend? then NowIs(s, s', t, th.(stat := Stat.Suspend))
            else if th.stat.Suspend? then NowIs(s, s', t, th.(stat := Ready))
            else s' == s
  {
    if e.Suspend? {
      OutIs(s, e.tid, s.threads[e.tid].(stat := Stat.Suspend));
    } else if s.threads[e.tid].stat.Suspend? {
      InsertIs(s, e.tid);
    }
  }

  /** The sections of a resume: the first one takes the thread out of every queue; the second one makes a thread
      that is not READY yet READY. */
  lemma ResumesInParts(s: State, t: Tid)
    requires Inv(s) && t in s.threads
    ensures var s' := Step(s, ResumeBegin(t));
            && s'.threads == s.threads && SameCurrent(s, s') && |s'.queues| == |s.queues|
            && forall k | 0 <= k < |s.queues| :: s'.queues[k] == Without(s.queues[k], t)
    ensures !s.threads[t].stat.Ready? ==> NowIs(s, Step(s, ResumeEnd(t)), t, s.threads[t].(stat := Ready))
  {
    forall k | 0 <= k < s.max && k != s.threads[t].prio ensures Without(s.queues[k], t) == s.queues[k] {
      NotThere(s, t, k);
    }
    if !s.threads[t].stat.Ready? {
      InsertIs(s, t);
    }
  }

  /** A priority change gives the thread this priority, with its masks, and a READY one the last place among the
      READY threads of this priority. */
  lemma Reprioritizes(s: State, t: Tid, p: nat)
    requires Inv(s) && t in s.threads && p < s.max
    ensures var s' := Step(s, SetPriority(t, p));
            && t in s'.threads && NowIs(s, s', t, s'.threads[t]) && HasPriority(s'.threads[t], p, s.max)
            && s'.threads[t].stat == s.threads[t].stat && s'.threads[t].initPrio == s.threads[t].initPrio
  {
    var th := WithPriority(s.threads[t], p, s.max);
    if s.threads[t].stat.Ready? {
      MaskedAfter(s.threads[t], p, s.max);
      var s' := SetPriorityStep(s, t, p);
      assert s'.threads == s.threads[t := th];
      forall k | 0 <= k < s.max ensures s'.queues[k] == Without(s.queues[k], t) + if k == p then [t] else [] {
        if k != s.threads[t].prio {
          NotThere(s, t, k);
        }
      }
    } else {
      RecordIs(s, t, th);
    }
  }

  /** A READY thread that yields is the last one of its queue, also if it is alone there; the current thread that
      exits, and one that is detached, are closed. */
  lemma YieldsAndCloses(s: State, e: Event)
    requires Inv(s) && Enabled(s, e) && (e.Yield? || e.Exit? || e.Detach?)
    ensures var s', t := Step(s, e), if e.Detach? then e.tid else s.current.tid;
            if !e.Yield? then NowIs(s, s', t, s.threads[t].(stat := Close))
            else if s.threads[t].stat.Ready? then NowIs(s, s', t, s.threads[t])
            else s' == s
  {
    var t := if e.Detach? then e.tid else s.current.tid;
    if e.Yield? {
      YieldIs(s);
    } else if s.threads[t].stat.Init? {
      RecordIs(s, t, s.threads[t].(stat := Close));
    } else {
      OutIs(s, t, s.threads[t].(stat := Close));
    }
  }

  lemma YieldIs(s: State)
    requires Inv(s) && Enabled(s, Yield)
    ensures s.threads[s.current.tid].stat.Ready? ==>
              NowIs(s, YieldStep(s), s.current.tid, s.threads[s.current.tid])
  {
    var t := s.current.tid;
    var th := s.threads[t];
    if th.stat.Ready? {
      var q := s.queues[th.prio];
      assert QueueOk(q, s.threads, th.prio);
      assert t in ReadyAt(s.threads, th.prio) && t in Members(q);
      OnlyOne(q, t);
      assert |q| <= 1 ==> q == [t] && Without(q, t) + [t] == q;
      forall k | 0 <= k < s.max && k != th.prio ensures Without(s.queues[k], t) == s.queues[k] {
        NotThere(s, t, k);
      }
    }
  }

  /** The parts of a detach: the thread leaves every queue, and then is closed. */
  lemma DetachesInParts(s: State, t: Tid)
    requires Inv(s) && t in s.threads
    ensures var s' := Step(s, DetachEnd(t)); s' == s.(threads := s.threads[t := s.threads[t].(stat := Close)])
    ensures !s.threads[t].stat.Init? ==>
              var s' := Step(s, DetachBegin(t));
              && s'.threads == s.threads && SameCurrent(s, s') && |s'.queues| == |s.queues|
              && forall k | 0 <= k < |s.queues| :: s'.queues[k] == Without(s.queues[k], t)
  {
    forall k | 0 <= k < s.max && k != s.threads[t].prio ensures Without(s.queues[k], t) == s.queues[k] {
      NotThere(s, t, k);
    }
  }

  // Locking the scheduler.

  /** How many locks are not undone yet, by the calls alone. */
  function Locked(d: nat, e: Event): nat {
    match e
    case Lock => d + 1
    case Unlock => if d > 0 then d - 1 else 0
    case _ => d
  }

  /** In these calls locks are nested, one at least and as far as the counter can tell. */
  ghost predicate Nested(d: nat, es: seq<Event>)
    decreases |es|
  {
    0 < d <= U16 / 2 && (es != [] ==> Nested(Locked(d, es[0]), es[1..]))
  }

  lemma SignedIs(n: int)
    ensures -U16 / 2 <= n < U16 / 2 ==> Signed16(n) == n
    ensures U16 / 2 <= n < U16 ==> Signed16(n) == n - U16
    ensures n == -U16 / 2 - 1 ==> Signed16(n) == U16 / 2 - 1
  {}

  /** The counter is 0 exactly if no lock is in force, as long as they are at most 32768. */
  lemma LockCounts(s: State, e: Event, d: nat)
    requires Inv(s) && Enabled(s, e) && d <= U16 / 2 && Locked(d, e) <= U16 / 2 && s.lockNest == Signed16(d)
    ensures Step(s, e).lockNest == Signed16(Locked(d, e)) && (Step(s, e).lockNest == 0 <==> Locked(d, e) == 0)
  {
    CounterMoves(d);
    SignedIs(Locked(d, e));
  }

  lemma CounterMoves(d: nat)
    requires d <= U16 / 2
    ensures d < U16 / 2 ==> Signed16(Signed16(d) + 1) == Signed16(d + 1)
    ensures d > 0 ==> Signed16(Signed16(d) - 1) == d - 1 == Signed16(d - 1)
    ensures d == 0 ==> Signed16(Signed16(d) - 1) <= 0
  {
    SignedIs(d);
    SignedIs(Signed16(d) + 1);
    SignedIs(Signed16(d) - 1);
    SignedIs(d + 1);
    SignedIs(d - 1);
  }

  /** With more, one unlock takes them all away. */
  lemma LockOverflows(s: State, d: nat)
    requires Inv(s) && U16 / 2 < d < U16 && s.lockNest == Signed16(d)
    ensures s.lockNest != 0 && Step(s, Unlock).lockNest == 0 && Locked(d, Unlock) > 0
  {
    SignedIs(d);
    SignedIs(s.lockNest - 1);
  }

  /** While locks are in force, from a lock to the unlock that undoes it, nobody else becomes current, whatever is
      called in between. */
  lemma {:induction false} LockedStays(s: State, es: seq<Event>, d: nat)
    requires Inv(s) && Run(s, es) && Nested(d, es) && s.lockNest == Signed16(d)
    ensures After(s, es).current == s.current && After(s, es).currentPrio == s.currentPrio
    ensures After(s, es).lockNest != 0
    decreases |es|
  {
    if es != [] {
      var s' := Step(s, es[0]);
      StepKeeps(s, es[0]);
      LockCounts(s, es[0], d);
      KeepsCurrent(s, es[0]);
      LockedStays(s', es[1..], Locked(d, es[0]));
    }
  }

  lemma KeepsCurrent(s: State, e: Event)
    requires Inv(s) && Enabled(s, e) && s.lockNest != 0
    ensures Step(s, e).current == s.current && Step(s, e).currentPrio == s.currentPrio
  {}

  // Runs.

  ghost predicate Run(s: State, es: seq<Event>)
    decreases |es|
  {
    es == [] || (Inv(s) && Enabled(s, es[0]) && Safe(s, es[0]) && Run(Step(s, es[0]), es[1..]))
  }

  ghost function After(s: State, es: seq<Event>): State
    requires Run(s, es)
    decreases |es|
  {
    if es == [] then s else After(Step(s, es[0]), es[1..])
  }

  /** rt_system_scheduler_init. */
  function Initial(max: nat): State
    requires 0 < max <= 256
  {
    State(max, 0, seq(32, _ => 0), seq(max, _ => []), map[], Nobody, max - 1, 0)
  }

  lemma InitialInv(max: nat)
    requires 0 < max <= 256
    ensures Inv(Initial(max))
  {
    var s := Initial(max);
    forall i ensures !Has(0, i) {
      HasZero(i);
    }
    forall p | 0 <= p < max ensures QueueOk(s.queues[p], s.threads, p) {}
    forall n | 0 <= n < 32 ensures ByteOk(s.table[n], s.queues, n) {}
  }

  lemma {:induction false} RunKeeps(s: State, es: seq<Event>)
    requires Inv(s) && Run(s, es)
    ensures Inv(After(s, es)) && After(s, es).max == s.max
    decreases |es|
  {
    if es != [] {
      StepKeeps(s, es[0]);
      RunKeeps(Step(s, es[0]), es[1..]);
    }
  }

  /** A thread that was never started may well be suspended and resumed, once its priority was set. */
  lemma PriorityBeforeResume(s: State, t: Tid, p: nat, q: nat)
    requires Inv(s) && t !in s.threads && p < s.max && q < s.max
    ensures Run(s, [Create(t, p)] + ([Event.Suspend(t)] + ([SetPriority(t, q)] + ([Resume(t)] + []))))
  {
    var s1 := Step(s, Create(t, p));
    StepKeeps(s, Create(t, p));
    var s2 := Step(s1, Event.Suspend(t));
    StepKeeps(s1, Event.Suspend(t));
    var s3 := Step(s2, SetPriority(t, q));
    StepKeeps(s2, SetPriority(t, q));
    MaskedAfter(s2.threads[t], q, s.max);
    assert Safe(s3, Resume(t));
    RunFrom(s3, Resume(t), []);
    RunFrom(s2, SetPriority(t, q), [Resume(t)] + []);
    RunFrom(s1, Event.Suspend(t), [SetPriority(t, q)] + ([Resume(t)] + []));
    RunFrom(s, Create(t, p), [Event.Suspend(t)] + ([SetPriority(t, q)] + ([Resume(t)] + [])));
  }

  lemma RunFrom(s: State, e: Event, es: seq<Event>)
    requires Inv(s) && Enabled(s, e) && Safe(s, e) && Run(Step(s, e), es)
    ensures Run(s, [e] + es)
  {
    assert ([e] + es)[1..] == es;
  }

  /** In every reachable state the ready queues are lists without repetition that hold exactly the READY
      threads, each in the queue of its own priority, and a bit of the bitmap is set if and only if a
      queue under it is not empty. */
  lemma Agreement(max: nat, es: seq<Event>, p: nat)
    requires 0 < max <= 256 && Run(Initial(max), es) && p < max
    ensures var s := After(Initial(max), es);
            && |s.queues| == max && |s.table| == 32 && NoDuplicates(s.queues[p])
            && (forall t :: t in s.queues[p] <==> t in s.threads && s.threads[t].stat.Ready? && s.threads[t].prio == p)
            && (max <= 32 ==> (Has(s.group, p) <==> s.queues[p] != []))
            && (max > 32 ==> (Has(s.table[p / 8], p % 8) <==> s.queues[p] != []))
            && (max > 32 ==> (Has(s.group, p / 8) <==> s.table[p / 8] != 0))
  {
    InitialInv(max);
    RunKeeps(Initial(max), es);
    var s := After(Initial(max), es);
    assert QueueOk(s.queues[p], s.threads, p);
    forall t ensures t in s.queues[p] <==> t in s.threads && s.threads[t].stat.Ready? && s.threads[t].prio == p {
      assert t in Members(s.queues[p]) <==> t in ReadyAt(s.threads, p);
    }
    assert NonEmpty(s.queues, p) <==> s.queues[p] != [];
    if max > 32 {
      assert ByteOk(s.table[p / 8], s.queues, p / 8) && 8 * (p / 8) + p % 8 == p;
    }
  }

  /** rt_schedule, with the scheduler unlocked, makes the first thread of the most urgent non-empty queue
      the current one: it is READY, and no READY thread is more urgent. */
  lemma Selected(s: State)
    requires Inv(s) && Enabled(s, Schedule) && s.lockNest == 0
    ensures var s' := Step(s, Schedule);
            && s'.current.Runs? && s'.current.tid in s.threads && s.threads[s'.current.tid].stat.Ready?
            && NonEmpty(s.queues, s.threads[s'.current.tid].prio)
                && s.queues[s.threads[s'.current.tid].prio][0] == s'.current.tid
            && (forall t | t in s.threads && s.threads[t].stat.Ready? ::
                s.threads[s'.current.tid].prio <= s.threads[t].prio)
            && s' == s.(current := s'.current, currentPrio := s'.currentPrio)
            && s'.currentPrio == if s'.current == s.current then s.currentPrio else s.threads[s'.current.tid].prio
  {
    var q := SomeQueue(s);
    var h := First(s.queues, 0);
    var to := s.queues[h][0];
    assert QueueOk(s.queues[h], s.threads, h);
    assert to in Members(s.queues[h]);
    forall t | t in s.threads && s.threads[t].stat.Ready? ensures h <= s.threads[t].prio {
      var p := s.threads[t].prio;
      assert QueueOk(s.queues[p], s.threads, p);
      assert t in ReadyAt(s.threads, p) && t in Members(s.queues[p]);
    }
  }

  class Scheduler {
    const max: nat                    // RT_THREAD_PRIORITY_MAX
    var group: nat                    // rt_thread_ready_priority_group
    const table: array<nat>           // rt_thread_ready_table
    const queues: array<seq<Tid>>     // rt_thread_priority_table
    var threads: map<Tid, Thread>
    var current: Current              // rt_current_thread
    var currentPrio: nat
    var lockNest: int                 // rt_scheduler_lock_nest, 16-bit with a sign

    ghost function Abs(): State
      reads this, table, queues
    {
      State(max, group, table[..], queues[..], threads, current, currentPrio, lockNest)
    }

    /** rt_system_scheduler_init. */
    constructor (max: nat)
      requires 0 < max <= 256
      ensures Abs() == Initial(max) && Inv(Abs()) && fresh(table) && fresh(queues)
    {
      this.max, group, threads, current, currentPrio, lockNest := max, 0, map[], Nobody, max - 1, 0;
      table, queues := new nat[32](_ => 0), new seq<Tid>[max](_ => []);
      new;
      assert table[..] == Initial(max).table && queues[..] == Initial(max).queues;
      InitialInv(max);
    }

    /** rt_schedule_insert_thread. */
    method InsertThread(t: Tid)
      requires Shape(Abs()) && t in threads
      modifies this, table, queues
      ensures Abs() == Insert(old(Abs()), t)
    {
      var th := threads[t];
      threads := threads[t := th.(stat := Ready)];
      queues[th.prio] := queues[th.prio] + [t];
      if max > 32 {
        table[th.number] := Or(table[th.number], th.highMask);
      }
      group := Or(group, th.numberMask);
    }

    /** rt_schedule_remove_thread. */
    method RemoveThread(t: Tid)
      requires Shape(Abs()) && t in threads
      modifies this, table, queues
      ensures Abs() == Remove(old(Abs()), t)
    {
      var th := threads[t];
      queues[th.prio] := Without(queues[th.prio], t);
      if queues[th.prio] == [] {
        if max > 32 {
          table[th.number] := AndNot(table[th.number], th.highMask);
          if table[th.number] == 0 {
            group := AndNot(group, th.numberMask);
          }
        } else {
          group := AndNot(group, th.numberMask);
        }
      }
    }

    /** rt_thread_startup, up to its call of rt_schedule. */
    method Startup(t: Tid)
      requires Inv(Abs()) && Enabled(Abs(), Event.Startup(t))
      modifies this, table, queues
      ensures Abs() == Step(old(Abs()), Event.Startup(t))
    {
      PrepareThread(t);
      UnlinkKeeps(Abs(), t);
      var ok := ResumeThread(t);
    }

    /** rt_thread_startup, up to its call of rt_thread_resume. */
    method PrepareThread(t: Tid)
      requires Inv(Abs()) && Enabled(Abs(), StartupBegin(t))
      modifies `threads
      ensures Abs() == Step(old(Abs()), StartupBegin(t)) && Inv(Abs())
    {
      StartupKeeps(Abs(), t);
      threads := threads[t := WithPriority(threads[t], threads[t].initPrio, max).(stat := Stat.Suspend)];
    }

    /** rt_thread_resume, with nothing between its test and its sections. */
    method ResumeThread(t: Tid) returns (ok: bool)
      requires Shape(Abs()) && t in threads
      modifies this, table, queues
      ensures ok == old(threads)[t].stat.Suspend?
      ensures Abs() == if ok then Insert(Unlinked(old(Abs()), t), t) else old(Abs())
    {
      ok := threads[t].stat.Suspend?;
      if ok {
        UnlinkThread(t);
        InsertThread(t);
      }
    }

    /** Its first section. The second one is rt_schedule_insert_thread. */
    method UnlinkThread(t: Tid)
      requires Shape(Abs()) && t in threads
      modifies queues
      ensures Abs() == Unlinked(old(Abs()), t)
    {
      var p := threads[t].prio;
      queues[p] := Without(queues[p], t);
    }

    /** rt_thread_suspend. */
    method SuspendThread(t: Tid)
      requires Inv(Abs()) && Enabled(Abs(), Event.Suspend(t))
      modifies this, table, queues
      ensures Abs() == Step(old(Abs()), Event.Suspend(t))
    {
      var th := threads[t].(stat := Stat.Suspend);
      threads := threads[t := th];
      RemoveThread(t);
    }

    /** rt_thread_control with RT_THREAD_CTRL_CHANGE_PRIORITY. */
    method ChangePriority(t: Tid, p: nat)
      requires Inv(Abs()) && Enabled(Abs(), SetPriority(t, p))
      modifies this, table, queues
      ensures Abs() == Step(old(Abs()), SetPriority(t, p))
    {
      MaskedAfter(threads[t], p, max);
      if threads[t].stat.Ready? {
        RemoveThread(t);
        threads := threads[t := WithPriority(threads[t], p, max)];
        InsertThread(t);
      } else {
        threads := threads[t := WithPriority(threads[t], p, max)];
      }
    }

    /** rt_thread_yield, up to its call of rt_schedule. */
    method YieldThread()
      requires Inv(Abs()) && Enabled(Abs(), Yield)
      modifies queues
      ensures Abs() == Step(old(Abs()), Yield)
    {
      var t := current.tid;
      var th := threads[t];
      if th.stat.Ready? && |queues[th.prio]| > 1 {
        var q := Without(queues[th.prio], t);
        queues[th.prio] := q + [t];
      }
    }

    /** rt_thread_exit, up to its call of rt_schedule. */
    method ExitThread()
      requires Inv(Abs()) && Enabled(Abs(), Exit)
      modifies this, table, queues
      ensures Abs() == Step(old(Abs()), Exit)
    {
      var t := current.tid;
      RemoveThread(t);
      threads := threads[t := threads[t].(stat := Close)];
    }

    /** rt_schedule. */
    method Reschedule()
      requires Inv(Abs()) && Enabled(Abs(), Schedule)
      modifies this
      ensures Abs() == Step(old(Abs()), Schedule)
    {
      HighestIsFirst(Abs());
      if lockNest == 0 {
        var highest: int;
        if max <= 32 {
          highest := Ffs(group) - 1;
        } else {
          HighestInTable(Abs());
          var number := Ffs(group) - 1;
          highest := number * 8 + Ffs(table[number]) - 1;
        }
        assert highest == Highest(Abs());
        var to := queues[highest][0];
        if current != Runs(to) {
          currentPrio := highest;
          current := Runs(to);
        }
      }
    }

    /** rt_enter_critical. */
    method EnterCritical()
      requires Inv(Abs())
      modifies `lockNest
      ensures Abs() == Step(old(Abs()), Lock)
    {
      lockNest := Signed16(lockNest + 1);
    }

    /** rt_exit_critical, up to its call of rt_schedule. */
    method ExitCritical() returns (unlocked: bool)
      requires Inv(Abs())
      modifies `lockNest
      ensures Abs() == Step(old(Abs()), Unlock) && unlocked == (lockNest == 0)
    {
      lockNest := Signed16(lockNest - 1);
      unlocked := lockNest <= 0;
      if unlocked {
        lockNest := 0;
      }
    }
  }
}
