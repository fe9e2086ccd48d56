/** The list of threads suspended on an IPC object (rt_ipc_list_suspend, rt_ipc_list_resume and
    rt_ipc_list_resume_all). A thread waits with the priority it had when it was suspended;
    numerically smaller is more urgent. */
module WaitList {

  type Tid = nat
  datatype Waiter = Waiter(tid: Tid, prio: nat)
  datatype Flag = Fifo | Prio

  /** Insertion behind every waiter that is at least as urgent, in a list sorted by priority. */
  function InsertByPrio(s: seq<Waiter>, w: Waiter): seq<Waiter> {
    if s == [] then [w]
    else if w.prio < s[0].prio then [w] + s
    else [s[0]] + InsertByPrio(s[1..], w)
  }

  function Suspended(s: seq<Waiter>, w: Waiter, flag: Flag): seq<Waiter> {
    if flag.Fifo? then s + [w] else InsertByPrio(s, w)
  }

  /** The list that the arrivals `a`, in this order, leave behind. */
  function Queue(a: seq<Waiter>, flag: Flag): seq<Waiter> {
    if a == [] then [] else Suspended(Queue(a[..|a| - 1], flag), a[|a| - 1], flag)
  }

  function Remove(s: seq<Waiter>, t: Tid): seq<Waiter> {
    if s == [] then [] else if s[0].tid == t then s[1..] else [s[0]] + Remove(s[1..], t)
  }

  /** The waiters of one priority, in order. */
  function OfPrio(s: seq<Waiter>, p: nat): seq<Waiter> {
    if s == [] then [] else (if s[0].prio == p then [s[0]] else []) + OfPrio(s[1..], p)
  }

  ghost predicate Sorted(s: seq<Waiter>) {
    |s| < 2 || (s[0].prio <= s[1].prio && Sorted(s[1..]))
  }

  ghost predicate Unique(s: seq<Waiter>) {
    forall i, j | 0 <= i < j < |s| :: s[i].tid != s[j].tid
  }

  ghost function Tids(s: seq<Waiter>): set<Tid> {
    set w | w in s :: w.tid
  }

  /** rt_ipc_list_suspend: the walk for a position. */
  method ListSuspend(list: seq<Waiter>, w: Waiter, flag: Flag) returns (list': seq<Waiter>)
    ensures list' == Suspended(list, w, flag)
  {
    if flag.Fifo? {
      return list + [w];
    }
    var n := 0;
    while n < |list|
      invariant 0 <= n <= |list|
      invariant InsertByPrio(list, w) == list[..n] + InsertByPrio(list[n..], w)
    {
      if w.prio < list[n].prio {
        return list[..n] + [w] + list[n..];
      }
      assert list[n..][1..] == list[n + 1..] && list[..n + 1] == list[..n] + [list[n]];
      n := n + 1;
    }
    list' := list + [w];
  }

  /** rt_ipc_list_resume. rt_thread_resume takes a thread off its list only if it is in the SUSPEND state. */
  method ListResume(list: seq<Waiter>, suspended: set<Tid>) returns (list': seq<Waiter>, suspended': set<Tid>)
    requires list != [] && Unique(list) && Tids(list) <= suspended
    ensures list' == list[1..] && suspended' == suspended - {list[0].tid} && Tids(list') <= suspended'
  {
    UniqueTail(list);
    list', suspended' := list, suspended;
    if list[0].tid in suspended {
      list', suspended' := list[1..], suspended - {list[0].tid};
    }
  }

  /** rt_ipc_list_resume_all. That every waiter is suspended makes the loop end. */
  method ResumeAll(list: seq<Waiter>, suspended: set<Tid>)
    returns (rest: seq<Waiter>, suspended': set<Tid>, failed: seq<Tid>)
    requires Unique(list) && Tids(list) <= suspended
    ensures rest == [] && suspended' == suspended - Tids(list)
    ensures |failed| == |list| && forall i | 0 <= i < |list| :: failed[i] == list[i].tid
  {
    rest, suspended', failed := list, suspended, [];
    while rest != []
      invariant |failed| <= |list| && rest == list[|failed|..]
      invariant forall i | 0 <= i < |failed| :: failed[i] == list[i].tid
      invariant suspended' == suspended - Tids(list[..|failed|])
      decreases |rest|
    {
      var t := rest[0].tid;
      ghost var k := |failed|;
      assert t in suspended' by {
        assert rest[0] in list;
        forall w | w in list[..k] ensures w.tid != t {
          var i :| 0 <= i < k && list[i] == w;
        }
      }
      if t in suspended' {
        failed := failed + [t];
        suspended' := suspended' - {t};
        rest := rest[1..];
        assert list[..k + 1] == list[..k] + [list[k]];
      }
    }
    assert list[..|failed|] == list;
  }

  // The list is the arrival order, stably sorted by priority when the flag says so.

  lemma {:induction false} HeadIsMostUrgent(s: seq<Waiter>, w: Waiter)
    requires Sorted(s) && w in s
    ensures s[0].prio <= w.prio
  {
    if w != s[0] {
      assert s == [s[0]] + s[1..];
      HeadIsMostUrgent(s[1..], w);
    }
  }

  lemma {:induction false} InsertSorted(s: seq<Waiter>, w: Waiter)
    requires Sorted(s)
    ensures Sorted(InsertByPrio(s, w))
  {
    if s != [] {
      InsertSorted(s[1..], w);
      assert ([w] + s)[1..] == s;
      assert ([s[0]] + InsertByPrio(s[1..], w))[1..] == InsertByPrio(s[1..], w);
    }
  }

  lemma {:induction false} InsertKeepsAll(s: seq<Waiter>, w: Waiter)
    ensures multiset(InsertByPrio(s, w)) == multiset(s) + multiset{w}
  {
    if s != [] {
      InsertKeepsAll(s[1..], w);
      assert s == [s[0]] + s[1..];
    }
  }

  lemma {:induction false} InsertOfPrio(s: seq<Waiter>, w: Waiter, p: nat)
    requires Sorted(s)
    ensures OfPrio(InsertByPrio(s, w), p) == OfPrio(s, p) + if w.prio == p then [w] else []
  {
    if s != [] {
      if w.prio < s[0].prio {
        assert ([w] + s)[1..] == s;
        if w.prio == p {
          NoneOfPrio(s, p);
        }
      } else {
        InsertOfPrio(s[1..], w, p);
        assert ([s[0]] + InsertByPrio(s[1..], w))[1..] == InsertByPrio(s[1..], w);
      }
    }
  }

  lemma {:induction false} NoneOfPrio(s: seq<Waiter>, p: nat)
    requires Sorted(s) && (s != [] ==> p < s[0].prio)
    ensures OfPrio(s, p) == []
  {
    if s != [] {
      NoneOfPrio(s[1..], p);
    }
  }

  lemma {:induction false} OfPrioAppend(s: seq<Waiter>, w: Waiter, p: nat)
    ensures OfPrio(s + [w], p) == OfPrio(s, p) + if w.prio == p then [w] else []
  {
    if s != [] {
      OfPrioAppend(s[1..], w, p);
      assert (s + [w])[1..] == s[1..] + [w];
    } else {
      assert [w][1..] == [];
    }
  }

  /** A FIFO list is the arrivals; a priority list is sorted, holds the same waiters, and keeps the
      waiters of each priority in arrival order. */
  lemma {:induction false} QueueIsStableSort(a: seq<Waiter>, flag: Flag)
    ensures flag.Fifo? ==> Queue(a, flag) == a
    ensures flag.Prio? ==> Sorted(Queue(a, flag)) && forall p :: OfPrio(Queue(a, flag), p) == OfPrio(a, p)
    ensures multiset(Queue(a, flag)) == multiset(a)
  {
    if a != [] {
      var b, w := a[..|a| - 1], a[|a| - 1];
      QueueIsStableSort(b, flag);
      assert a == b + [w];
      if flag.Prio? {
        InsertSorted(Queue(b, flag), w);
        InsertKeepsAll(Queue(b, flag), w);
        forall p ensures OfPrio(Queue(a, flag), p) == OfPrio(a, p) {
          InsertOfPrio(Queue(b, flag), w, p);
          OfPrioAppend(b, w, p);
        }
      }
    }
  }

  // A waiter that leaves, woken or timed out, leaves the order of the others as if it had never come.

  lemma {:induction false} RemoveAbsent(s: seq<Waiter>, t: Tid)
    requires t !in Tids(s)
    ensures Remove(s, t) == s
  {
    if s != [] {
      assert s == [s[0]] + s[1..];
      RemoveAbsent(s[1..], t);
    }
  }

  lemma {:induction false} RemoveAppend(s: seq<Waiter>, w: Waiter, t: Tid)
    requires t in Tids(s) || w.tid != t
    ensures Remove(s + [w], t) == Remove(s, t) + [w]
  {
    if s != [] {
      assert s == [s[0]] + s[1..];
      assert (s + [w])[1..] == s[1..] + [w];
      if s[0].tid != t {
        RemoveAppend(s[1..], w, t);
      }
    }
  }

  lemma {:induction false} RemoveLast(s: seq<Waiter>, w: Waiter)
    requires w.tid !in Tids(s)
    ensures Remove(s + [w], w.tid) == s
  {
    if s != [] {
      assert s == [s[0]] + s[1..];
      assert (s + [w])[1..] == s[1..] + [w];
      RemoveLast(s[1..], w);
    }
  }

  lemma {:induction false} RemoveInserted(s: seq<Waiter>, w: Waiter)
    requires w.tid !in Tids(s)
    ensures Remove(InsertByPrio(s, w), w.tid) == s
  {
    if s != [] {
      assert s == [s[0]] + s[1..];
      assert ([w] + s)[1..] == s;
      assert ([s[0]] + InsertByPrio(s[1..], w))[1..] == InsertByPrio(s[1..], w);
      RemoveInserted(s[1..], w);
    }
  }

  lemma {:induction false} RemoveInsert(s: seq<Waiter>, w: Waiter, t: Tid)
    requires Sorted(s) && w.tid != t
    ensures Remove(InsertByPrio(s, w), t) == InsertByPrio(Remove(s, t), w)
  {
    if s != [] {
      if w.prio < s[0].prio {
        assert ([w] + s)[1..] == s;
      } else {
        RemoveInsert(s[1..], w, t);
        assert ([s[0]] + InsertByPrio(s[1..], w))[1..] == InsertByPrio(s[1..], w);
      }
    }
  }

  lemma QueueTids(a: seq<Waiter>, flag: Flag)
    ensures Tids(Queue(a, flag)) == Tids(a)
  {
    QueueIsStableSort(a, flag);
    forall w ensures w in Queue(a, flag) <==> w in a {
      assert w in multiset(Queue(a, flag)) <==> w in multiset(a);
    }
  }

  lemma SuspendedRemove(s: seq<Waiter>, w: Waiter, flag: Flag, t: Tid)
    requires (flag.Prio? ==> Sorted(s)) && w.tid !in Tids(s)
    ensures Remove(Suspended(s, w, flag), t) == if w.tid == t then s else Suspended(Remove(s, t), w, flag)
  {
    if w.tid == t {
      RemoveLast(s, w);
      RemoveInserted(s, w);
    } else {
      RemoveAppend(s, w, t);
      if flag.Prio? {
        RemoveInsert(s, w, t);
      }
    }
  }

  lemma {:induction false} RemoveTids(a: seq<Waiter>, t: Tid)
    requires Unique(a)
    ensures Unique(Remove(a, t)) && Tids(Remove(a, t)) == Tids(a) - {t}
  {
    if a != [] {
      assert a == [a[0]] + a[1..];
      assert Tids(a) == {a[0].tid} + Tids(a[1..]);
      assert a[0].tid !in Tids(a[1..]);
      if a[0].tid != t {
        RemoveTids(a[1..], t);
        var r := Remove(a[1..], t);
        assert Tids([a[0]] + r) == {a[0].tid} + Tids(r);
        forall i | 0 <= i < |r| ensures r[i].tid != a[0].tid {
          assert r[i].tid in Tids(r);
        }
      }
    }
  }

  lemma {:induction false} RemoveSubset(s: seq<Waiter>, t: Tid, w: Waiter)
    requires w in Remove(s, t)
    ensures w in s
  {
    if s[0].tid != t && w != s[0] {
      RemoveSubset(s[1..], t, w);
    }
  }

  /** Removal commutes with queueing. */
  lemma {:induction false} QueueRemove(a: seq<Waiter>, flag: Flag, t: Tid)
    requires Unique(a)
    ensures Remove(Queue(a, flag), t) == Queue(Remove(a, t), flag)
  {
    if a != [] {
      var b, w := a[..|a| - 1], a[|a| - 1];
      assert a == b + [w] && w.tid !in Tids(b);
      QueueTids(b, flag);
      QueueIsStableSort(b, flag);
      QueueRemove(b, flag, t);
      SuspendedRemove(Queue(b, flag), w, flag, t);
      if w.tid == t {
        RemoveLast(b, w);
      } else {
        RemoveAppend(b, w, t);
        assert (Remove(b, t) + [w])[..|Remove(b, t)|] == Remove(b, t);
      }
    }
  }

  lemma UniqueCons(x: Waiter, s: seq<Waiter>)
    requires Unique(s) && x.tid !in Tids(s)
    ensures Unique([x] + s) && Tids([x] + s) == {x.tid} + Tids(s)
  {
    forall j | 0 <= j < |s| ensures s[j].tid != x.tid {
      assert s[j] in s;
    }
  }

  lemma UniqueTail(s: seq<Waiter>)
    requires Unique(s) && s != []
    ensures s == [s[0]] + s[1..] && Unique(s[1..]) && s[0].tid !in Tids(s[1..]) && Tids(s) == {s[0].tid} + Tids(s[1..])
  {
    assert s == [s[0]] + s[1..];
  }

  lemma {:induction false} UniqueSuspended(s: seq<Waiter>, w: Waiter, flag: Flag)
    requires Unique(s) && w.tid !in Tids(s)
    ensures Unique(Suspended(s, w, flag)) && Tids(Suspended(s, w, flag)) == Tids(s) + {w.tid}
    decreases |s|
  {
    if s == [] || (flag.Prio? && w.prio < s[0].prio) {
      UniqueCons(w, s);
      assert [] + [w] == [w] && [w] + [] == [w];
    } else {
      UniqueTail(s);
      UniqueSuspended(s[1..], w, flag);
      UniqueCons(s[0], Suspended(s[1..], w, flag));
      assert s + [w] == [s[0]] + (s[1..] + [w]);
    }
  }

  lemma SuspendedMembers(s: seq<Waiter>, w: Waiter, flag: Flag, x: Waiter)
    ensures x in Suspended(s, w, flag) <==> x in s || x == w
  {
    InsertKeepsAll(s, w);
    assert x in multiset(InsertByPrio(s, w)) <==> x in multiset(s) + multiset{w};
  }

  lemma {:induction false} UniqueQueue(a: seq<Waiter>, flag: Flag)
    requires Unique(a)
    ensures Unique(Queue(a, flag))
  {
    if a != [] {
      var b, w := a[..|a| - 1], a[|a| - 1];
      assert w.tid !in Tids(b);
      UniqueQueue(b, flag);
      QueueTids(b, flag);
      UniqueSuspended(Queue(b, flag), w, flag);
    }
  }

  // Threads that were woken and have not run yet, and what they were woken for.

  /** The list without its head: rt_ipc_list_resume. */
  function Resumed(list: seq<Waiter>): seq<Waiter> {
    if list == [] then [] else list[1..]
  }

  function Head(list: seq<Waiter>): seq<Waiter> {
    if list == [] then [] else [list[0]]
  }

  /** While threads wait, each of the `n` things they wait for has a woken thread under way to it. */
  ghost predicate Awaited(list: seq<Waiter>, woken: seq<Waiter>, n: int) {
    list != [] ==> n <= |woken|
  }

  /** A thread waits or was woken, once. */
  ghost predicate Placed(list: seq<Waiter>, woken: seq<Waiter>) {
    Unique(list) && Unique(woken) && Tids(list) !! Tids(woken)
  }

  lemma PlacedWake(list: seq<Waiter>, woken: seq<Waiter>)
    requires Placed(list, woken)
    ensures Placed(Resumed(list), woken + Head(list))
    ensures Tids(Resumed(list)) + Tids(Head(list)) == Tids(list)
            && Tids(woken + Head(list)) == Tids(woken) + Tids(Head(list))
  {
    if list != [] {
      UniqueTail(list);
      UniqueSuspended(woken, list[0], Fifo);
    } else {
      assert woken + [] == woken;
    }
  }

  lemma PlacedRuns(list: seq<Waiter>, woken: seq<Waiter>, t: Tid)
    requires Placed(list, woken)
    ensures Placed(list, Remove(woken, t)) && Tids(Remove(woken, t)) == Tids(woken) - {t}
  {
    RemoveTids(woken, t);
  }

  lemma PlacedExpires(list: seq<Waiter>, woken: seq<Waiter>, t: Tid)
    requires Placed(list, woken)
    ensures Placed(Remove(list, t), woken) && Tids(Remove(list, t)) == Tids(list) - {t}
  {
    RemoveTids(list, t);
  }

  lemma PlacedWaits(list: seq<Waiter>, woken: seq<Waiter>, w: Waiter, flag: Flag)
    requires Placed(list, woken) && w.tid !in Tids(list) && w.tid !in Tids(woken)
    ensures Placed(Suspended(list, w, flag), woken) && Tids(Suspended(list, w, flag)) == Tids(list) + {w.tid}
  {
    UniqueSuspended(list, w, flag);
  }

  lemma {:induction false} RemoveLength(s: seq<Waiter>, t: Tid)
    ensures |s| - 1 <= |Remove(s, t)| <= |s|
    ensures t in Tids(s) ==> |Remove(s, t)| == |s| - 1
  {
    if s != [] {
      assert s == [s[0]] + s[1..];
      RemoveLength(s[1..], t);
    }
  }

  // The waiting threads in the order in which they came.

  /** Of the threads that wait, which came in this order, `w` is the first to have come or, with priorities,
      the first to have come among the most urgent. */
  ghost predicate FirstOf(w: Waiter, arrivals: seq<Waiter>, flag: Flag) {
    && w in arrivals
    && (flag.Fifo? ==> w == arrivals[0])
    && (flag.Prio? ==>
          && (forall x | x in arrivals :: w.prio <= x.prio)
          && OfPrio(arrivals, w.prio) != [] && OfPrio(arrivals, w.prio)[0] == w)
  }

  /** The head of the list is the thread to be woken first. */
  lemma WakeOrder(arrivals: seq<Waiter>, flag: Flag)
    requires arrivals != []
    ensures Queue(arrivals, flag) != [] && FirstOf(Queue(arrivals, flag)[0], arrivals, flag)
  {
    QueueIsStableSort(arrivals, flag);
    var q := Queue(arrivals, flag);
    assert |multiset(q)| == |multiset(arrivals)|;
    assert q[0] in multiset(arrivals);
    if flag.Prio? {
      forall w | w in arrivals ensures q[0].prio <= w.prio {
        assert w in multiset(q);
        HeadIsMostUrgent(q, w);
      }
      assert OfPrio(q, q[0].prio)[0] == q[0];
    }
  }

  ghost predicate Arrived(list: seq<Waiter>, arrivals: seq<Waiter>, flag: Flag) {
    Unique(arrivals) && list == Queue(arrivals, flag)
  }

  /** The arrivals without a thread that was woken, if one was. */
  ghost function Remaining(arrivals: seq<Waiter>, woken: seq<Waiter>): seq<Waiter> {
    if woken == [] then arrivals else Remove(arrivals, woken[0].tid)
  }

  lemma ArrivedWaits(list: seq<Waiter>, arrivals: seq<Waiter>, w: Waiter, flag: Flag)
    requires Arrived(list, arrivals, flag) && w.tid !in Tids(list)
    ensures Arrived(Suspended(list, w, flag), arrivals + [w], flag)
  {
    QueueTids(arrivals, flag);
    UniqueSuspended(arrivals, w, Fifo);
    assert (arrivals + [w])[..|arrivals|] == arrivals;
  }

  lemma ArrivedLeaves(list: seq<Waiter>, arrivals: seq<Waiter>, t: Tid, flag: Flag)
    requires Arrived(list, arrivals, flag)
    ensures Arrived(Remove(list, t), Remove(arrivals, t), flag)
  {
    QueueRemove(arrivals, flag, t);
    RemoveTids(arrivals, t);
  }

  /** To wake a thread takes the one out of the list that is to be woken first. */
  lemma ArrivedWakes(list: seq<Waiter>, arrivals: seq<Waiter>, flag: Flag)
    requires Arrived(list, arrivals, flag)
    ensures Arrived(Resumed(list), Remaining(arrivals, Head(list)), flag)
    ensures list == [] <==> arrivals == []
    ensures list != [] ==>
              FirstOf(list[0], arrivals, flag) && Head(list) == [list[0]] && Resumed(list) == Remove(list, list[0].tid)
  {
    if arrivals != [] {
      WakeOrder(arrivals, flag);
      ArrivedLeaves(list, arrivals, list[0].tid, flag);
    }
  }

  /** Nobody waits, or exactly the thread that is to be woken first is woken. */
  ghost predicate WakesFirst(arrivals: seq<Waiter>, list: seq<Waiter>, woken: seq<Waiter>, suspended: set<Tid>,
                             list': seq<Waiter>, woken': seq<Waiter>, suspended': set<Tid>, flag: Flag) {
    if list == [] then list' == [] && woken' == woken && suspended' == suspended
    else exists w :: FirstOf(w, arrivals, flag) && list' == Remove(list, w.tid) && woken' == woken + [w]
                     && suspended' == suspended - {w.tid}
  }

  lemma HeadWakesFirst(arrivals: seq<Waiter>, list: seq<Waiter>, woken: seq<Waiter>, suspended: set<Tid>, flag: Flag)
    requires Arrived(list, arrivals, flag)
    ensures WakesFirst(arrivals, list, woken, suspended,
                Resumed(list), woken + Head(list), suspended - Tids(Head(list)), flag)
  {
    ArrivedWakes(list, arrivals, flag);
    if list != [] {
      assert Tids([list[0]]) == {list[0].tid};
    }
  }
}
