/** Counting semaphores (rt_sem_take, rt_sem_release, rt_sem_control). Each method is one section
    with interrupts disabled, so any sequence of calls is a run. */
module Semaphore {
  import opened WaitList
  import opened Words


  datatype TakeResult = Taken | NoWait | Blocked
  datatype Woken = Nobody | Thread(tid: Tid)

  class Semaphore {
    var value: nat               // 16-bit
    const flag: Flag
    var waiters: seq<Waiter>     // suspend_thread
    var suspended: set<Tid>      // the threads it put into the SUSPEND state

    ghost var arrivals: seq<Waiter>  // the waiting threads in the order in which they came
    ghost var initial: nat           // value at the last initialization or reset
    ghost var releases: nat          // since then
    ghost var takes: nat             // successful takes since then, counting hand-offs
    ghost var wraps: nat             // releases that wrapped the counter to 0

    ghost predicate Valid()
      reads this
    {
      && value < U16
      && (value > 0 ==> waiters == [])
      && Unique(arrivals) && waiters == Queue(arrivals, flag) && Tids(waiters) <= suspended
      && initial + releases == value + takes + U16 * wraps
    }

    /** rt_sem_init. */
    constructor (value: nat, flag: Flag)
      ensures Valid() && this.flag == flag && arrivals == [] && this.value == value % U16 && suspended == {}
      ensures initial == value % U16 && releases == 0 && takes == 0
    {
      this.value, this.flag, waiters, suspended := value % U16, flag, [], {};
      arrivals, initial, releases, takes, wraps := [], value % U16, 0, 0, 0;
    }

    /** rt_sem_take by thread `t`, up to the point where it returns or is suspended. */
    method Take(t: Tid, prio: nat, time: int) returns (ret: TakeResult)
      requires Valid() && t !in suspended
      modifies this
      ensures Valid() && initial == old(initial) && releases == old(releases) && wraps == old(wraps)
      ensures ret.Taken? <==> old(value) > 0
      ensures ret.NoWait? <==> old(value) == 0 && time == 0
      ensures takes == old(takes) + if ret.Taken? then 1 else 0
      ensures value == old(value) - if ret.Taken? then 1 else 0
      ensures arrivals == old(arrivals) + if ret.Blocked? then [Waiter(t, prio)] else []
      ensures suspended == old(suspended) + if ret.Blocked? then {t} else {}
    {
      if value > 0 {
        value := value - 1;
        takes := takes + 1;
        return Taken;
      }
      if time == 0 {
        return NoWait;
      }
      ghost var w := Waiter(t, prio);
      QueueTids(arrivals, flag);
      assert forall x | x in arrivals :: x.tid in Tids(arrivals);
      UniqueQueue(arrivals, flag);
      UniqueSuspended(waiters, w, flag);
      suspended := suspended + {t};
      waiters := ListSuspend(waiters, Waiter(t, prio), flag);
      assert (arrivals + [w])[..|arrivals|] == arrivals;
      arrivals := arrivals + [w];
      ret := Blocked;
    }

    /** rt_sem_release: hands the unit to the first waiter, or counts it. */
    method Release() returns (woken: Woken)
      requires Valid()
      modifies this
      ensures Valid() && initial == old(initial) && releases == old(releases) + 1
      ensures old(waiters) == [] ==>
                woken.Nobody? && value == (old(value) + 1) % U16 && arrivals == old(arrivals) && takes == old(takes)
      ensures suspended == old(suspended) - if old(waiters) == [] then {} else {old(waiters)[0].tid}
      ensures old(waiters) != [] ==>
                && woken == Thread(old(waiters)[0].tid) && value == old(value) && takes == old(takes) + 1
                && waiters == old(waiters)[1..] && arrivals == Remove(old(arrivals), woken.tid)
      ensures old(waiters) != [] ==> exists w :: FirstOf(w, old(arrivals), flag) && woken == Thread(w.tid)
      ensures wraps == old(wraps) + if old(value) + 1 == U16 then 1 else 0
    {
      woken := Nobody;
      if waiters != [] {
        woken := Thread(waiters[0].tid);
        WakeOrder(arrivals, flag);
        QueueRemove(arrivals, flag, waiters[0].tid);
        RemoveTids(arrivals, waiters[0].tid);
        arrivals := Remove(arrivals, waiters[0].tid);
        UniqueQueue(old(arrivals), flag);
        waiters, suspended := ListResume(waiters, suspended);
        takes := takes + 1;
      } else {
        wraps := wraps + if value + 1 == U16 then 1 else 0;
        value := (value + 1) % U16;
      }
      releases := releases + 1;
    }

    /** rt_thread_timeout of a thread that is suspended here. */
    method Expire(t: Tid)
      requires Valid() && t in Tids(waiters)
      modifies this
      ensures Valid() && initial == old(initial) && releases == old(releases) && takes == old(takes)
              && wraps == old(wraps)
      ensures value == old(value) && waiters == Remove(old(waiters), t) && arrivals == Remove(old(arrivals), t)
      ensures suspended == old(suspended) - {t}
    {
      UniqueQueue(arrivals, flag);
      RemoveTids(waiters, t);
      suspended := suspended - {t};
      QueueRemove(arrivals, flag, t);
      RemoveTids(arrivals, t);
      waiters := Remove(waiters, t);
      arrivals := Remove(arrivals, t);
    }

    /** rt_sem_control with RT_IPC_CMD_RESET. */
    method Reset(arg: nat) returns (failed: seq<Tid>)
      requires Valid()
      modifies this
      ensures Valid() && waiters == [] && value == arg % U16
      ensures suspended == old(suspended) - Tids(old(waiters))
      ensures |failed| == |old(waiters)| && forall i | 0 <= i < |failed| :: failed[i] == old(waiters)[i].tid
    {
      UniqueQueue(arrivals, flag);
      waiters, suspended, failed := ResumeAll(waiters, suspended);
      value := arg % U16;
      arrivals, initial, releases, takes, wraps := [], value, 0, 0, 0;
    }
  }
}
