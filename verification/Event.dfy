/** Event objects (rt_event_send, rt_event_recv, rt_event_control). A thread waits for all bits of a
    set (AND) or for any of them (OR), and may clear what it waits for from the object (CLEAR). */
module Event {
  import opened Lists
  import opened WaitList

  /** A 32-bit set of events, as the positions of its one bits: the word operations |, & and & ~ are
      then union, intersection and difference. */
  type Bits = set<nat>

  datatype Option<T> = None | Some(value: T)

  /** The flags RT_EVENT_FLAG_AND, RT_EVENT_FLAG_OR and RT_EVENT_FLAG_CLEAR of an option. */
  datatype Flags = Flags(all: bool, any: bool, clear: bool)

  /** event_set and event_info of a thread. */
  datatype Wish = Wish(bits: Bits, opt: Flags)

  predicate Satisfied(events: Bits, w: Wish) {
    if w.opt.all then events * w.bits == w.bits else w.opt.any && events * w.bits != {}
  }

  /** What a receive leaves of the object's set. */
  function Residue(events: Bits, w: Wish): Bits {
    if w.opt.clear then events - w.bits else events
  }

  /** An immediate receive: the set it leaves and the bits it gets. */
  function Receive(events: Bits, w: Wish): Option<(Bits, Bits)> {
    if Satisfied(events, w) then Some((Residue(events, w), events * w.bits)) else None
  }

  // Serving a list, whatever a receive is.

  function Init(ws: seq<Waiter>): seq<Waiter>
    requires ws != []
  {
    ws[..|ws| - 1]
  }

  lemma InitAndLast(ws: seq<Waiter>)
    requires ws != []
    ensures Tids(Init(ws)) <= Tids(ws) && Last(ws).tid in Tids(ws)
    ensures Tids(ws) == Tids(Init(ws)) + {Last(ws).tid}
    ensures Unique(ws) ==> Unique(Init(ws)) && Last(ws).tid !in Tids(Init(ws))
  {
    assert ws == Init(ws) + [Last(ws)];
  }

  function Left<S, B>(s: S, r: Option<(S, B)>): S {
    if r.None? then s else r.value.0
  }

  /** Receives made by one waiter after the other: the state they leave, and who gets what. */
  ghost function Serve<S, R, B>(ws: seq<Waiter>, s: S, wish: map<Tid, R>, recv: (S, R) -> Option<(S, B)>)
    : (S, map<Tid, B>)
    requires Tids(ws) <= wish.Keys
  {
    if ws == [] then (s, map[])
    else
      InitAndLast(ws);
      var (before, got) := Serve(Init(ws), s, wish, recv);
      var r := recv(before, wish[Last(ws).tid]);
      (Left(before, r), if r.Some? then got[Last(ws).tid := r.value.1] else got)
  }

  /** The waiters other than these. */
  ghost function Staying(ws: seq<Waiter>, gone: set<Tid>): seq<Waiter> {
    if ws == [] then []
    else (if ws[0].tid in gone then [] else [ws[0]]) + Staying(ws[1..], gone)
  }

  lemma {:induction false} ServeKeys<S, R, B>(ws: seq<Waiter>, s: S, wish: map<Tid, R>, recv: (S, R) -> Option<(S, B)>)
    requires Tids(ws) <= wish.Keys
    ensures Serve(ws, s, wish, recv).1.Keys <= Tids(ws)
  {
    if ws != [] {
      InitAndLast(ws);
      ServeKeys(Init(ws), s, wish, recv);
    }
  }

  lemma {:induction false} StayingMembers(ws: seq<Waiter>, gone: set<Tid>, w: Waiter)
    ensures w in Staying(ws, gone) <==> w in ws && w.tid !in gone
    decreases |ws|
  {
    if ws != [] {
      assert ws == [ws[0]] + ws[1..];
      StayingMembers(ws[1..], gone, w);
    }
  }

  /** What a waiter got stays with it. */
  lemma {:induction false} ServedStays<S, R, B>(ws: seq<Waiter>, k: nat, t: Tid, s: S, wish: map<Tid, R>,
                                                recv: (S, R) -> Option<(S, B)>)
    requires Tids(ws) <= wish.Keys && Unique(ws) && k <= |ws| && Tids(ws[..k]) <= wish.Keys && t in Tids(ws[..k])
    ensures var (early, late) := (Serve(ws[..k], s, wish, recv).1, Serve(ws, s, wish, recv).1);
            (t in early <==> t in late) && (t in early ==> early[t] == late[t])
  {
    if k == |ws| {
      assert ws[..k] == ws;
    } else {
      InitAndLast(ws);
      assert Init(ws)[..k] == ws[..k];
      ServedStays(Init(ws), k, t, s, wish, recv);
      TidsTake(Init(ws), k);
    }
  }

  lemma TidsTake(ws: seq<Waiter>, k: nat)
    requires k <= |ws|
    ensures Tids(ws[..k]) <= Tids(ws) && (Unique(ws) ==> Unique(ws[..k]))
  {}

  /** Timing independence: at its turn a waiter gets what an immediate receive would get from the
      state at that moment, and leaves what that receive would leave. */
  lemma ServedAtTurn<S, R, B>(ws: seq<Waiter>, k: nat, s: S, wish: map<Tid, R>, recv: (S, R) -> Option<(S, B)>)
    requires Tids(ws) <= wish.Keys && Unique(ws) && k < |ws|
    ensures Tids(ws[..k]) <= Tids(ws) && Tids(ws[..k + 1]) <= Tids(ws) && ws[k].tid in Tids(ws)
    ensures var before, got := Serve(ws[..k], s, wish, recv).0, Serve(ws, s, wish, recv).1;
            var r := recv(before, wish[ws[k].tid]);
            && (if ws[k].tid in got then r.Some? && r.value.1 == got[ws[k].tid] else r.None?)
            && Serve(ws[..k + 1], s, wish, recv).0 == Left(before, r)
  {
    TidsTake(ws, k);
    TidsTake(ws, k + 1);
    var p := ws[..k + 1];
    assert Init(p) == ws[..k] && Last(p) == ws[k];
    InitAndLast(p);
    ServeKeys(Init(p), s, wish, recv);
    ServedStays(ws, k + 1, ws[k].tid, s, wish, recv);
  }

  lemma {:induction false} StayingAppend(ws: seq<Waiter>, w: Waiter, gone: set<Tid>)
    ensures Staying(ws + [w], gone) == Staying(ws, gone) + if w.tid in gone then [] else [w]
    decreases |ws|
  {
    if ws != [] {
      StayingAppend(ws[1..], w, gone);
      assert (ws + [w])[1..] == ws[1..] + [w];
    } else {
      assert [w][1..] == [];
    }
  }

  lemma {:induction false} StayingMore(ws: seq<Waiter>, gone: set<Tid>, t: Tid)
    requires t !in Tids(ws)
    ensures Staying(ws, gone + {t}) == Staying(ws, gone)
    decreases |ws|
  {
    if ws != [] {
      assert ws == [ws[0]] + ws[1..];
      StayingMore(ws[1..], gone, t);
    }
  }

  lemma {:induction false} StayingUnique(ws: seq<Waiter>, gone: set<Tid>)
    requires Unique(ws)
    ensures Unique(Staying(ws, gone)) && Tids(Staying(ws, gone)) == Tids(ws) - gone
    decreases |ws|
  {
    if ws != [] {
      UniqueTail(ws);
      StayingUnique(ws[1..], gone);
      if ws[0].tid !in gone {
        UniqueCons(ws[0], Staying(ws[1..], gone));
      } else {
        assert Staying(ws, gone) == Staying(ws[1..], gone);
      }
    }
  }

  // Sets only shrink while they are served, so a condition once rejected stays rejected.

  lemma RejectedStays(small: Bits, big: Bits, w: Wish)
    requires small <= big && !Satisfied(big, w)
    ensures !Satisfied(small, w)
  {
    if w.opt.all {
      var x :| x in w.bits && x !in big;
    }
  }

  /** At its turn in a scan a waiter gets the bits it waits for of the set as it is then, if they satisfy its
      AND or OR condition, and with CLEAR they leave the set, as in an immediate receive; otherwise it gets
      nothing and the set stays. */
  lemma TurnIsReceive(ws: seq<Waiter>, k: nat, s: Bits, wish: map<Tid, Wish>)
    requires Tids(ws) <= wish.Keys && Unique(ws) && k < |ws|
    ensures Tids(ws[..k]) <= Tids(ws) && Tids(ws[..k + 1]) <= Tids(ws) && ws[k].tid in wish
    ensures var before, after := Serve(ws[..k], s, wish, Receive).0, Serve(ws[..k + 1], s, wish, Receive).0;
            var got, t, w := Serve(ws, s, wish, Receive).1, ws[k].tid, wish[ws[k].tid];
            && (t in got <==>
                  if w.opt.all then w.bits <= before else w.opt.any && exists x :: x in w.bits && x in before)
            && (t in got ==> got[t] == w.bits * before)
            && after == if t in got && w.opt.clear then before - w.bits else before
  {
    ServedAtTurn(ws, k, s, wish, Receive);
    var before, w := Serve(ws[..k], s, wish, Receive).0, wish[ws[k].tid];
    SatisfiedMeans(before, w);
    assert before * w.bits == w.bits * before;
  }

  lemma SatisfiedMeans(b: Bits, w: Wish)
    ensures Satisfied(b, w) <==> if w.opt.all then w.bits <= b else w.opt.any && exists x :: x in w.bits && x in b
  {
    if b * w.bits == w.bits {
      assert forall x | x in w.bits :: x in b * w.bits;
    }
    if exists x :: x in w.bits && x in b {
      var x :| x in w.bits && x in b;
      assert x in b * w.bits;
    } else {
      assert b * w.bits == {};
    }
  }

  lemma {:induction false} SetShrinks(ws: seq<Waiter>, k: nat, s: Bits, wish: map<Tid, Wish>)
    requires Tids(ws) <= wish.Keys && k <= |ws| && Tids(ws[..k]) <= wish.Keys
    ensures Serve(ws, s, wish, Receive).0 <= Serve(ws[..k], s, wish, Receive).0
  {
    if k == |ws| {
      assert ws[..k] == ws;
    } else {
      InitAndLast(ws);
      assert Init(ws)[..k] == ws[..k];
      SetShrinks(Init(ws), k, s, wish);
    }
  }

  /** No lost wake-up: nobody whom the scan leaves behind is satisfied by the set it leaves. */
  lemma ServeMissesNobody(ws: seq<Waiter>, k: nat, s: Bits, wish: map<Tid, Wish>)
    requires Tids(ws) <= wish.Keys && Unique(ws) && k < |ws|
    ensures ws[k].tid in wish
    ensures var (left, got) := Serve(ws, s, wish, Receive);
            ws[k].tid !in got ==> !Satisfied(left, wish[ws[k].tid])
  {
    ServedAtTurn(ws, k, s, wish, Receive);
    SetShrinks(ws, k, s, wish);
    var left, before := Serve(ws, s, wish, Receive).0, Serve(ws[..k], s, wish, Receive).0;
    if !Satisfied(before, wish[ws[k].tid]) {
      RejectedStays(left, before, wish[ws[k].tid]);
    }
  }

  /** A bit that one CLEAR receiver gets, no later receiver of the same send gets. */
  lemma ClearIsExclusive(ws: seq<Waiter>, i: nat, j: nat, s: Bits, wish: map<Tid, Wish>)
    requires Tids(ws) <= wish.Keys && Unique(ws) && i < j < |ws|
    ensures ws[i].tid in wish && ws[j].tid in wish
    ensures var got := Serve(ws, s, wish, Receive).1;
            ws[i].tid in got && ws[j].tid in got && wish[ws[i].tid].opt.clear ==> got[ws[i].tid] !! got[ws[j].tid]
  {
    ServedAtTurn(ws, i, s, wish, Receive);
    ServedAtTurn(ws, j, s, wish, Receive);
    var w, v := wish[ws[i].tid], wish[ws[j].tid];
    var b, c := Serve(ws[..i], s, wish, Receive).0, Serve(ws[..j], s, wish, Receive).0;
    ShrinksBetween(ws, i + 1, j, s, wish);
    if Receive(b, w).Some? && w.opt.clear {
      assert Serve(ws[..i + 1], s, wish, Receive).0 == b - w.bits;
      assert (b * w.bits) !! (c * v.bits);
    }
  }

  lemma ShrinksBetween(ws: seq<Waiter>, i: nat, j: nat, s: Bits, wish: map<Tid, Wish>)
    requires Tids(ws) <= wish.Keys && i <= j <= |ws|
    ensures Tids(ws[..i]) <= wish.Keys && Tids(ws[..j]) <= wish.Keys
    ensures Serve(ws[..j], s, wish, Receive).0 <= Serve(ws[..i], s, wish, Receive).0
  {
    TidsTake(ws, i);
    TidsTake(ws, j);
    assert ws[..j][..i] == ws[..i];
    SetShrinks(ws[..j], i, s, wish);
  }

  lemma NoneMissed(ws: seq<Waiter>, s: Bits, wish: map<Tid, Wish>)
    requires Tids(ws) <= wish.Keys && Unique(ws)
    ensures var (left, got) := Serve(ws, s, wish, Receive);
            forall w | w in Staying(ws, got.Keys) :: w.tid in wish && !Satisfied(left, wish[w.tid])
  {
    var (left, got) := Serve(ws, s, wish, Receive);
    forall w | w in Staying(ws, got.Keys) ensures w.tid in wish && !Satisfied(left, wish[w.tid]) {
      StayingMembers(ws, got.Keys, w);
      var k :| 0 <= k < |ws| && ws[k] == w;
      ServeMissesNobody(ws, k, s, wish);
    }
  }

  lemma RestOf<T>(a: seq<T>, n: nat, b: seq<T>, i: nat)
    requires n < |a| && i < |b| && a[n..] == b[i..]
    ensures a[n + 1..] == b[i + 1..] && a[..n + 1] == a[..n] + [b[i]]
    ensures (a[..n] + a[n + 1..])[n..] == b[i + 1..] && (a[..n] + a[n + 1..])[..n] == a[..n]
  {
    assert a[n..][1..] == b[i..][1..] && a[n..][0] == b[i..][0];
  }

  lemma ScanStep(ws: seq<Waiter>, i: nat, gone: set<Tid>)
    requires Unique(ws) && i < |ws| && gone <= Tids(ws[..i])
    ensures ws[i..][1..] == ws[i + 1..] && Init(ws[..i + 1]) == ws[..i] && Last(ws[..i + 1]) == ws[i]
    ensures Tids(ws[..i + 1]) <= Tids(ws) && Tids(ws[..i]) <= Tids(ws) && ws[i].tid in Tids(ws) && ws[i].tid !in gone
    ensures Tids(ws[..i + 1]) == Tids(ws[..i]) + {ws[i].tid}
    ensures Staying(ws[..i + 1], gone) == Staying(ws[..i], gone) + [ws[i]]
    ensures Staying(ws[..i + 1], gone + {ws[i].tid}) == Staying(ws[..i], gone)
  {
    var p := ws[..i + 1];
    assert Init(p) == ws[..i] && p == ws[..i] + [ws[i]];
    TidsTake(ws, i);
    TidsTake(ws, i + 1);
    InitAndLast(p);
    StayingAppend(ws[..i], ws[i], gone);
    StayingAppend(ws[..i], ws[i], gone + {ws[i].tid});
    StayingMore(ws[..i], gone, ws[i].tid);
  }

  /** What a scan works on, with the place it has come to and what it has granted. */
  datatype Scanning = Scanning(waiters: seq<Waiter>, n: nat, wish: map<Tid, Wish>, events: Bits, suspended: set<Tid>,
                               got: map<Tid, Bits>)

  /** The scan has come to ws[i], which is now at waiters[n]. */
  ghost predicate Scanned(ws: seq<Waiter>, i: nat, p0: Scanning, p: Scanning) {
    && p.n <= |p.waiters| && i <= |ws| && p.waiters[p.n..] == ws[i..]
    && Tids(ws[..i]) <= p0.wish.Keys && (p.events, p.got) == Serve(ws[..i], p0.events, p0.wish, Receive)
    && p.waiters[..p.n] == Staying(ws[..i], p.got.Keys) && p.got.Keys <= Tids(ws[..i])
    && WishesScanned(p.wish, p0.wish, p.got) && p.suspended == p0.suspended - p.got.Keys
  }

  lemma ServeNext(ws: seq<Waiter>, i: nat, start: Bits, wish: map<Tid, Wish>)
    requires Unique(ws) && Tids(ws) <= wish.Keys && i < |ws|
    ensures Tids(ws[..i]) <= wish.Keys && Tids(ws[..i + 1]) <= wish.Keys && ws[i].tid in wish
    ensures var (s, got) := Serve(ws[..i], start, wish, Receive);
            var r := Receive(s, wish[ws[i].tid]);
            && Serve(ws[..i + 1], start, wish, Receive)
                == (Left(s, r), if r.Some? then got[ws[i].tid := r.value.1] else got)
  {
    TidsTake(ws, i);
    TidsTake(ws, i + 1);
    InitAndLast(ws[..i + 1]);
    assert Init(ws[..i + 1]) == ws[..i];
  }

  lemma ScanRejects(ws: seq<Waiter>, i: nat, p0: Scanning, p: Scanning)
    requires Unique(ws) && Tids(ws) <= p0.wish.Keys && p.n < |p.waiters| && i < |ws| && Scanned(ws, i, p0, p)
    requires ws[i].tid in p.wish && Receive(p.events, p.wish[ws[i].tid]).None?
    ensures Scanned(ws, i + 1, p0, p.(n := p.n + 1))
  {
    ScanStep(ws, i, p.got.Keys);
    RestOf(p.waiters, p.n, ws, i);
    ServeNext(ws, i, p0.events, p0.wish);
  }

  ghost predicate WishesScanned(wish: map<Tid, Wish>, wish0: map<Tid, Wish>, got: map<Tid, Bits>) {
    wish.Keys == wish0.Keys && forall t | t in wish :: if t in got then wish[t].bits == got[t] else wish[t] == wish0[t]
  }

  lemma WishServed(wish: map<Tid, Wish>, wish0: map<Tid, Wish>, got: map<Tid, Bits>, t: Tid, bits: Bits)
    requires WishesScanned(wish, wish0, got) && t in wish
    ensures WishesScanned(wish[t := Wish(bits, wish[t].opt)], wish0, got[t := bits])
    ensures got[t := bits].Keys == got.Keys + {t}
  {}

  /** The thread at waiters[n] is woken with the result of its receive. */
  ghost function Woken(p: Scanning, r: (Bits, Bits)): Scanning
    requires p.n < |p.waiters| && p.waiters[p.n].tid in p.wish
  {
    var t := p.waiters[p.n].tid;
    p.(waiters := p.waiters[..p.n] + p.waiters[p.n + 1..], wish := p.wish[t := Wish(r.1, p.wish[t].opt)],
       events := r.0, suspended := p.suspended - {t}, got := p.got[t := r.1])
  }

  lemma ScanWakes(ws: seq<Waiter>, i: nat, p0: Scanning, p: Scanning, r: (Bits, Bits))
    requires Unique(ws) && Tids(ws) <= p0.wish.Keys && p.n < |p.waiters| && i < |ws| && Scanned(ws, i, p0, p)
    requires p.waiters[p.n] == ws[i] && ws[i].tid in p.wish && Receive(p.events, p.wish[ws[i].tid]) == Some(r)
    ensures Scanned(ws, i + 1, p0, Woken(p, r))
  {
    ScanStep(ws, i, p.got.Keys);
    RestOf(p.waiters, p.n, ws, i);
    ServeNext(ws, i, p0.events, p0.wish);
    WishServed(p.wish, p0.wish, p.got, ws[i].tid, r.1);
  }

  lemma ScanAt(ws: seq<Waiter>, i: nat, p0: Scanning, p: Scanning)
    requires Tids(ws) <= p0.wish.Keys && p.n < |p.waiters| && Scanned(ws, i, p0, p)
    ensures i < |ws| && p.waiters[p.n] == ws[i] && ws[i].tid in p.wish
  {
    assert p.waiters[p.n] == p.waiters[p.n..][0];
    assert ws[i..][0] == ws[i] && ws[i] in ws;
  }

  datatype RecvResult = Received(bits: Bits) | Timeout | Blocked | Invalid

  class Event {
    var events: Bits             // set
    const flag: Flag
    var waiters: seq<Waiter>     // suspend_thread
    var wish: map<Tid, Wish>     // of the threads: what each waits for or, once woken, has got
    var suspended: set<Tid>      // the threads it put into the SUSPEND state

    ghost var granted: map<Tid, Bits>  // the woken threads that have not run yet, and what is due to them

    ghost predicate Valid()
      reads this
    {
      && Unique(waiters) && Tids(waiters) <= wish.Keys && Tids(waiters) <= suspended
      && (forall w | w in waiters :: !Satisfied(events, wish[w.tid]))
      && granted.Keys !! Tids(waiters) && granted.Keys <= wish.Keys
      && (forall t | t in granted :: wish[t].bits == granted[t])
    }

    /** rt_event_init. */
    constructor (flag: Flag)
      ensures Valid() && events == {} && waiters == [] && suspended == {} && granted == map[] && this.flag == flag
    {
      events, this.flag, waiters, wish, suspended, granted := {}, flag, [], map[], {}, map[];
    }

    /** rt_event_recv by thread `t`, up to the point where it returns or is suspended. */
    method Recv(t: Tid, prio: nat, want: Bits, opt: Flags, timeout: int) returns (ret: RecvResult)
      requires Valid() && t !in suspended && t !in granted
      requires want != {} ==> opt.all || opt.any
      modifies this
      ensures Valid() && granted == old(granted)
      ensures var r := Receive(old(events), Wish(want, opt));
              && (want == {} <==> ret.Invalid?)
              && (want != {} && r.Some? ==> ret == Received(r.value.1) && events == r.value.0)
              && (want != {} && r.None? ==> ret == if timeout == 0 then Timeout else Blocked)
              && (ret.Received? || events == old(events))
      ensures waiters == if ret.Blocked? then Suspended(old(waiters), Waiter(t, prio), flag) else old(waiters)
      ensures wish == if ret.Blocked? then old(wish)[t := Wish(want, opt)] else old(wish)
      ensures suspended == old(suspended) + if ret.Blocked? then {t} else {}
    {
      if want == {} {
        return Invalid;
      }
      if Satisfied(events, Wish(want, opt)) {
        ret := Received(events * want);
        ghost var before := events;
        if opt.clear {
          events := events - want;
        }
        StillRejected(before, Wish(want, opt), events);
      } else if timeout == 0 {
        ret := Timeout;
      } else {
        wish := wish[t := Wish(want, opt)];
        UniqueSuspended(waiters, Waiter(t, prio), flag);
        ghost var w := Waiter(t, prio);
        forall x | x in Suspended(waiters, w, flag) ensures x in waiters || x == w {
          SuspendedMembers(waiters, w, flag, x);
        }
        suspended := suspended + {t};
        waiters := ListSuspend(waiters, Waiter(t, prio), flag);
        ret := Blocked;
      }
    }

    lemma StillRejected(before: Bits, w: Wish, after: Bits)
      requires after == Left(before, Receive(before, w))
      requires Tids(waiters) <= wish.Keys && forall x | x in waiters :: !Satisfied(before, wish[x.tid])
      ensures forall x | x in waiters :: !Satisfied(after, wish[x.tid])
    {
      forall x | x in waiters ensures !Satisfied(after, wish[x.tid]) {
        RejectedStays(after, before, wish[x.tid]);
      }
    }

    /** The end of rt_event_recv, when a thread that was woken by a send runs again. */
    method Resumed(t: Tid) returns (recved: Bits)
      requires Valid() && t in granted
      modifies `granted
      ensures Valid() && granted == old(granted) - {t} && recved == old(granted)[t]
    {
      recved := wish[t].bits;
      granted := granted - {t};
    }

    /** One turn of the scan in rt_event_send. */
    method Wake(t: Tid) returns (ok: bool)
      requires t in wish
      modifies `events, `wish
      ensures var r := Receive(old(events), old(wish)[t]);
              && ok == r.Some? && events == Left(old(events), r)
              && wish == if ok then old(wish)[t := Wish(r.value.1, old(wish)[t].opt)] else old(wish)
    {
      ok := false;
      var w := wish[t];
      if w.opt.all {
        ok := w.bits * events == w.bits;
      } else if w.opt.any {
        if w.bits * events != {} {
          wish := wish[t := w.(bits := w.bits * events)];
          ok := true;
        }
      }
      if ok {
        if w.opt.clear {
          events := events - wish[t].bits;
        }
        assert old(events) - (w.bits * old(events)) == old(events) - w.bits;
        assert w.bits * old(events) == old(events) * w.bits;
        assert wish == old(wish)[t := Wish(old(events) * w.bits, w.opt)];
      }
    }

    /** The scan of the suspended threads in rt_event_send. */
    method Scan() returns (ghost got: map<Tid, Bits>)
      requires Unique(waiters) && Tids(waiters) <= wish.Keys && Tids(waiters) <= suspended
      modifies `events, `waiters, `wish, `suspended
      ensures (events, got) == Serve(old(waiters), old(events), old(wish), Receive)
      ensures waiters == Staying(old(waiters), got.Keys) && suspended == old(suspended) - got.Keys
      ensures WishesScanned(wish, old(wish), got)
    {
      ghost var ws, i := waiters, 0;
      got := map[];
      var n := 0;
      ghost var p0 := Scanning(waiters, n, wish, events, suspended, got);
      while n < |waiters|
        invariant Scanned(ws, i, p0, Scanning(waiters, n, wish, events, suspended, got))
        decreases |ws| - i
      {
        var t := waiters[n].tid;
        ghost var p := Scanning(waiters, n, wish, events, suspended, got);
        ScanAt(ws, i, p0, p);
        var ok := Wake(t);
        if ok {
          ghost var r := Receive(p.events, p.wish[t]).value;
          ScanWakes(ws, i, p0, p, r);
          got := got[t := r.1];
          waiters, suspended := waiters[..n] + waiters[n + 1..], suspended - {t};
        } else {
          ScanRejects(ws, i, p0, p);
          n := n + 1;
        }
        i := i + 1;
      }
      assert ws[..i] == ws && waiters[..n] == waiters;
    }

    /** rt_event_send. */
    method Send(s: Bits) returns (ok: bool)
      requires Valid()
      modifies this
      ensures Valid() && ok == (s != {})
      ensures !ok ==> events == old(events) && waiters == old(waiters) && wish == old(wish) && granted == old(granted)
      ensures !ok ==> suspended == old(suspended)
      ensures Tids(old(waiters)) <= old(wish).Keys && Unique(old(waiters))
      ensures var (left, got) := Serve(old(waiters), old(events) + s, old(wish), Receive);
              ok ==> (
                && events == left && waiters == Staying(old(waiters), got.Keys) && granted == old(granted) + got
                && suspended == old(suspended) - got.Keys && WishesScanned(wish, old(wish), got))
    {
      if s == {} {
        return false;
      }
      ghost var ws := waiters;
      events := events + s;
      ghost var start, wish0 := events, wish;
      ghost var got := Scan();
      granted := granted + got;
      StayingUnique(ws, got.Keys);
      ServeKeys(ws, start, wish0, Receive);
      NoneMissed(ws, start, wish0);
      ok := true;
    }

    /** Timing independence. A thread that waits as the k-th here, a send and, if it is woken, its return:
        the thread gets the bits that an immediate receive would get at its turn in the scan of the send,
        from the set that the threads before it left, and the threads behind it are served from the set
        that this receive would leave; if such a receive would fail, the thread goes on waiting. */
    method RecvBySend(s: Bits, k: nat) returns (woken: bool, recved: Bits)
      requires Valid() && s != {} && k < |waiters|
      modifies this
      ensures Valid() && Tids(old(waiters)[..k]) <= old(wish).Keys && Tids(old(waiters)[..k + 1]) <= old(wish).Keys
      ensures var ws, t := old(waiters), old(waiters)[k].tid;
              var before := Serve(ws[..k], old(events) + s, old(wish), Receive).0;
              var r := if t in old(wish) then Receive(before, old(wish)[t]) else None;
              && woken == r.Some? && (woken ==> recved == r.value.1)
              && (!woken ==> ws[k] in waiters && t in wish && wish[t] == old(wish)[t])
              && Serve(ws[..k + 1], old(events) + s, old(wish), Receive).0 == Left(before, r)
      ensures events == Serve(old(waiters), old(events) + s, old(wish), Receive).0
    {
      ghost var ws, start, wish0 := waiters, events + s, wish;
      var t := waiters[k].tid;
      ServedAtTurn(ws, k, start, wish0, Receive);
      var was := waiters[k];
      var ok := Send(s);
      ghost var got := Serve(ws, start, wish0, Receive).1;
      StayingMembers(ws, got.Keys, was);
      assert was in ws && t in Tids(ws);
      recved := {};
      woken := was !in waiters;
      if woken {
        recved := Resumed(t);
      }
    }

    /** rt_thread_timeout of a thread that is suspended here. */
    method Expire(t: Tid)
      requires Valid() && t in Tids(waiters)
      modifies `waiters, `suspended
      ensures Valid() && waiters == Remove(old(waiters), t) && suspended == old(suspended) - {t}
    {
      RemoveTids(waiters, t);
      forall w | w in Remove(waiters, t) ensures w in waiters {
        RemoveSubset(waiters, t, w);
      }
      waiters, suspended := Remove(waiters, t), suspended - {t};
    }

    /** rt_event_control with RT_IPC_CMD_RESET. */
    method Reset() returns (failed: seq<Tid>)
      requires Valid()
      modifies `waiters, `suspended, `events
      ensures Valid() && waiters == [] && events == {}
      ensures suspended == old(suspended) - Tids(old(waiters))
      ensures |failed| == |old(waiters)| && forall i | 0 <= i < |failed| :: failed[i] == old(waiters)[i].tid
    {
      waiters, suspended, failed := ResumeAll(waiters, suspended);
      events := {};
    }
  }
}
