/** What each timer call, and each step of a check, does to the rows, the starts and the records of the timers,
    and what cannot happen any more after a stop. */
module TimerCalls {
  import opened Lists
  import opened SkipList
  import opened Timers
  import opened Words

  /** The timer is in no row, and the others are where they were. */
  ghost predicate RowsWithout(rows: seq<seq<Id>>, rows': seq<seq<Id>>, t: Id) {
    |rows'| == |rows| && forall l | 0 <= l < |rows| :: rows'[l] == Without(rows[l], t) && t !in rows'[l]
  }

  /** The timer is in the rows that the insertion counter `nr` decides on: in the last one, and in row l if the
      bit pairs of the counter that stand for the rows below it are all zero; the others are where they were. */
  ghost predicate RowsWith(rows: seq<seq<Id>>, rows': seq<seq<Id>>, t: Id, nr: nat) {
    |rows'| == |rows| && forall l | 0 <= l < |rows| :: RowWith(rows[l], rows'[l], t, |rows| - 1 - l, nr)
  }

  ghost predicate RowWith(row: seq<Id>, row': seq<Id>, t: Id, below: nat, nr: nat) {
    Without(row', t) == Without(row, t) && (t in row' <==> Divides(Pow4(below), nr))
  }

  /** The starts, of which those of timer `t` that were pending came to this end. */
  function Ended(arms: seq<Arming>, t: Id, fate: Fate): seq<Arming> {
    seq(|arms|, k requires 0 <= k < |arms| =>
      if arms[k].id == t && arms[k].fate == Pending then arms[k].(fate := fate) else arms[k])
  }

  ghost predicate SameTime(c: Conf, c': Conf) {
    c'.s.tick == c.s.tick && c'.g.now == c.g.now && c'.g.slack == c.g.slack
  }

  /** A timer is linked by its pending start. */
  lemma PendingEnds(c: Conf, t: Id, fate: Fate)
    requires Inv(c)
    ensures Disarmed(c.g, Last(c.s.rows), t, fate).arms == Ended(c.g.arms, t, fate)
  {
    var last := Last(c.s.rows);
    if t in Members(last) {
      assert LinkedOk(c.g, c.s.mode, t);
    }
    forall k | 0 <= k < |c.g.arms|
        ensures Disarmed(c.g, last, t, fate).arms[k] == Ended(c.g.arms, t, fate)[k] {
      assert ArmOk(c.g, last, k);
    }
  }

  lemma Unlinked(c: Conf, t: Id)
    requires Inv(c)
    ensures RowsWithout(c.s.rows, UnlinkAll(c.s.rows, t), t)
  {
    var rows' := UnlinkAll(c.s.rows, t);
    RowsUnlinked(c.s, c.g, t, c.g);
    LayeredNested(rows', c.g.height);
    forall l | 0 <= l < |rows'| ensures t !in rows'[l] {
      assert t !in Members(rows'[l]);
    }
  }

  /** A stop refuses a timer that is not activated and leaves it as it is; any other leaves every row, its flag is
      cleared, the start that was pending is stopped, and nothing else changes. */
  lemma StopEnds(c: Conf, t: Id)
    requires Inv(c) && Enabled(c, Stop(t))
    ensures var c' := Step(c, Stop(t));
            if !c.s.timers[t].active then c' == c
            else
              && RowsWithout(c.s.rows, c'.s.rows, t) && c'.g.arms == Ended(c.g.arms, t, Stopped)
              && c'.s.timers == c.s.timers[t := c.s.timers[t].(active := false)] && c'.g.fires == c.g.fires
              && c'.s.timeout == c.s.timeout && c'.s.nr == c.s.nr && c'.s.mode == c.s.mode && SameTime(c, c')
  {
    Unlinked(c, t);
    PendingEnds(c, t, Stopped);
  }

  /** Its parts: the section unlinks the timer and ends its start, whatever the flag is by then; the flag follows. */
  lemma StopPartsEnd(c: Conf, t: Id)
    requires Inv(c) && t in c.s.timers && c.s.mode.Idle?
    ensures var c' := Step(c, StopBegin(t));
            && RowsWithout(c.s.rows, c'.s.rows, t) && c'.g.arms == Ended(c.g.arms, t, Stopped)
            && c'.s.timers == c.s.timers && c'.g.fires == c.g.fires && t in c'.s.stopping
            && c'.s.timeout == c.s.timeout && c'.s.nr == c.s.nr && c'.s.mode == c.s.mode && SameTime(c, c')
    ensures t in c.s.stopping ==>
              var c' := Step(c, StopEnd(t));
              && c'.s.timers == c.s.timers[t := c.s.timers[t].(active := false)]
              && c'.s.rows == c.s.rows && c'.g == c.g && SameTime(c, c')
  {
    Unlinked(c, t);
    PendingEnds(c, t, Stopped);
  }

  /** The first section of a start: like a stop, whatever the flag was. */
  lemma BeginEnds(c: Conf, t: Id)
    requires Inv(c) && Enabled(c, StartBegin(t))
    ensures var c' := Step(c, StartBegin(t));
            && RowsWithout(c.s.rows, c'.s.rows, t) && c'.g.arms == Ended(c.g.arms, t, Stopped)
            && c'.s.timers == c.s.timers[t := c.s.timers[t].(active := false)] && c'.g.fires == c.g.fires
            && c'.s.timeout == c.s.timeout && c'.s.nr == c.s.nr && c'.s.mode == c.s.mode && SameTime(c, c')
  {
    Unlinked(c, t);
    PendingEnds(c, t, Stopped);
  }

  /** The timeout tick is the 32-bit residue of the time plus the delay, and nothing else changes. */
  lemma ReadComputes(c: Conf, t: Id)
    requires Inv(c) && Enabled(c, StartRead(t))
    ensures var c', due := Step(c, StartRead(t)), c.g.now + c.s.timers[t].init;
            && c'.g.due == c.g.due[t := due] && c'.g.read == c.g.read[t := c.g.now]
            && c'.s == c.s.(timeout := c.s.timeout[t := due % U32])
            && c'.g.arms == c.g.arms && c'.g.fires == c.g.fires && SameTime(c, c')
  {
    TickOfDue(c.s.tick, c.g.now, c.s.timers[t].init);
  }

  lemma {:induction false} InsertedOnce(q: seq<Id>, n: nat, t: Id)
    requires n <= |q| && t !in q
    ensures Without(InsertAt(q, n, t), t) == q && t in InsertAt(q, n, t)
    decreases n
  {
    assert InsertAt(q, n, t)[n] == t;
    if n == 0 {
      assert InsertAt(q, 0, t)[1..] == q;
    } else {
      InsertedOnce(q[1..], n - 1, t);
      InsertAtNext(q, n - 1, t);
      assert ([q[0]] + InsertAt(q[1..], n - 1, t))[1..] == InsertAt(q[1..], n - 1, t);
    }
  }

  /** Insertion of a timer that is in no row. */
  lemma InsertedWith(rows: seq<seq<Id>>, rows': seq<seq<Id>>, places: seq<nat>, t: Id, nr: nat)
    requires rows != [] && |places| == |rows| && forall l | 0 <= l < |rows| :: places[l] <= |rows[l]| && t !in rows[l]
    requires rows' == InsertAll(rows, places, t, 1 + ZeroPairs(nr, |rows| - 1))
    ensures RowsWith(rows, rows', t, nr)
  {
    forall l | 0 <= l < |rows| ensures RowWith(rows[l], rows'[l], t, |rows| - 1 - l, nr) {
      InsertedOnce(rows[l], places[l], t);
      WithoutNone(rows[l], t);
      ZeroPairsCount(nr, |rows| - 1, |rows| - 1 - l);
    }
  }

  lemma InNoRow(c: Conf, t: Id)
    requires Rows(c.s, c.g) && t !in Members(Last(c.s.rows))
    ensures forall l | 0 <= l < |c.s.rows| :: t !in c.s.rows[l]
  {
    LayeredNested(c.s.rows, c.g.height);
    forall l | 0 <= l < |c.s.rows| ensures t !in c.s.rows[l] {
      assert t !in Members(c.s.rows[l]);
    }
  }

  /** It links the timer, which is in no row, in those that the counter decides on. */
  lemma EndLinks(c: Conf, t: Id)
    requires Readied(c, t) && t !in Members(Last(c.s.rows))
    ensures RowsWith(c.s.rows, EndStep(c, t).s.rows, t, EndStep(c, t).s.nr)
    ensures EndStep(c, t).s.nr == NextNr(c.s)
  {
    var c' := EndStep(c, t);
    InNoRow(c, t);
    var places := EndPlaces(c, t);
    InsertedWith(c.s.rows, c'.s.rows, places, t, c'.s.nr);
  }

  lemma EndPlaces(c: Conf, t: Id) returns (places: seq<nat>)
    requires Readied(c, t)
    ensures |places| == |c.s.rows| && c.s.rows != [] && forall l | 0 <= l < |c.s.rows| :: places[l] <= |c.s.rows[l]|
    ensures var c' := EndStep(c, t);
            && c'.s.rows == InsertAll(c.s.rows, places, t, 1 + ZeroPairs(c'.s.nr, |c.s.rows| - 1))
            && c'.s.nr == NextNr(c.s)
  {
    RowsTimed(c.s, c.g, c.s.timeout);
    places := Search(c.s.rows, c.s.timeout, c.s.timeout[t], 0, 0);
  }

  /** The last section of a start: a start that is pending begins, for the deadline computed last; the flag is set,
      and the insertion counter goes up. */
  lemma EndBegins(c: Conf, t: Id)
    requires Readied(c, t)
    ensures var c' := EndStep(c, t);
            && c'.g.arms == c.g.arms + [Arming(t, c.g.read[t], c.g.due[t], c.g.now, Pending)]
            && c'.g.fires == c.g.fires && c'.s.timers == c.s.timers[t := c.s.timers[t].(active := true)]
            && c'.s.nr == (c.s.nr + 1) % U32
            && c'.s.timeout == c.s.timeout && c'.s.mode == c.s.mode && SameTime(c, c')
  {}

  /** The start that was pending is stopped, and a start that is pending begins, for a deadline one delay from now;
      the flag is set, and the insertion counter goes up. */
  ghost predicate Rearmed(c: Conf, c': Conf, t: Id)
    requires t in c.s.timers
  {
    var due := c.g.now + c.s.timers[t].init;
    && c'.g.arms == Ended(c.g.arms, t, Stopped) + [Arming(t, c.g.now, due, c.g.now, Pending)]
    && c'.g.fires == c.g.fires && c'.s.timers == c.s.timers[t := c.s.timers[t].(active := true)]
    && c'.s.timeout == c.s.timeout[t := due % U32] && c'.s.nr == (c.s.nr + 1) % U32 && SameTime(c, c')
  }

  /** A whole start, by a thread, in a callback or at the end of a period; the timer is linked in the rows that the
      counter decides on. */
  ghost predicate Started(c: Conf, c': Conf, t: Id)
    requires t in c.s.timers
  {
    RowsWith(c.s.rows, c'.s.rows, t, c'.s.nr) && Rearmed(c, c', t)
  }

  lemma RowsWithFrom(rows: seq<seq<Id>>, rows1: seq<seq<Id>>, rows': seq<seq<Id>>, t: Id, nr: nat)
    requires RowsWithout(rows, rows1, t) && RowsWith(rows1, rows', t, nr)
    ensures RowsWith(rows, rows', t, nr)
  {
    forall l | 0 <= l < |rows| ensures RowWith(rows[l], rows'[l], t, |rows| - 1 - l, nr) {
      assert RowWith(rows1[l], rows'[l], t, |rows| - 1 - l, nr);
      WithoutNone(rows1[l], t);
    }
  }

  lemma StartRows(c: Conf, t: Id)
    requires Inv(c) && t in c.s.timers
    ensures RowsWith(c.s.rows, StartStep(c, t).s.rows, t, StartStep(c, t).s.nr)
  {
    Unlinked(c, t);
    RowsStarted(c, t);
  }

  lemma RowsStarted(c: Conf, t: Id)
    requires Rows(c.s, c.g) && OnTime(c.s, c.g) && t in c.s.timers
    requires RowsWithout(c.s.rows, BeginStep(c, t).s.rows, t)
    ensures RowsWith(c.s.rows, StartStep(c, t).s.rows, t, StartStep(c, t).s.nr)
  {
    var c1 := BeginStep(c, t);
    StartParts(c, t);
    BeginRows(c, t);
    var c2, c' := ReadStep(c1, t), StartStep(c, t);
    EndLinks(c2, t);
    RowsWithFrom(c.s.rows, c1.s.rows, c'.s.rows, t, c'.s.nr);
  }

  lemma StartTimeout(c: Conf, t: Id)
    requires Rows(c.s, c.g) && OnTime(c.s, c.g) && t in c.s.timers
    ensures StartStep(c, t).s.timeout == c.s.timeout[t := (c.g.now + c.s.timers[t].init) % U32]
    ensures StartStep(c, t).s.tick == c.s.tick && StartStep(c, t).g.fires == c.g.fires
    ensures StartStep(c, t).s.nr == (c.s.nr + 1) % U32
  {
    StartParts(c, t);
    var c2 := ReadStep(BeginStep(c, t), t);
    ReadTimeout(c, t, c2);
    EndBegins(c2, t);
    assert StartStep(c, t) == EndStep(c2, t);
  }

  lemma ReadTimeout(c: Conf, t: Id, c2: Conf)
    requires Rows(c.s, c.g) && OnTime(c.s, c.g) && t in c.s.timers && t in BeginStep(c, t).s.timers
    requires c2 == ReadStep(BeginStep(c, t), t)
    ensures c2.s.timeout == c.s.timeout[t := (c.g.now + c.s.timers[t].init) % U32]
    ensures c2.s.tick == c.s.tick && c2.g.fires == c.g.fires && c2.s.nr == c.s.nr
  {
    TickOfDue(c.s.tick, c.g.now, c.s.timers[t].init);
  }

  lemma StartRearms(c: Conf, t: Id)
    requires Inv(c) && t in c.s.timers
    ensures Rearmed(c, StartStep(c, t), t) && StartStep(c, t).s.mode == c.s.mode
  {
    StartTimeout(c, t);
    StartRecorded(c, t);
    StartRecord(c, t);
  }

  lemma WholeStarted(c: Conf, t: Id)
    requires Inv(c) && t in c.s.timers
    ensures Started(c, StartStep(c, t), t) && StartStep(c, t).s.mode == c.s.mode
  {
    StartRows(c, t);
    StartRearms(c, t);
  }

  lemma StartLinks(c: Conf, t: Id)
    requires Inv(c) && Enabled(c, Start(t))
    ensures Started(c, Step(c, Start(t)), t) && Step(c, Start(t)).s.mode == c.s.mode
  {
    WholeStarted(c, t);
  }

  lemma StartRecorded(c: Conf, t: Id)
    requires Inv(c) && t in c.s.timers
    ensures var arms := Ended(c.g.arms, t, Stopped);
            StartStep(c, t).g.arms == arms + [Arming(t, c.g.now, c.g.now + c.s.timers[t].init, c.g.now, Pending)]
  {
    StartArms(c, t);
    PendingEnds(c, t, Stopped);
  }

  /** The timer that fires is the first one of the last row, and due; it leaves every row, and its pending start is
      the next one that fired, now. */
  lemma FireTakes(c: Conf)
    requires Inv(c) && Enabled(c, Fire)
    ensures c.s.rows != [] && Last(c.s.rows) != []
    ensures var c', t := Step(c, Fire), Last(c.s.rows)[0];
            && t in c.g.due && c.g.due[t] <= c.g.now && c'.s.mode == Firing(t)
            && RowsWithout(c.s.rows, c'.s.rows, t) && c'.g.arms == Ended(c.g.arms, t, Fired(c.g.now))
            && c'.g.fires != [] && c'.g.fires[..|c'.g.fires| - 1] == c.g.fires
            && Last(c'.g.fires) < |c.g.arms| && c.g.arms[Last(c'.g.fires)].id == t
            && c.g.arms[Last(c'.g.fires)].fate == Pending
            && c'.s.timers == c.s.timers && c'.s.timeout == c.s.timeout && c'.s.nr == c.s.nr && SameTime(c, c')
  {
    HeadDue(c);
    Unlinked(c, Last(c.s.rows)[0]);
    PendingEnds(c, Last(c.s.rows)[0], Fired(c.g.now));
  }

  /** After the callback a periodic timer that is still activated starts again, one period from now; any other keeps
      its place, if its callback started it, with its flag cleared. */
  lemma PeriodRestarts(c: Conf)
    requires Inv(c) && Enabled(c, FireEnd)
    ensures var c', t := Step(c, FireEnd), c.s.mode.id;
            && c'.s.mode == Checking
            && (if c.s.timers[t].periodic && c.s.timers[t].active then Started(c, c', t)
                else c'.s == c.s.(mode := Checking, timers := c.s.timers[t := c.s.timers[t].(active := false)])
                     && c'.g == c.g)
  {
    var t := c.s.mode.id;
    var r := c.s.timers[t];
    var idle := Conf(c.s.(timers := c.s.timers[t := r.(active := false)]), c.g);
    IdleKeeps(c, t);
    if r.periodic && r.active {
      WholeStarted(idle, t);
      StartedFrom(c, idle, StartStep(idle, t), FireEndStep(c), t);
    }
  }

  lemma StartedFrom(c: Conf, idle: Conf, x: Conf, x': Conf, t: Id)
    requires t in c.s.timers && idle == Conf(c.s.(timers := c.s.timers[t := c.s.timers[t].(active := false)]), c.g)
    requires Started(idle, x, t) && x' == Conf(x.s.(mode := x'.s.mode), x.g)
    ensures Started(c, x', t)
  {}

  /** A new timer is not activated; its delay and its mode are what the last call set. Nothing else changes. */
  lemma RecordsSet(c: Conf, e: Event)
    requires Inv(c) && Enabled(c, e) && (e.Create? || e.SetTime? || e.SetMode?)
    ensures var c', t := Step(c, e), e.id;
            && t in c'.s.timers && c'.s.timers == c.s.timers[t := c'.s.timers[t]] && c'.g == c.g
            && c'.s.rows == c.s.rows && c'.s.mode == c.s.mode && SameTime(c, c')
            && match e
               case Create(_, init, periodic) => c'.s.timers[t] == Timer(init, periodic, false)
               case SetTime(_, init) =>
                 && c'.s.timers[t].init == init && c'.s.timeout == c.s.timeout
                 && c'.s.timers[t].periodic == c.s.timers[t].periodic && c'.s.timers[t].active == c.s.timers[t].active
               case SetMode(_, periodic) =>
                 && c'.s.timers[t].periodic == periodic && c'.s.timeout == c.s.timeout
                 && c'.s.timers[t].init == c.s.timers[t].init && c'.s.timers[t].active == c.s.timers[t].active
               case _ => true
  {}

  /** A tick passes and its check begins; the check ends when no timer is due. Nothing else changes. */
  lemma TicksPass(c: Conf)
    requires Inv(c)
    ensures Enabled(c, Tick) ==>
              var c' := Step(c, Tick);
              && c'.g == c.g.(now := c.g.now + 1) && c'.s.tick == (c.g.now + 1) % U32
              && c'.s == c.s.(mode := Checking, tick := c'.s.tick)
    ensures Enabled(c, CheckEnd) ==>
              Step(c, CheckEnd) == Conf(c.s.(mode := Idle), c.g) && DueTimers(c) == {}
  {
    TickOfDue(c.s.tick, c.g.now, 1);
    if Enabled(c, CheckEnd) {
      CheckEnds(c);
    }
  }

  // What has come to an end stays so.

  lemma EndedKept(c: Conf, k: nat)
    requires Inv(c) && Enabled(c, FireEnd) && k < |c.g.arms| && c.g.arms[k].fate != Pending
    ensures k < |FireEndStep(c).g.arms| && FireEndStep(c).g.arms[k] == c.g.arms[k]
  {
    PeriodRestarts(c);
  }

  lemma FateKept(c: Conf, e: Event, k: nat)
    requires Inv(c) && Enabled(c, e) && Safe(c, e) && k < |c.g.arms| && c.g.arms[k].fate != Pending
    ensures k < |Step(c, e).g.arms| && Step(c, e).g.arms[k] == c.g.arms[k]
  {
    match e
    case Start(t) => StartRearms(c, t);
    case StartBegin(t) => BeginEnds(c, t);
    case StartEnd(t) => EndBegins(c, t);
    case Stop(t) => StopEnds(c, t);
    case StopBegin(t) => StopPartsEnd(c, t);
    case Fire => FireTakes(c);
    case FireEnd => EndedKept(c, k);
    case _ =>
  }

  /** A start that fired or was stopped stays so, in every run. */
  lemma {:induction false} FateIsFinal(c: Conf, es: seq<Event>, k: nat)
    requires Inv(c) && Run(c, es) && k < |c.g.arms| && c.g.arms[k].fate != Pending
    ensures k < |After(c, es).g.arms| && After(c, es).g.arms[k] == c.g.arms[k]
    decreases |es|
  {
    if es != [] {
      FateKept(c, es[0], k);
      StepKeeps(c, es[0]);
      FateIsFinal(Step(c, es[0]), es[1..], k);
    }
  }

  /** No start of a timer made before it was stopped fires after that: whatever is called later, and whenever, it
      has fired in the end if and only if it had before the stop. */
  lemma StoppedForGood(c: Conf, t: Id, es: seq<Event>, k: nat)
    requires Inv(c) && Enabled(c, Stop(t)) && c.s.timers[t].active
    requires Run(Step(c, Stop(t)), es) && k < |c.g.arms| && c.g.arms[k].id == t
    ensures var g := After(Step(c, Stop(t)), es).g;
            && k < |g.arms| && (g.arms[k].fate.Fired? <==> c.g.arms[k].fate.Fired?)
            && (k in g.fires <==> k in c.g.fires)
  {
    var c1 := Step(c, Stop(t));
    StepKeeps(c, Stop(t));
    StopEnds(c, t);
    FateIsFinal(c1, es, k);
    RunKeeps(c1, es);
    FiredInLog(c, k);
    FiredInLog(After(c1, es), k);
  }

  lemma FiredInLog(c: Conf, k: nat)
    requires Inv(c) && k < |c.g.arms|
    ensures c.g.arms[k].fate.Fired? <==> k in c.g.fires
  {
    assert ArmOk(c.g, Last(c.s.rows), k);
  }
}
