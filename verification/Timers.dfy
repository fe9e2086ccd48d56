/** Hard timers (rt_timer_init, rt_timer_start, rt_timer_stop, rt_timer_control, rt_timer_check) over the
    wrapping tick of the kernel, against a clock that does not wrap. A start unlinks the timer, reads the
    tick and links the timer, with interrupts enabled in between, so that ticks, checks and calls of other
    threads may come between its parts. A tick is followed at once by a check; in a check a callback is any
    sequence of calls to the timer functions. */
module Timers {
  import opened Lists
  import opened SkipList
  import opened Words

  datatype Timer = Timer(init: nat, periodic: bool, active: bool)

  /** Outside a check; in one, between two timers; or in the callback of a timer. */
  datatype Mode = Idle | Checking | Firing(id: Id)

  /** `stopping` are the stops under way that have unlinked their timer, any number of them for one timer. */
  datatype State = State(rows: seq<seq<Id>>, timers: map<Id, Timer>, timeout: map<Id, nat>, tick: nat, nr: nat,
                         mode: Mode, stopping: multiset<Id>)

  datatype Fate = Pending | Fired(at: nat) | Stopped

  /** One start of a timer: when the tick was read, the deadline computed from it, when the timer was linked,
      and what became of it. */
  datatype Arming = Arming(id: Id, start: nat, due: nat, link: nat, fate: Fate)

  /** The time; how many ticks late a timer may be linked; of the timers the last deadline and when it was
      computed, the start that linked them and their height; all starts, and those that fired in order. */
  datatype Ledger = Ledger(now: nat, slack: nat, read: map<Id, nat>, due: map<Id, nat>, stamp: map<Id, nat>,
                           height: map<Id, nat>, arms: seq<Arming>, fires: seq<nat>)
  datatype Conf = Conf(s: State, g: Ledger)

  /** The tick at which a start is to fire: its deadline, or the tick after its timer was linked if that is
      later. */
  function Expected(a: Arming): nat {
    if a.due > a.link then a.due else a.link + 1
  }

  /** Start k is to fire before start m: at an earlier tick, or at the same one with an earlier deadline, or
      with the same deadline and linked before. */
  ghost predicate Earlier(arms: seq<Arming>, k: nat, m: nat) {
    && k < |arms| && m < |arms|
    && (Expected(arms[k]) < Expected(arms[m])
        || (Expected(arms[k]) == Expected(arms[m])
            && (arms[k].due < arms[m].due || (arms[k].due == arms[m].due && k < m))))
  }

  // The invariant.

  ghost predicate Rows(s: State, g: Ledger) {
    && Layered(s.rows, g.height) && Sorted(Last(s.rows), g.due, g.stamp) && Residues(Last(s.rows), g.due, s.timeout)
    && Members(Last(s.rows)) <= s.timers.Keys && s.timers.Keys == s.timeout.Keys
  }

  ghost predicate OnTime(s: State, g: Ledger) {
    s.tick == g.now % U32 && g.slack + 1 < HALF
  }

  /** A linked timer: its start is pending, and will not be later than expected. */
  ghost predicate LinkedOk(g: Ledger, mode: Mode, t: Id) {
    && t in g.stamp && t in g.due && g.stamp[t] < |g.arms|
    && var a := g.arms[g.stamp[t]];
       && a.id == t && a.due == g.due[t] && a.fate == Pending
       && a.start <= a.link <= g.now && a.start <= a.due && a.due + g.slack < g.now + HALF && a.link <= a.due + g.slack
       && (if mode.Idle? then g.now < Expected(a) else g.now <= Expected(a) && (a.due <= g.now ==> a.link < g.now))
  }

  /** A start is pending while its timer is linked by it, or was stopped, or fired at the expected tick. */
  ghost predicate ArmOk(g: Ledger, last: seq<Id>, k: int) {
    0 <= k < |g.arms| ==>
      match g.arms[k].fate
      case Pending => g.arms[k].id in Members(last) && g.arms[k].id in g.stamp && g.stamp[g.arms[k].id] == k
      case Fired(x) => x == Expected(g.arms[k]) <= g.now && g.arms[k].due <= g.now && k in g.fires
      case Stopped => true
  }

  ghost predicate Arms(s: State, g: Ledger) {
    && s.rows != []
    && (forall t {:trigger LinkedOk(g, s.mode, t)} | t in Members(Last(s.rows)) :: LinkedOk(g, s.mode, t))
    && (forall k {:trigger ArmOk(g, Last(s.rows), k)} :: ArmOk(g, Last(s.rows), k))
  }

  ghost predicate FiredFirst(arms: seq<Arming>, fires: seq<nat>, i: int, m: nat) {
    0 <= i < |fires| ==> Earlier(arms, fires[i], m) && arms[fires[i]].fate.Fired?
  }

  /** The starts that fired did so in the order of their deadlines, ties in the order of the starts, and
      all before those still pending. */
  ghost predicate Fires(arms: seq<Arming>, fires: seq<nat>) {
    && (forall i, j {:trigger FiredFirst(arms, fires, i, fires[j])} | 0 <= i < j < |fires| ::
          FiredFirst(arms, fires, i, fires[j]))
    && (forall i, m {:trigger FiredFirst(arms, fires, i, m)}
          | 0 <= i < |fires| && 0 <= m < |arms| && arms[m].fate == Pending :: FiredFirst(arms, fires, i, m))
    && (forall i | 0 <= i < |fires| :: fires[i] < |arms| && arms[fires[i]].fate.Fired?)
  }

  ghost predicate Flags(s: State) {
    && s.rows != []
    && forall t | t in s.timers && s.timers[t].active ::
         t in Members(Last(s.rows)) || s.mode == Firing(t) || t in s.stopping
  }

  /** The timeout tick of a timer is that of the deadline that was computed for it last. */
  ghost predicate ReadOk(s: State, g: Ledger, t: Id) {
    && t in s.timers && t in g.read && t in g.due && t in s.timeout && s.timeout[t] == g.due[t] % U32
    && g.read[t] <= g.now && g.read[t] <= g.due[t] && g.due[t] + g.slack < g.read[t] + HALF
  }

  ghost predicate Reads(s: State, g: Ledger) {
    forall t {:trigger ReadOk(s, g, t)} | t in g.read :: ReadOk(s, g, t)
  }

  ghost predicate Inv(c: Conf) {
    && Rows(c.s, c.g) && OnTime(c.s, c.g) && Arms(c.s, c.g) && Fires(c.g.arms, c.g.fires) && Flags(c.s)
    && Reads(c.s, c.g)
  }

  // Linking and unlinking.

  function Removed(s: State, t: Id): State {
    s.(rows := UnlinkAll(s.rows, t))
  }

  ghost function Disarmed(g: Ledger, last: seq<Id>, t: Id, fate: Fate): Ledger {
    if t in Members(last) && t in g.stamp && g.stamp[t] < |g.arms|
    then g.(arms := g.arms[g.stamp[t] := g.arms[g.stamp[t]].(fate := fate)])
    else g
  }

  lemma RowsUnlinked(s: State, g: Ledger, t: Id, g': Ledger)
    requires Rows(s, g) && g'.due == g.due && g'.stamp == g.stamp && g'.height == g.height
    ensures Rows(Removed(s, t), g') && Last(UnlinkAll(s.rows, t)) == Without(Last(s.rows), t)
    ensures Members(Last(UnlinkAll(s.rows, t))) == Members(Last(s.rows)) - {t}
  {
    var last := Last(s.rows);
    SortedNoDuplicates(last, g.due, g.stamp);
    WithoutMembers(last, t);
    LayeredUnlink(s.rows, g.height, t);
    SortedUnlink(last, g.due, g.stamp, t);
    forall x | x in Without(last, t) ensures x in last {
      assert x in Members(Without(last, t));
    }
  }

  /** To stop a timer unlinks it and ends its start. */
  lemma DisarmKeeps(c: Conf, t: Id)
    requires Inv(c)
    ensures var last := Last(c.s.rows);
            var c' := Conf(Removed(c.s, t), Disarmed(c.g, last, t, Stopped));
            && Rows(c'.s, c'.g) && Arms(c'.s, c'.g) && Fires(c'.g.arms, c'.g.fires)
            && Members(Last(c'.s.rows)) == Members(last) - {t}
  {
    var last := Last(c.s.rows);
    var g' := Disarmed(c.g, last, t, Stopped);
    var s' := Removed(c.s, t);
    RowsUnlinked(c.s, c.g, t, g');
    var last' := Last(s'.rows);
    if t in Members(last) {
      assert LinkedOk(c.g, c.s.mode, t);
    }
    FiresDisarmed(c.g, last, t);
    forall x | x in Members(last') ensures LinkedOk(g', s'.mode, x) {
      assert LinkedOk(c.g, c.s.mode, x);
    }
    forall k ensures ArmOk(g', last', k) {
      assert ArmOk(c.g, last, k);
    }
  }

  lemma FiresDisarmed(g: Ledger, last: seq<Id>, t: Id)
    requires Fires(g.arms, g.fires)
    requires t in Members(last) ==> t in g.stamp && g.stamp[t] < |g.arms| && g.arms[g.stamp[t]].fate == Pending
    ensures Fires(Disarmed(g, last, t, Stopped).arms, g.fires)
  {
    var arms' := Disarmed(g, last, t, Stopped).arms;
    forall i, j | 0 <= i < j < |g.fires| ensures FiredFirst(arms', g.fires, i, g.fires[j]) {
      assert FiredFirst(g.arms, g.fires, i, g.fires[j]);
    }
    forall i, m | 0 <= i < |g.fires| && 0 <= m < |arms'| && arms'[m].fate == Pending
        ensures FiredFirst(arms', g.fires, i, m) {
      assert FiredFirst(g.arms, g.fires, i, m);
    }
  }

  /** The 32-bit timeout tick of a start now. */
  function NewTimeout(s: State, t: Id): nat
    requires t in s.timers
  {
    (s.tick + s.timers[t].init) % U32
  }

  function NextNr(s: State): nat {
    (s.nr + 1) % U32
  }

  function NewHeight(s: State): nat
    requires s.rows != []
  {
    1 + ZeroPairs(NextNr(s), |s.rows| - 1)
  }

  /** What the last section of rt_timer_start does with the timer, which is not linked: it is linked for its
      timeout tick in `h` rows. */
  function LinkRows(s: State, t: Id, h: nat): State
    requires s.rows != [] && t in s.timers && t in s.timeout && Timed(s.rows, s.timeout)
  {
    s.(rows := InsertAll(s.rows, Search(s.rows, s.timeout, s.timeout[t], 0, 0), t, h), nr := NextNr(s),
       timers := s.timers[t := s.timers[t].(active := true)])
  }

  function ArmStep(g: Ledger, t: Id, start: nat, due: nat, h: nat): Ledger {
    g.(due := g.due[t := due], stamp := g.stamp[t := |g.arms|], height := g.height[t := h],
       arms := g.arms + [Arming(t, start, due, g.now, Pending)])
  }

  ghost function Armed(c: Conf, t: Id, start: nat, d: nat, h: nat): (c': Conf)
    requires Rows(c.s, c.g) && t in c.s.timers
    ensures c'.s.rows != []
  {
    RowsTimed(c.s, c.g, c.s.timeout[t := d % U32]);
    Conf(LinkRows(c.s.(timeout := c.s.timeout[t := d % U32]), t, h), ArmStep(c.g, t, start, d, h))
  }

  lemma RowsTimed(s: State, g: Ledger, timeout: map<Id, nat>)
    requires Rows(s, g) && s.timers.Keys <= timeout.Keys
    ensures Timed(s.rows, timeout)
  {
    LayeredNested(s.rows, g.height);
    forall m, t | 0 <= m < |s.rows| && t in s.rows[m] ensures t in timeout {
      assert t in Members(s.rows[m]);
    }
  }

  /** A start with this delay is in order: the assertion of the source, so much the stricter as timers may be
      linked late, and in a callback no delay of 0, which would let the check go on for ever. */
  ghost predicate DelayOk(g: Ledger, mode: Mode, init: nat) {
    init + g.slack < HALF && (mode.Idle? || init >= 1)
  }

  /** A timer may be linked now for the deadline `d`: not too late. */
  ghost predicate DueOk(g: Ledger, mode: Mode, d: nat) {
    g.now <= d + g.slack && d + g.slack < g.now + HALF && (mode.Idle? || d > g.now)
  }

  lemma WindowOk(s: State, g: Ledger, d: nat)
    requires Rows(s, g) && Arms(s, g) && DueOk(g, s.mode, d)
    ensures Window(Last(s.rows), g.due, d)
  {
    forall x | x in Last(s.rows) ensures x in g.due && -HALF <= g.due[x] - d < HALF {
      assert x in Members(Last(s.rows));
      assert LinkedOk(g, s.mode, x);
    }
  }

  lemma RowsSearchable(s: State, g: Ledger, t: Id, d: nat)
    requires Rows(s, g) && t !in Members(Last(s.rows)) && Window(Last(s.rows), g.due, d)
    ensures RowsOk(s.rows, g.due[t := d], g.stamp, s.timeout[t := d % U32], d) && Nested(s.rows)
    ensures forall l | 0 <= l < |s.rows| :: Members(s.rows[l]) <= g.due.Keys
  {
    var last, due, timeout := Last(s.rows), g.due[t := d], s.timeout[t := d % U32];
    LayeredNested(s.rows, g.height);
    SortedNoDuplicates(last, g.due, g.stamp);
    SortedFrame(last, g.due, g.stamp, due, g.stamp);
    forall l | 0 <= l < |s.rows| ensures RowOk(s.rows[l], due, g.stamp, timeout, d) {
      assert RowIs(s.rows, g.height, l);
      AboveSorted(last, g.height, |s.rows| - l, due, g.stamp);
      forall x | x in s.rows[l] ensures x in last && x != t {
        assert x in Members(s.rows[l]) && x in Members(last);
      }
    }
  }

  /** The places the search finds are the upper bounds in the rows. */
  lemma PlacesAreBounds(s: State, g: Ledger, t: Id, d: nat, n: nat, places: seq<nat>)
    requires Rows(s, g) && t !in Members(Last(s.rows)) && Window(Last(s.rows), g.due, d) && n == d % U32
    requires Timed(s.rows, s.timeout[t := n]) && places == Search(s.rows, s.timeout[t := n], n, 0, 0)
    ensures forall l | 0 <= l < |s.rows| ::
              Members(s.rows[l]) <= g.due[t := d].Keys && places[l] == UpperBound(s.rows[l], g.due[t := d], d)
  {
    RowsSearchable(s, g, t, d);
    var due, timeout := g.due[t := d], s.timeout[t := n];
    forall l | 0 <= l < |s.rows| ensures Members(s.rows[l]) <= due.Keys && places[l] == UpperBound(s.rows[l], due, d) {
      assert RowOk(s.rows[0], due, g.stamp, timeout, d) && RowOk(s.rows[l], due, g.stamp, timeout, d);
      SearchIsLinear(s.rows, due, g.stamp, timeout, d, 0, 0, l);
    }
  }

  lemma TickOfDue(tick: nat, now: nat, init: nat)
    requires tick == now % U32
    ensures (tick + init) % U32 == (now + init) % U32
  {
    assert now + init == now / U32 * U32 + (tick + init);
  }

  lemma Inserted(s: State, g: Ledger, t: Id, d: nat, k: nat, h: nat, places: seq<nat>)
    requires Rows(s, g) && t !in Members(Last(s.rows)) && 1 <= h && |places| == |s.rows|
    requires forall x | x in Members(Last(s.rows)) :: x in g.stamp && g.stamp[x] < k
    requires forall l | 0 <= l < |s.rows| ::
               && Members(s.rows[l]) <= g.due[t := d].Keys
               && places[l] == UpperBound(s.rows[l], g.due[t := d], d) <= |s.rows[l]|
    ensures var rows' := InsertAll(s.rows, places, t, h);
            && Layered(rows', g.height[t := h]) && Sorted(Last(rows'), g.due[t := d], g.stamp[t := k])
            && Members(Last(rows')) == Members(Last(s.rows)) + {t}
  {
    var last, due, stamp := Last(s.rows), g.due[t := d], g.stamp[t := k];
    SortedNoDuplicates(last, g.due, g.stamp);
    SortedFrame(last, g.due, g.stamp, due, stamp);
    LayeredInsert(s.rows, g.height, due, stamp, t, h, places);
    SortedInsert(last, due, stamp, t);
  }

  lemma ResiduesArmed(last: seq<Id>, last': seq<Id>, due: map<Id, nat>, timeout: map<Id, nat>, t: Id, d: nat, n: nat)
    requires Residues(last, due, timeout) && Members(last') == Members(last) + {t} && n == d % U32
    ensures Residues(last', due[t := d], timeout[t := n])
  {
    forall x | x in last' ensures x == t || x in last {
      assert x in Members(last');
    }
  }

  lemma SameKeys<T>(m: map<Id, T>, t: Id, x: T)
    requires t in m
    ensures m[t := x].Keys == m.Keys
  {}

  lemma OrderLinked(s: State, g: Ledger, t: Id, start: nat, d: nat, n: nat, h: nat)
    requires Rows(s, g) && t in s.timers && t !in Members(Last(s.rows)) && 1 <= h
    requires Window(Last(s.rows), g.due, d) && n == d % U32 && Timed(s.rows, s.timeout[t := n])
    requires forall x | x in Members(Last(s.rows)) :: x in g.stamp && g.stamp[x] < |g.arms|
    ensures var rows', g' := LinkRows(s.(timeout := s.timeout[t := n]), t, h).rows, ArmStep(g, t, start, d, h);
            && Layered(rows', g'.height) && Sorted(Last(rows'), g'.due, g'.stamp)
            && Members(Last(rows')) == Members(Last(s.rows)) + {t}
            && Residues(Last(rows'), g'.due, s.timeout[t := n])
  {
    var places := Search(s.rows, s.timeout[t := n], n, 0, 0);
    PlacesAreBounds(s, g, t, d, n, places);
    Inserted(s, g, t, d, |g.arms|, h, places);
    ResiduesArmed(Last(s.rows), Last(InsertAll(s.rows, places, t, h)), g.due, s.timeout, t, d, n);
  }

  lemma RowsLinked(s: State, g: Ledger, t: Id, start: nat, d: nat, n: nat, h: nat)
    requires Rows(s, g) && t in s.timers && t !in Members(Last(s.rows)) && 1 <= h
    requires Window(Last(s.rows), g.due, d) && n == d % U32 && Timed(s.rows, s.timeout[t := n])
    requires forall x | x in Members(Last(s.rows)) :: x in g.stamp && g.stamp[x] < |g.arms|
    ensures Rows(LinkRows(s.(timeout := s.timeout[t := n]), t, h), ArmStep(g, t, start, d, h))
    ensures Members(Last(LinkRows(s.(timeout := s.timeout[t := n]), t, h).rows)) == Members(Last(s.rows)) + {t}
  {
    OrderLinked(s, g, t, start, d, n, h);
    SameKeys(s.timeout, t, n);
    SameKeys(s.timers, t, s.timers[t].(active := true));
  }

  lemma Linkable(s: State, g: Ledger, t: Id, d: nat)
    requires Rows(s, g) && Arms(s, g) && t in s.timers && DueOk(g, s.mode, d)
    ensures Window(Last(s.rows), g.due, d) && Timed(s.rows, s.timeout[t := d % U32])
    ensures forall x | x in Members(Last(s.rows)) :: x in g.stamp && g.stamp[x] < |g.arms|
  {
    WindowOk(s, g, d);
    RowsTimed(s, g, s.timeout[t := d % U32]);
    forall x | x in Members(Last(s.rows)) ensures x in g.stamp && g.stamp[x] < |g.arms| {
      assert LinkedOk(g, s.mode, x);
    }
  }

  lemma RowsArmed(c: Conf, t: Id, start: nat, d: nat, h: nat)
    requires Rows(c.s, c.g) && Arms(c.s, c.g) && t in c.s.timers
    requires t !in Members(Last(c.s.rows)) && DueOk(c.g, c.s.mode, d) && 1 <= h
    ensures Rows(Armed(c, t, start, d, h).s, Armed(c, t, start, d, h).g)
    ensures Members(Last(Armed(c, t, start, d, h).s.rows)) == Members(Last(c.s.rows)) + {t}
  {
    Linkable(c.s, c.g, t, d);
    RowsLinked(c.s, c.g, t, start, d, d % U32, h);
  }

  /** The start of a timer that is linked now, for the deadline `d` computed at `start`. */
  ghost predicate StartOk(g: Ledger, mode: Mode, start: nat, d: nat) {
    DueOk(g, mode, d) && start <= g.now && start <= d
  }

  lemma ArmsArmed(c: Conf, t: Id, start: nat, d: nat, h: nat)
    requires Rows(c.s, c.g) && Arms(c.s, c.g) && t in c.s.timers && t !in Members(Last(c.s.rows))
    requires StartOk(c.g, c.s.mode, start, d)
    requires Rows(Armed(c, t, start, d, h).s, Armed(c, t, start, d, h).g)
    requires Members(Last(Armed(c, t, start, d, h).s.rows)) == Members(Last(c.s.rows)) + {t}
    ensures Arms(Armed(c, t, start, d, h).s, Armed(c, t, start, d, h).g)
  {
    var c' := Armed(c, t, start, d, h);
    var last, last' := Last(c.s.rows), Last(c'.s.rows);
    forall x | x in Members(last') ensures LinkedOk(c'.g, c'.s.mode, x) {
      if x != t {
        assert LinkedOk(c.g, c.s.mode, x);
      }
    }
    forall k ensures ArmOk(c'.g, last', k) {
      assert ArmOk(c.g, last, k);
    }
  }

  lemma FiresArmed(c: Conf, t: Id, start: nat, d: nat, h: nat)
    requires Rows(c.s, c.g) && Arms(c.s, c.g) && Fires(c.g.arms, c.g.fires) && t in c.s.timers
    ensures Fires(Armed(c, t, start, d, h).g.arms, Armed(c, t, start, d, h).g.fires)
  {
    var arms, arms', fires := c.g.arms, Armed(c, t, start, d, h).g.arms, c.g.fires;
    forall i, j | 0 <= i < j < |fires| ensures FiredFirst(arms', fires, i, fires[j]) {
      assert FiredFirst(arms, fires, i, fires[j]);
    }
    forall i, m | 0 <= i < |fires| && 0 <= m < |arms'| && arms'[m].fate == Pending
        ensures FiredFirst(arms', fires, i, m) {
      if m < |arms| {
        assert FiredFirst(arms, fires, i, m);
      } else {
        assert ArmOk(c.g, Last(c.s.rows), fires[i]);
      }
    }
  }

  /** A timer that is not linked is linked. */
  lemma ArmKeeps(c: Conf, t: Id, start: nat, d: nat, h: nat)
    requires Rows(c.s, c.g) && OnTime(c.s, c.g) && Arms(c.s, c.g) && Fires(c.g.arms, c.g.fires)
    requires t in c.s.timers && t !in Members(Last(c.s.rows)) && StartOk(c.g, c.s.mode, start, d) && 1 <= h
    ensures var c' := Armed(c, t, start, d, h);
            && Rows(c'.s, c'.g) && OnTime(c'.s, c'.g) && Arms(c'.s, c'.g) && Fires(c'.g.arms, c'.g.fires)
            && Members(Last(c'.s.rows)) == Members(Last(c.s.rows)) + {t}
  {
    RowsArmed(c, t, start, d, h);
    ArmsArmed(c, t, start, d, h);
    FiresArmed(c, t, start, d, h);
  }

  // The timer functions.

  /** The first section of rt_timer_start. */
  ghost function BeginStep(c: Conf, t: Id): Conf
    requires Rows(c.s, c.g) && t in c.s.timers
  {
    Conf(Removed(c.s, t).(timers := c.s.timers[t := c.s.timers[t].(active := false)]),
         Disarmed(c.g, Last(c.s.rows), t, Stopped))
  }

  /** The timeout tick is computed. */
  ghost function ReadStep(c: Conf, t: Id): Conf
    requires t in c.s.timers
  {
    Conf(c.s.(timeout := c.s.timeout[t := NewTimeout(c.s, t)]),
         c.g.(due := c.g.due[t := c.g.now + c.s.timers[t].init], read := c.g.read[t := c.g.now]))
  }

  ghost predicate Readied(c: Conf, t: Id) {
    && Rows(c.s, c.g) && t in c.s.timers && t in c.g.read && t in c.g.due && t in c.s.timeout
    && c.s.timeout[t] == c.g.due[t] % U32
  }

  /** The last section. */
  ghost function EndStep(c: Conf, t: Id): Conf
    requires Readied(c, t)
  {
    RowsTimed(c.s, c.g, c.s.timeout);
    var h := NewHeight(c.s);
    Conf(LinkRows(c.s, t, h), ArmStep(c.g, t, c.g.read[t], c.g.due[t], h))
  }

  /** All of rt_timer_start, where nothing comes between. */
  ghost function StartStep(c: Conf, t: Id): Conf
    requires Rows(c.s, c.g) && OnTime(c.s, c.g) && t in c.s.timers
  {
    StartParts(c, t);
    EndStep(ReadStep(BeginStep(c, t), t), t)
  }

  lemma BeginRows(c: Conf, t: Id)
    requires Rows(c.s, c.g) && t in c.s.timers
    ensures Rows(BeginStep(c, t).s, BeginStep(c, t).g) && t in BeginStep(c, t).s.timers
    ensures Members(Last(BeginStep(c, t).s.rows)) == Members(Last(c.s.rows)) - {t}
  {
    RowsUnlinked(c.s, c.g, t, BeginStep(c, t).g);
    SameKeys(c.s.timers, t, c.s.timers[t].(active := false));
  }

  lemma ReadRows(c: Conf, t: Id)
    requires Rows(c.s, c.g) && t in c.s.timers && t !in Members(Last(c.s.rows)) && OnTime(c.s, c.g)
    ensures Rows(ReadStep(c, t).s, ReadStep(c, t).g) && Readied(ReadStep(c, t), t)
  {
    var c', last := ReadStep(c, t), Last(c.s.rows);
    SameKeys(c.s.timeout, t, NewTimeout(c.s, t));
    SortedNoDuplicates(last, c.g.due, c.g.stamp);
    SortedFrame(last, c.g.due, c.g.stamp, c'.g.due, c.g.stamp);
    TickOfDue(c.s.tick, c.g.now, c.s.timers[t].init);
    forall x | x in last ensures x != t {
      assert x in Members(last);
    }
  }

  lemma StartParts(c: Conf, t: Id)
    requires Rows(c.s, c.g) && OnTime(c.s, c.g) && t in c.s.timers
    ensures var c1 := BeginStep(c, t); Rows(c1.s, c1.g) && t in c1.s.timers && Readied(ReadStep(c1, t), t)
  {
    BeginRows(c, t);
    ReadRows(BeginStep(c, t), t);
  }

  /** rt_timer_stop: a timer that is not activated stays as it is. */
  ghost function StopStep(c: Conf, t: Id): Conf
    requires Rows(c.s, c.g) && t in c.s.timers
  {
    if !c.s.timers[t].active then c
    else Conf(Removed(c.s, t).(timers := c.s.timers[t := c.s.timers[t].(active := false)]),
        Disarmed(c.g, Last(c.s.rows), t, Stopped))
  }

  /** The section of rt_timer_stop, for a timer whose flag was set when it was tested. */
  ghost function StopBeginStep(c: Conf, t: Id): Conf
    requires Rows(c.s, c.g) && t in c.s.timers
  {
    Conf(Removed(c.s, t).(stopping := c.s.stopping + multiset{t}), Disarmed(c.g, Last(c.s.rows), t, Stopped))
  }

  /** The flag is cleared. */
  ghost function StopEndStep(c: Conf, t: Id): Conf
    requires t in c.s.timers
  {
    Conf(c.s.(timers := c.s.timers[t := c.s.timers[t].(active := false)], stopping := c.s.stopping - multiset{t}), c.g)
  }

  /** A change of a timer's record that leaves its flag, or clears it. */
  lemma RecordKeeps(c: Conf, t: Id, r: Timer)
    requires Rows(c.s, c.g) && t in c.s.timers
    ensures Rows(c.s.(timers := c.s.timers[t := r]), c.g)
    ensures Arms(c.s, c.g) ==> Arms(c.s.(timers := c.s.timers[t := r]), c.g)
  {
    SameKeys(c.s.timers, t, r);
  }

  /** Steps that compute no timeout tick keep the last ones. */
  lemma ReadsKept(c: Conf, c': Conf)
    requires Reads(c.s, c.g) && c.s.timers.Keys <= c'.s.timers.Keys
    requires c'.g.read == c.g.read && c'.g.due == c.g.due && c'.g.slack == c.g.slack && c'.g.now >= c.g.now
    requires forall x | x in c.g.read && x in c.s.timeout :: x in c'.s.timeout && c'.s.timeout[x] == c.s.timeout[x]
    ensures Reads(c'.s, c'.g)
  {
    forall x | x in c'.g.read ensures ReadOk(c'.s, c'.g, x) {
      assert ReadOk(c.s, c.g, x);
    }
  }

  lemma BeginKeeps(c: Conf, t: Id)
    requires Inv(c) && t in c.s.timers
    ensures Inv(BeginStep(c, t)) && Members(Last(BeginStep(c, t).s.rows)) == Members(Last(c.s.rows)) - {t}
  {
    DisarmKeeps(c, t);
    BeginRows(c, t);
    ReadsKept(c, BeginStep(c, t));
  }

  lemma ReadsRead(c: Conf, t: Id)
    requires Reads(c.s, c.g) && OnTime(c.s, c.g) && t in c.s.timers && c.s.timers[t].init + c.g.slack < HALF
    ensures Reads(ReadStep(c, t).s, ReadStep(c, t).g)
  {
    var c' := ReadStep(c, t);
    TickOfDue(c.s.tick, c.g.now, c.s.timers[t].init);
    forall x | x in c'.g.read ensures ReadOk(c'.s, c'.g, x) {
      assert x != t ==> ReadOk(c.s, c.g, x);
    }
  }

  lemma ReadKeeps(c: Conf, t: Id)
    requires Inv(c) && t in c.s.timers && t !in Members(Last(c.s.rows)) && c.s.timers[t].init + c.g.slack < HALF
    ensures Inv(ReadStep(c, t)) && Readied(ReadStep(c, t), t)
  {
    var c', last := ReadStep(c, t), Last(c.s.rows);
    ReadRows(c, t);
    ReadsRead(c, t);
    forall x | x in Members(last) ensures LinkedOk(c'.g, c'.s.mode, x) {
      assert LinkedOk(c.g, c.s.mode, x);
    }
    forall k ensures ArmOk(c'.g, last, k) {
      assert ArmOk(c.g, last, k);
    }
  }

  /** To compute the timeout tick of a timer that another start has linked meanwhile leaves it at the wrong place,
      unless the deadline is the same. */
  lemma ReadLinked(c: Conf, t: Id)
    requires Inv(c) && t in c.s.timers && t in Members(Last(c.s.rows)) && c.s.timers[t].init + c.g.slack < HALF
    ensures t in c.g.due && (Inv(ReadStep(c, t)) <==> c.g.due[t] == c.g.now + c.s.timers[t].init)
  {
    var c', last := ReadStep(c, t), Last(c.s.rows);
    assert LinkedOk(c.g, c.s.mode, t);
    if c.g.due[t] == c.g.now + c.s.timers[t].init {
      TickOfDue(c.s.tick, c.g.now, c.s.timers[t].init);
      assert t in last;
      assert c'.s.timeout == c.s.timeout && c'.g.due == c.g.due;
      ReadsRead(c, t);
      forall x | x in Members(last) ensures LinkedOk(c'.g, c'.s.mode, x) {
        assert LinkedOk(c.g, c.s.mode, x);
      }
      forall k ensures ArmOk(c'.g, last, k) {
        assert ArmOk(c.g, last, k);
      }
    } else {
      assert !LinkedOk(c'.g, c'.s.mode, t);
    }
  }

  lemma EndKeeps(c: Conf, t: Id)
    requires Inv(c) && Readied(c, t) && t !in Members(Last(c.s.rows)) && DueOk(c.g, c.s.mode, c.g.due[t])
    ensures Inv(EndStep(c, t)) && Members(Last(EndStep(c, t).s.rows)) == Members(Last(c.s.rows)) + {t}
  {
    assert ReadOk(c.s, c.g, t);
    ArmKeeps(c, t, c.g.read[t], c.g.due[t], NewHeight(c.s));
    EndIsArmed(c, t);
    EndRecord(c, t);
    ReadsKept(c, EndStep(c, t));
  }

  /** To link a timer that another start has linked meanwhile links it twice. */
  lemma LinkedTwice(c: Conf, t: Id)
    requires Readied(c, t) && t in Members(Last(c.s.rows))
    ensures !Rows(EndStep(c, t).s, EndStep(c, t).g)
  {
    var c', q := EndStep(c, t), Last(c.s.rows);
    RowsTimed(c.s, c.g, c.s.timeout);
    var n := Search(c.s.rows, c.s.timeout, c.s.timeout[t], 0, 0)[|c.s.rows| - 1];
    assert Last(c'.s.rows) == InsertAt(q, n, t);
    InsertedTwice(q, n, t);
    if Rows(c'.s, c'.g) {
      SortedNoDuplicates(Last(c'.s.rows), c'.g.due, c'.g.stamp);
    }
  }

  /** It can come to that: a start has read the tick when another one of the same timer comes, a whole one. */
  lemma TwoStarts(c: Conf, t: Id)
    requires Inv(c) && c.s.mode.Idle? && t in c.s.timers && DelayOk(c.g, c.s.mode, c.s.timers[t].init)
    ensures Inv(BeginStep(c, t)) && t in BeginStep(c, t).s.timers && Inv(ReadStep(BeginStep(c, t), t))
    ensures var c1 := StartStep(ReadStep(BeginStep(c, t), t), t);
            Inv(c1) && Enabled(c1, StartEnd(t)) && !Safe(c1, StartEnd(t))
  {
    var c0 := BeginStep(c, t);
    BeginKeeps(c, t);
    ReadKeeps(c0, t);
    StartKeeps(ReadStep(c0, t), t);
    StartRecord(ReadStep(c0, t), t);
    var c1 := StartStep(ReadStep(c0, t), t);
    assert ReadOk(c1.s, c1.g, t);
  }

  lemma InsertedTwice(q: seq<Id>, n: nat, t: Id)
    requires n <= |q| && t in q
    ensures !NoDuplicates(InsertAt(q, n, t))
  {
    var k :| 0 <= k < |q| && q[k] == t;
    var r := InsertAt(q, n, t);
    assert r[n] == t && r[if k < n then k else k + 1] == t;
    assert !Differ(r, if k < n then k else n, if k < n then n else k + 1);
  }

  lemma EndIsArmed(c: Conf, t: Id)
    requires Readied(c, t)
    ensures EndStep(c, t) == Armed(c, t, c.g.read[t], c.g.due[t], NewHeight(c.s))
  {
    assert c.s.timeout[t := c.g.due[t] % U32] == c.s.timeout;
  }

  /** A whole start is its parts, and to link a timer at once is in time. */
  lemma StartReadied(c: Conf, t: Id) returns (c2: Conf)
    requires Inv(c) && t in c.s.timers && DelayOk(c.g, c.s.mode, c.s.timers[t].init)
    ensures Inv(c2) && Readied(c2, t) && StartStep(c, t) == EndStep(c2, t) && DueOk(c2.g, c2.s.mode, c2.g.due[t])
    ensures Members(Last(c2.s.rows)) == Members(Last(c.s.rows)) - {t}
  {
    var c1 := BeginStep(c, t);
    BeginKeeps(c, t);
    ReadKeeps(c1, t);
    c2 := ReadStep(c1, t);
  }

  lemma StartKeeps(c: Conf, t: Id)
    requires Inv(c) && t in c.s.timers && DelayOk(c.g, c.s.mode, c.s.timers[t].init)
    ensures Inv(StartStep(c, t)) && Members(Last(StartStep(c, t).s.rows)) == Members(Last(c.s.rows)) + {t}
  {
    var c2 := StartReadied(c, t);
    EndKeeps(c2, t);
  }

  lemma EndRecord(c: Conf, t: Id)
    requires Readied(c, t)
    ensures var c' := EndStep(c, t);
            && SameRecord(c, c') && c'.s.timers == c.s.timers[t := c.s.timers[t].(active := true)]
            && c'.g.due == c.g.due && c'.g.read == c.g.read && c'.s.timeout == c.s.timeout
  {
    assert c.g.due[t := c.g.due[t]] == c.g.due;
  }

  /** The rest of what a whole start changes, and what it does not. */
  lemma StartRecord(c: Conf, t: Id)
    requires Rows(c.s, c.g) && OnTime(c.s, c.g) && t in c.s.timers
    ensures SameRecord(c, StartStep(c, t))
    ensures StartStep(c, t).s.timers == c.s.timers[t := c.s.timers[t].(active := true)]
    ensures StartStep(c, t).g.due == c.g.due[t := c.g.now + c.s.timers[t].init] && t in StartStep(c, t).g.read
  {
    StartParts(c, t);
    var c2 := ReadStep(BeginStep(c, t), t);
    BeforeEnd(c, t, c2);
    EndRecord(c2, t);
    assert StartStep(c, t) == EndStep(c2, t);
  }

  lemma BeforeEnd(c: Conf, t: Id, c2: Conf)
    requires Rows(c.s, c.g) && t in c.s.timers && t in BeginStep(c, t).s.timers
    requires c2 == ReadStep(BeginStep(c, t), t)
    ensures SameRecord(c, c2) && t in c2.s.timers
    ensures c2.s.timers[t := c2.s.timers[t].(active := true)] == c.s.timers[t := c.s.timers[t].(active := true)]
    ensures c2.g.due == c.g.due[t := c.g.now + c.s.timers[t].init]
  {}

  ghost predicate SameRecord(c: Conf, c': Conf) {
    c'.s.mode == c.s.mode && c'.g.now == c.g.now && c'.g.slack == c.g.slack
  }

  lemma StopKeeps(c: Conf, t: Id)
    requires Inv(c) && t in c.s.timers
    ensures Inv(StopStep(c, t))
  {
    if c.s.timers[t].active {
      StopBeginKeeps(c, t);
      StopEndKeeps(StopBeginStep(c, t), t);
      assert c.s.stopping + multiset{t} - multiset{t} == c.s.stopping;
      assert StopEndStep(StopBeginStep(c, t), t) == StopStep(c, t);
    }
  }

  lemma StopBeginKeeps(c: Conf, t: Id)
    requires Inv(c) && t in c.s.timers
    ensures Inv(StopBeginStep(c, t)) && t in StopBeginStep(c, t).s.stopping
    ensures Members(Last(StopBeginStep(c, t).s.rows)) == Members(Last(c.s.rows)) - {t}
  {
    DisarmKeeps(c, t);
    ReadsKept(c, StopBeginStep(c, t));
  }

  lemma StopEndKeeps(c: Conf, t: Id)
    requires Inv(c) && t in c.s.timers && t in c.s.stopping
    ensures Inv(StopEndStep(c, t))
  {
    SameKeys(c.s.timers, t, c.s.timers[t].(active := false));
    ReadsKept(c, StopEndStep(c, t));
  }

  // The check.

  /** The test of rt_timer_check on the first timer. */
  predicate HeadIsDue(s: State) {
    s.rows != [] && Last(s.rows) != [] && Last(s.rows)[0] in s.timeout
        && Minus(s.tick, s.timeout[Last(s.rows)[0]]) < HALF
  }

  /** The first timer leaves the rows, and its callback begins. */
  ghost function FireStep(c: Conf): Conf
    requires Rows(c.s, c.g) && Last(c.s.rows) != []
  {
    var t := Last(c.s.rows)[0];
    var g' := Disarmed(c.g, Last(c.s.rows), t, Fired(c.g.now));
    Conf(Removed(c.s, t).(mode := Firing(t)), if t in c.g.stamp then g'.(fires := c.g.fires + [c.g.stamp[t]]) else g')
  }

  /** After the callback: a periodic timer that is still activated starts again. */
  ghost function FireEndStep(c: Conf): Conf
    requires Rows(c.s, c.g) && OnTime(c.s, c.g) && c.s.mode.Firing? && c.s.mode.id in c.s.timers
  {
    var t := c.s.mode.id;
    var r := c.s.timers[t];
    RecordKeeps(c, t, r.(active := false));
    var idle := Conf(c.s.(timers := c.s.timers[t := r.(active := false)]), c.g);
    if r.periodic && r.active then
      var c' := StartStep(idle, t);
      Conf(c'.s.(mode := Checking), c'.g)
    else Conf(idle.s.(mode := Checking), c.g)
  }

  lemma HeadDue(c: Conf)
    requires Inv(c) && Last(c.s.rows) != []
    ensures var t := Last(c.s.rows)[0];
            && t in Members(Last(c.s.rows)) && LinkedOk(c.g, c.s.mode, t) && t in c.g.due && t in c.s.timers
            && (HeadIsDue(c.s) <==> c.g.due[t] <= c.g.now)
  {
    var t := Last(c.s.rows)[0];
    assert t in Members(Last(c.s.rows));
    assert LinkedOk(c.g, c.s.mode, t);
    assert t in Last(c.s.rows);
    DueIsDue(c.g.due[t], c.g.now);
  }

  lemma HeadFirst(c: Conf, x: Id)
    requires Inv(c) && c.s.mode == Checking && HeadIsDue(c.s) && Last(c.s.rows) != [] && x in Members(Last(c.s.rows))
             && x != Last(c.s.rows)[0]
    ensures var t := Last(c.s.rows)[0];
            t in c.g.stamp && x in c.g.stamp && Earlier(c.g.arms, c.g.stamp[t], c.g.stamp[x])
  {
    var q := Last(c.s.rows);
    HeadDue(c);
    MembersTail(q);
    assert Precedes(c.g.due, c.g.stamp, q[0], x);
    assert LinkedOk(c.g, c.s.mode, q[0]) && LinkedOk(c.g, c.s.mode, x);
  }

  lemma FiresFired(c: Conf)
    requires Inv(c) && c.s.mode == Checking && Last(c.s.rows) != [] && HeadIsDue(c.s)
    ensures Fires(FireStep(c).g.arms, FireStep(c).g.fires)
  {
    var q, c' := Last(c.s.rows), FireStep(c);
    HeadDue(c);
    var k := c.g.stamp[q[0]];
    var arms, arms', fires := c.g.arms, c'.g.arms, c.g.fires;
    forall i, j | 0 <= i < j < |c'.g.fires| ensures FiredFirst(arms', c'.g.fires, i, c'.g.fires[j]) {
      if j < |fires| {
        assert FiredFirst(arms, fires, i, fires[j]);
      } else {
        assert FiredFirst(arms, fires, i, k);
      }
    }
    forall i, m | 0 <= i < |c'.g.fires| && 0 <= m < |arms'| && arms'[m].fate == Pending
        ensures FiredFirst(arms', c'.g.fires, i, m) {
      if i < |fires| {
        assert FiredFirst(arms, fires, i, m);
      } else {
        assert ArmOk(c.g, q, m);
        HeadFirst(c, arms[m].id);
      }
    }
  }

  lemma ArmsFired(c: Conf)
    requires Inv(c) && c.s.mode == Checking && Last(c.s.rows) != [] && HeadIsDue(c.s)
    ensures Rows(FireStep(c).s, FireStep(c).g) && Arms(FireStep(c).s, FireStep(c).g)
    ensures Members(Last(FireStep(c).s.rows)) == Members(Last(c.s.rows)) - {Last(c.s.rows)[0]}
  {
    var last, c' := Last(c.s.rows), FireStep(c);
    var t := last[0];
    HeadDue(c);
    RowsUnlinked(c.s, c.g, t, c'.g);
    var last' := Last(c'.s.rows);
    forall x | x in Members(last') ensures LinkedOk(c'.g, c'.s.mode, x) {
      assert LinkedOk(c.g, c.s.mode, x);
    }
    forall k ensures ArmOk(c'.g, last', k) {
      assert ArmOk(c.g, last, k);
      assert k == c.g.stamp[t] ==> c'.g.fires[|c.g.fires|] == k;
      assert forall x | x in c.g.fires :: x in c'.g.fires;
    }
  }

  lemma FireKeeps(c: Conf)
    requires Inv(c) && c.s.mode == Checking && HeadIsDue(c.s)
    ensures Inv(FireStep(c))
  {
    ArmsFired(c);
    FiresFired(c);
    var c' := FireStep(c);
    ReadsKept(c, c');
  }

  lemma FireEndKeeps(c: Conf)
    requires Inv(c) && c.s.mode.Firing? && c.s.mode.id in c.s.timers
    requires c.s.timers[c.s.mode.id].periodic && c.s.timers[c.s.mode.id].active ==>
               DelayOk(c.g, c.s.mode, c.s.timers[c.s.mode.id].init)
    ensures Inv(FireEndStep(c))
  {
    var t := c.s.mode.id;
    var r := c.s.timers[t];
    RecordKeeps(c, t, r.(active := false));
    var idle := Conf(c.s.(timers := c.s.timers[t := r.(active := false)]), c.g);
    IdleKeeps(c, t);
    if r.periodic && r.active {
      StartKeeps(idle, t);
      StartRecord(idle, t);
      ModeKeeps(StartStep(idle, t));
    } else {
      ModeKeeps(idle);
    }
  }

  /** The flag of a timer is cleared. */
  lemma IdleKeeps(c: Conf, t: Id)
    requires Inv(c) && t in c.s.timers
    ensures Inv(Conf(c.s.(timers := c.s.timers[t := c.s.timers[t].(active := false)]), c.g))
  {
    var r := c.s.timers[t].(active := false);
    RecordKeeps(c, t, r);
    var c' := Conf(c.s.(timers := c.s.timers[t := r]), c.g);
    ReadsKept(c, c');
  }

  lemma ModeKeeps(c: Conf)
    requires Inv(c) && c.s.mode.Firing?
    requires c.s.mode.id in c.s.timers && c.s.timers[c.s.mode.id].active ==> c.s.mode.id in Members(Last(c.s.rows))
    ensures Inv(Conf(c.s.(mode := Checking), c.g))
  {
    var s' := c.s.(mode := Checking);
    forall t | t in Members(Last(s'.rows)) ensures LinkedOk(c.g, s'.mode, t) {
      assert LinkedOk(c.g, c.s.mode, t);
    }
    ReadsKept(c, Conf(s', c.g));
  }

  // Runs.

  /** `Start` and `Stop` are whole calls, with interrupts disabled as in a callback. A call of a thread is
      `StartBegin`, `StartRead` and `StartEnd`, or `StopBegin` and `StopEnd`. */
  datatype Event =
    | Create(id: Id, init: nat, periodic: bool)
    | Start(id: Id)
    | StartBegin(id: Id)
    | StartRead(id: Id)
    | StartEnd(id: Id)
    | Stop(id: Id)
    | StopBegin(id: Id)
    | StopEnd(id: Id)
    | SetTime(id: Id, init: nat)
    | SetMode(id: Id, periodic: bool)
    | Tick
    | Fire
    | FireEnd
    | CheckEnd

  /** Calls come outside checks or from callbacks, and threads run outside checks; a tick is followed by a
      check of the whole list. Any number of threads may be in the midst of a start or a stop of a timer, so
      that the later parts may come at any time. A timer is linked at most `slack` ticks after its deadline,
      and delays are smaller than half the range of the ticks by more than that. */
  ghost predicate Enabled(c: Conf, e: Event) {
    var s, g := c.s, c.g;
    match e
    case Create(t, _, _) => t !in s.timers && !s.mode.Checking?
    case Start(t) => t in s.timers && !s.mode.Checking? && DelayOk(g, s.mode, s.timers[t].init)
    case StartBegin(t) => t in s.timers && s.mode.Idle?
    case StartRead(t) => t in s.timers && s.mode.Idle? && DelayOk(g, s.mode, s.timers[t].init)
    case StartEnd(t) => s.mode.Idle? && Readied(c, t) && g.now <= g.due[t] + g.slack
    case Stop(t) => t in s.timers && !s.mode.Checking?
    case StopBegin(t) => t in s.timers && s.mode.Idle?
    case StopEnd(t) => t in s.timers && s.mode.Idle? && t in s.stopping
    case SetTime(t, _) => t in s.timers && !s.mode.Checking?
    case SetMode(t, _) => t in s.timers && !s.mode.Checking?
    case Tick => s.mode.Idle?
    case Fire => s.mode.Checking? && HeadIsDue(s)
    case FireEnd =>
      && s.mode.Firing? && s.mode.id in s.timers
      && (s.timers[s.mode.id].periodic && s.timers[s.mode.id].active ==> DelayOk(g, s.mode, s.timers[s.mode.id].init))
    case CheckEnd => s.mode.Checking? && !HeadIsDue(s)
  }

  ghost function Step(c: Conf, e: Event): Conf
    requires Rows(c.s, c.g) && OnTime(c.s, c.g) && Enabled(c, e)
  {
    var s, g := c.s, c.g;
    match e
    case Create(t, init, periodic) =>
      Conf(s.(timers := s.timers[t := Timer(init, periodic, false)], timeout := s.timeout[t := 0]), g)
    case Start(t) => StartStep(c, t)
    case StartBegin(t) => BeginStep(c, t)
    case StartRead(t) => ReadStep(c, t)
    case StartEnd(t) => EndStep(c, t)
    case Stop(t) => StopStep(c, t)
    case StopBegin(t) => StopBeginStep(c, t)
    case StopEnd(t) => StopEndStep(c, t)
    case SetTime(t, init) => Conf(s.(timers := s.timers[t := s.timers[t].(init := init)]), g)
    case SetMode(t, periodic) => Conf(s.(timers := s.timers[t := s.timers[t].(periodic := periodic)]), g)
    case Tick => Conf(s.(tick := (s.tick + 1) % U32, mode := Checking), g.(now := g.now + 1))
    case Fire => FireStep(c)
    case FireEnd => FireEndStep(c)
    case CheckEnd => Conf(s.(mode := Idle), g)
  }

  /** Between the parts of a start its timer must not be linked by another one. */
  ghost predicate Safe(c: Conf, e: Event)
    requires c.s.rows != []
  {
    match e
    case StartRead(t) =>
      t in Members(Last(c.s.rows)) && t in c.s.timers && t in c.g.due ==> c.g.due[t] == c.g.now + c.s.timers[t].init
    case StartEnd(t) => t !in Members(Last(c.s.rows))
    case _ => true
  }

  lemma CreateKeeps(c: Conf, e: Event)
    requires Inv(c) && e.Create? && Enabled(c, e)
    ensures Inv(Step(c, e))
  {
    var c' := Step(c, e);
    forall x | x in Last(c.s.rows) ensures x != e.id {
      assert x in Members(Last(c.s.rows));
    }
    assert c'.s.timers.Keys == c.s.timers.Keys + {e.id} == c'.s.timeout.Keys;
    forall x | x in c.g.read ensures x != e.id {
      assert ReadOk(c.s, c.g, x);
    }
    ReadsKept(c, c');
  }

  lemma TickKeeps(c: Conf)
    requires Inv(c) && c.s.mode.Idle?
    ensures Inv(Step(c, Tick))
  {
    var c' := Step(c, Tick);
    TickOfDue(c.s.tick, c.g.now, 1);
    forall t | t in Members(Last(c.s.rows)) ensures LinkedOk(c'.g, c'.s.mode, t) {
      assert LinkedOk(c.g, c.s.mode, t);
    }
    forall k ensures ArmOk(c'.g, Last(c.s.rows), k) {
      assert ArmOk(c.g, Last(c.s.rows), k);
    }
    ReadsKept(c, c');
  }

  /** When the first timer is not due, none is. */
  lemma NoneDue(c: Conf, t: Id)
    requires Inv(c) && !HeadIsDue(c.s) && t in Members(Last(c.s.rows))
    ensures t in c.g.due && c.g.due[t] > c.g.now
  {
    var q := Last(c.s.rows);
    HeadDue(c);
    MembersTail(q);
    if t != q[0] {
      assert Precedes(c.g.due, c.g.stamp, q[0], t);
    }
  }

  lemma CheckEndKeeps(c: Conf)
    requires Inv(c) && c.s.mode.Checking? && !HeadIsDue(c.s)
    ensures Inv(Step(c, CheckEnd))
  {
    var c' := Step(c, CheckEnd);
    forall t | t in Members(Last(c.s.rows)) ensures LinkedOk(c'.g, c'.s.mode, t) {
      assert LinkedOk(c.g, c.s.mode, t);
      NoneDue(c, t);
    }
    ReadsKept(c, c');
  }

  lemma ControlKeeps(c: Conf, t: Id, r: Timer)
    requires Inv(c) && t in c.s.timers && r.active == c.s.timers[t].active
    ensures Inv(Conf(c.s.(timers := c.s.timers[t := r]), c.g))
  {
    RecordKeeps(c, t, r);
    SameKeys(c.s.timers, t, r);
    ReadsKept(c, Conf(c.s.(timers := c.s.timers[t := r]), c.g));
  }

  lemma ReadIfSafe(c: Conf, t: Id)
    requires Inv(c) && Enabled(c, StartRead(t))
    ensures Inv(ReadStep(c, t)) <==> Safe(c, StartRead(t))
  {
    if t in Members(Last(c.s.rows)) {
      ReadLinked(c, t);
    } else {
      ReadKeeps(c, t);
    }
  }

  lemma EndIfSafe(c: Conf, t: Id)
    requires Inv(c) && Enabled(c, StartEnd(t))
    ensures Inv(EndStep(c, t)) <==> Safe(c, StartEnd(t))
  {
    if t in Members(Last(c.s.rows)) {
      LinkedTwice(c, t);
    } else {
      assert ReadOk(c.s, c.g, t);
      EndKeeps(c, t);
    }
  }

  /** A step keeps the invariant if and only if it is safe. */
  lemma StepKeeps(c: Conf, e: Event)
    requires Inv(c) && Enabled(c, e)
    ensures Inv(Step(c, e)) <==> Safe(c, e)
  {
    match e
    case Create(_, _, _) => CreateKeeps(c, e);
    case Start(t) => StartKeeps(c, t);
    case StartBegin(t) => BeginKeeps(c, t);
    case StartRead(t) => ReadIfSafe(c, t);
    case StartEnd(t) => EndIfSafe(c, t);
    case Stop(t) => StopKeeps(c, t);
    case StopBegin(t) => StopBeginKeeps(c, t);
    case StopEnd(t) => StopEndKeeps(c, t);
    case SetTime(t, init) => ControlKeeps(c, t, c.s.timers[t].(init := init));
    case SetMode(t, periodic) => ControlKeeps(c, t, c.s.timers[t].(periodic := periodic));
    case Tick => TickKeeps(c);
    case Fire => FireKeeps(c);
    case FireEnd => FireEndKeeps(c);
    case CheckEnd => CheckEndKeeps(c);
  }

  ghost predicate Run(c: Conf, es: seq<Event>)
    decreases |es|
  {
    es == []
    || (Rows(c.s, c.g) && OnTime(c.s, c.g) && Enabled(c, es[0]) && Safe(c, es[0]) && Run(Step(c, es[0]), es[1..]))
  }

  ghost function After(c: Conf, es: seq<Event>): Conf
    requires Run(c, es)
    decreases |es|
  {
    if es == [] then c else After(Step(c, es[0]), es[1..])
  }

  /** rt_system_timer_init with `levels` rows, at any tick, where timers are linked at most `slack` ticks late. */
  function Initial(levels: nat, now: nat, nr: nat, slack: nat): Conf {
    Conf(State(seq(levels, _ => []), map[], map[], now % U32, nr, Idle, multiset{}),
         Ledger(now, slack, map[], map[], map[], map[], [], []))
  }

  lemma InitialInv(levels: nat, now: nat, nr: nat, slack: nat)
    requires levels > 0 && slack + 1 < HALF
    ensures Inv(Initial(levels, now, nr, slack))
  {
    var c := Initial(levels, now, nr, slack);
    forall l ensures RowIs(c.s.rows, c.g.height, l) {}
    forall k ensures ArmOk(c.g, [], k) {}
  }

  lemma {:induction false} RunKeeps(c: Conf, es: seq<Event>)
    requires Inv(c) && Run(c, es)
    ensures Inv(After(c, es))
    decreases |es|
  {
    if es != [] {
      StepKeeps(c, es[0]);
      RunKeeps(Step(c, es[0]), es[1..]);
    }
  }

  /** What a run of these steps reaches. */
  ghost predicate Reached(levels: nat, now: nat, nr: nat, slack: nat, es: seq<Event>) {
    levels > 0 && slack + 1 < HALF && Run(Initial(levels, now, nr, slack), es)
  }

  ghost function End(levels: nat, now: nat, nr: nat, slack: nat, es: seq<Event>): (c: Conf)
    requires Reached(levels, now, nr, slack, es)
    ensures Inv(c)
  {
    InitialInv(levels, now, nr, slack);
    RunKeeps(Initial(levels, now, nr, slack), es);
    After(Initial(levels, now, nr, slack), es)
  }

  /** Every start fires once, at its deadline or the tick after its timer was linked, whichever is later, unless
      it is stopped (or overtaken by another start of its timer) before: when that tick has passed it fired at
      it or was stopped; before, it did not fire. So a start that fires does so at its deadline if and only if
      its timer was linked before that. */
  lemma FiresAtExpectedTick(levels: nat, now: nat, nr: nat, slack: nat, es: seq<Event>, k: nat)
    requires Reached(levels, now, nr, slack, es) && k < |End(levels, now, nr, slack, es).g.arms|
    requires End(levels, now, nr, slack, es).s.mode.Idle?
    ensures var g := End(levels, now, nr, slack, es).g;
            var a := g.arms[k];
            && (Expected(a) <= g.now ==> a.fate in {Fired(Expected(a)), Stopped})
            && (Expected(a) > g.now ==> a.fate in {Pending, Stopped})
            && (a.fate.Fired? <==> k in g.fires)
            && (a.fate.Fired? ==> (a.fate.at == a.due <==> a.link < a.due))
  {
    var c := End(levels, now, nr, slack, es);
    assert ArmOk(c.g, Last(c.s.rows), k);
    if c.g.arms[k].fate.Pending? {
      assert LinkedOk(c.g, c.s.mode, c.g.arms[k].id);
    }
  }

  /** The last section of a start links the timer now; in time for its deadline iff that is still to come. */
  lemma LinkedInTime(c: Conf, t: Id)
    requires Inv(c) && Enabled(c, StartEnd(t))
    ensures EndStep(c, t).g.arms != []
    ensures var a := Last(EndStep(c, t).g.arms);
            && a == Arming(t, c.g.read[t], c.g.due[t], c.g.now, Pending)
            && (Expected(a) == a.due <==> c.g.now < c.g.due[t])
            && (c.g.now >= c.g.due[t] ==> Expected(a) == c.g.now + 1)
  {
    assert EndStep(c, t).g.arms == c.g.arms + [Arming(t, c.g.read[t], c.g.due[t], c.g.now, Pending)];
  }

  ghost predicate Whole(arms: seq<Arming>) {
    forall k | 0 <= k < |arms| :: arms[k].link == arms[k].start
  }

  /** If no start is interrupted, each fires at its start tick plus its delay, or at the next tick if it has
      none. */
  lemma {:induction false} WholeStarts(c: Conf, es: seq<Event>)
    requires Inv(c) && Run(c, es) && Whole(c.g.arms) && forall e | e in es :: !e.StartEnd?
    ensures Whole(After(c, es).g.arms)
    decreases |es|
  {
    if es != [] {
      StepKeeps(c, es[0]);
      WholeStep(c, es[0]);
      WholeStarts(Step(c, es[0]), es[1..]);
    }
  }

  lemma WholeStep(c: Conf, e: Event)
    requires Inv(c) && Enabled(c, e) && Whole(c.g.arms) && !e.StartEnd?
    ensures Whole(Step(c, e).g.arms)
  {
    if e.Start? {
      WholeStart(c, e.id);
    } else if e.FireEnd? {
      var t := c.s.mode.id;
      IdleKeeps(c, t);
      WholeStart(Conf(c.s.(timers := c.s.timers[t := c.s.timers[t].(active := false)]), c.g), t);
    }
  }

  lemma WholeStart(c: Conf, t: Id)
    requires Inv(c) && t in c.s.timers && Whole(c.g.arms)
    ensures Whole(StartStep(c, t).g.arms)
  {
    StartArms(c, t);
  }

  lemma StartArms(c: Conf, t: Id)
    requires Rows(c.s, c.g) && OnTime(c.s, c.g) && t in c.s.timers
    ensures StartStep(c, t).g.arms == Disarmed(c.g, Last(c.s.rows), t, Stopped).arms
                                      + [Arming(t, c.g.now, c.g.now + c.s.timers[t].init, c.g.now, Pending)]
  {
    StartParts(c, t);
  }

  /** A start that is not interrupted fires at the sum of its tick and its delay, or at the next tick if the
      delay is 0. */
  lemma WholeStartFires(levels: nat, now: nat, nr: nat, es: seq<Event>, k: nat)
    requires Reached(levels, now, nr, 0, es) && (forall e | e in es :: !e.StartEnd?)
    requires k < |End(levels, now, nr, 0, es).g.arms| && End(levels, now, nr, 0, es).s.mode.Idle?
    ensures var g := End(levels, now, nr, 0, es).g;
            var a := g.arms[k];
            a.fate.Fired? ==> a.fate.at == if a.due > a.start then a.due else a.start + 1
  {
    InitialInv(levels, now, nr, 0);
    WholeStarts(Initial(levels, now, nr, 0), es);
    FiresAtExpectedTick(levels, now, nr, 0, es, k);
    var c := End(levels, now, nr, 0, es);
    assert ArmOk(c.g, Last(c.s.rows), k);
  }

  /** The starts fire in the order of their expected ticks; at the same tick in the order of their deadlines, and
      with the same deadline in the order in which their timers were linked; in every run and across every wrap
      of the tick. */
  lemma FiresInOrder(levels: nat, now: nat, nr: nat, slack: nat, es: seq<Event>, i: nat, j: nat)
    requires Reached(levels, now, nr, slack, es) && i < j < |End(levels, now, nr, slack, es).g.fires|
    ensures var g := End(levels, now, nr, slack, es).g; Earlier(g.arms, g.fires[i], g.fires[j])
  {
    var g := End(levels, now, nr, slack, es).g;
    assert FiredFirst(g.arms, g.fires, i, g.fires[j]);
  }

  /** The list in every reachable state: the last row is sorted by deadline and start, each row is the part of
      the last one that is high enough, hence a part of the row below. */
  lemma RowsInOrder(levels: nat, now: nat, nr: nat, slack: nat, es: seq<Event>, l: nat, i: nat, j: nat)
    requires Reached(levels, now, nr, slack, es)
    requires var rows := End(levels, now, nr, slack, es).s.rows; l < |rows| && i < j < |rows[l]|
    ensures var c := End(levels, now, nr, slack, es);
            && c.s.rows != [] && c.s.rows[l] == Above(Last(c.s.rows), c.g.height, |c.s.rows| - l)
            && (l + 1 < |c.s.rows| ==> c.s.rows[l] == Above(c.s.rows[l + 1], c.g.height, |c.s.rows| - l))
            && Precedes(c.g.due, c.g.stamp, c.s.rows[l][i], c.s.rows[l][j])
  {
    var c := End(levels, now, nr, slack, es);
    assert RowIs(c.s.rows, c.g.height, l) && RowIs(c.s.rows, c.g.height, l + 1);
    AboveAbove(Last(c.s.rows), c.g.height, |c.s.rows| - l);
    AboveSorted(Last(c.s.rows), c.g.height, |c.s.rows| - l, c.g.due, c.g.stamp);
    SortedPair(c.s.rows[l], c.g.due, c.g.stamp, i, j);
  }

  // Why a check ends: no callback and no periodic restart makes a timer due at the same tick.

  ghost function DueTimers(c: Conf): set<Id> {
    if c.s.rows == [] then {}
    else set t | t in Members(Last(c.s.rows)) && t in c.g.due && c.g.due[t] <= c.g.now
  }

  lemma StartNotDue(c: Conf, t: Id)
    requires Inv(c) && t in c.s.timers
    requires 1 <= c.s.timers[t].init && c.s.timers[t].init + c.g.slack < HALF
    ensures DueTimers(StartStep(c, t)) <= DueTimers(c) - {t}
  {
    StartKeeps(c, t);
    StartRecord(c, t);
  }

  lemma StopNotDue(c: Conf, t: Id)
    requires Inv(c) && t in c.s.timers
    ensures DueTimers(StopStep(c, t)) <= DueTimers(c)
  {
    if c.s.timers[t].active {
      DisarmKeeps(c, t);
    }
  }

  /** Each timer that fires is one due timer less. */
  lemma FireDecreases(c: Conf)
    requires Inv(c) && c.s.mode == Checking && HeadIsDue(c.s)
    ensures |DueTimers(FireStep(c))| < |DueTimers(c)|
  {
    HeadDue(c);
    ArmsFired(c);
    var t := Last(c.s.rows)[0];
    assert DueTimers(FireStep(c)) == DueTimers(c) - {t};
  }

  lemma FireEndNotDue(c: Conf)
    requires Inv(c) && Enabled(c, FireEnd)
    ensures DueTimers(FireEndStep(c)) <= DueTimers(c)
  {
    var t := c.s.mode.id;
    var r := c.s.timers[t];
    IdleKeeps(c, t);
    if r.periodic && r.active {
      StartNotDue(Conf(c.s.(timers := c.s.timers[t := r.(active := false)]), c.g), t);
    }
  }

  // The functions as the program runs them.

  /** What stays as it is in a check: how late timers may be linked, and the timers of which nothing is started in
      the check, as they may have no delay. */
  datatype Limits = Limits(slack: nat, slow: set<Id>)

  /** A call that a callback may make: the timer exists and has a delay of at least 1. */
  ghost predicate CallOk(timers: set<Id>, lim: Limits, e: Event) {
    match e
    case Start(t) => t in timers && t !in lim.slow
    case Stop(t) => t in timers
    case SetTime(t, init) => t in timers && 1 <= init && init + lim.slack < HALF
    case SetMode(t, periodic) => t in timers && (periodic ==> t !in lim.slow)
    case _ => false
  }

  ghost predicate CallsOk(timers: set<Id>, lim: Limits, calls: seq<Event>) {
    forall j | 0 <= j < |calls| :: CallOk(timers, lim, calls[j])
  }

  ghost predicate DelaysOk(timers: map<Id, Timer>, lim: Limits) {
    forall t | t in timers ::
      if t in lim.slow then !timers[t].periodic else 1 <= timers[t].init && timers[t].init + lim.slack < HALF
  }

  ghost predicate Limited(c: Conf, lim: Limits) {
    DelaysOk(c.s.timers, lim) && c.g.slack == lim.slack
  }

  /** What the rest of a check relies on, from one of its states to a later one. */
  ghost predicate Onward(c: Conf, c': Conf, lim: Limits) {
    && Inv(c') && Limited(c', lim) && c'.s.timers.Keys == c.s.timers.Keys
    && c'.g.now == c.g.now && DueTimers(c') <= DueTimers(c)
  }

  lemma CallOnward(c: Conf, e: Event, lim: Limits)
    requires Inv(c) && c.s.mode.Firing? && Limited(c, lim) && CallOk(c.s.timers.Keys, lim, e)
    ensures Enabled(c, e) && Onward(c, Step(c, e), lim) && Step(c, e).s.mode == c.s.mode
  {
    if e.Start? {
      StartOnward(c, e.id, lim);
    } else if e.Stop? {
      StopKeeps(c, e.id);
      StopNotDue(c, e.id);
    } else {
      RecordOnward(c, e, lim);
    }
  }

  lemma StartOnward(c: Conf, t: Id, lim: Limits)
    requires Inv(c) && c.s.mode.Firing? && Limited(c, lim) && t in c.s.timers && t !in lim.slow
    ensures Onward(c, StartStep(c, t), lim) && StartStep(c, t).s.mode == c.s.mode
  {
    StartKeeps(c, t);
    StartNotDue(c, t);
    StartLimited(c, t, lim);
  }

  lemma StartLimited(c: Conf, t: Id, lim: Limits)
    requires Rows(c.s, c.g) && OnTime(c.s, c.g) && Limited(c, lim) && t in c.s.timers
    ensures SameRecord(c, StartStep(c, t)) && Limited(StartStep(c, t), lim)
    ensures StartStep(c, t).s.timers.Keys == c.s.timers.Keys
  {
    StartRecord(c, t);
  }

  lemma RecordOnward(c: Conf, e: Event, lim: Limits)
    requires Inv(c) && c.s.mode.Firing? && Limited(c, lim) && CallOk(c.s.timers.Keys, lim, e)
             && (e.SetTime? || e.SetMode?)
    ensures Onward(c, Step(c, e), lim)
  {
    StepKeeps(c, e);
    if e.SetTime? {
      SameKeys(c.s.timers, e.id, c.s.timers[e.id].(init := e.init));
    } else {
      SameKeys(c.s.timers, e.id, c.s.timers[e.id].(periodic := e.periodic));
    }
  }

  lemma FireOnward(c: Conf, lim: Limits)
    requires Inv(c) && c.s.mode == Checking && HeadIsDue(c.s) && Limited(c, lim)
    ensures Onward(c, FireStep(c), lim) && |DueTimers(FireStep(c))| < |DueTimers(c)|
    ensures FireStep(c).s.mode.Firing? && FireStep(c).s.mode.id in c.s.timers
  {
    FireKeeps(c);
    HeadDue(c);
    FireDecreases(c);
    ArmsFired(c);
  }

  lemma FireEndOnward(c: Conf, lim: Limits)
    requires Inv(c) && c.s.mode.Firing? && c.s.mode.id in c.s.timers && Limited(c, lim)
    ensures Enabled(c, FireEnd) && Onward(c, FireEndStep(c), lim) && FireEndStep(c).s.mode == Checking
  {
    FireEndKeeps(c);
    FireEndNotDue(c);
    FireEndRecord(c);
  }

  lemma FireEndRecord(c: Conf)
    requires Inv(c) && c.s.mode.Firing? && c.s.mode.id in c.s.timers
    ensures var c', r := FireEndStep(c), c.s.timers[c.s.mode.id];
            && c'.s.mode == Checking && c'.g.now == c.g.now && c'.g.slack == c.g.slack
            && c'.s.timers == c.s.timers[c.s.mode.id := r.(active := r.periodic && r.active)]
  {
    var t := c.s.mode.id;
    var r := c.s.timers[t];
    IdleKeeps(c, t);
    if r.periodic && r.active {
      StartRecord(Conf(c.s.(timers := c.s.timers[t := r.(active := false)]), c.g), t);
    }
  }

  lemma OnwardTrans(a: Conf, b: Conf, c: Conf, lim: Limits)
    requires Onward(a, b, lim) && Onward(b, c, lim)
    ensures Onward(a, c, lim) && |DueTimers(c)| <= |DueTimers(b)|
  {
    SubsetSize(DueTimers(c), DueTimers(b));
  }

  lemma SubsetSize(a: set<Id>, b: set<Id>)
    requires a <= b
    ensures |a| <= |b|
  {
    assert b == a + (b - a);
  }

  lemma {:induction false} RunExtends(c: Conf, es: seq<Event>, e: Event)
    requires Run(c, es) && Inv(After(c, es)) && Enabled(After(c, es), e) && Safe(After(c, es), e)
    ensures Run(c, es + [e]) && After(c, es + [e]) == Step(After(c, es), e)
    decreases |es|
  {
    if es == [] {
      assert ([] + [e])[1..] == [];
    } else {
      RunExtends(Step(c, es[0]), es[1..], e);
      assert (es + [e])[1..] == es[1..] + [e];
    }
  }

  class Timers {
    var rows: seq<seq<Id>>            // rt_timer_list, from the sparsest row to the full one
    var timers: map<Id, Timer>
    var timeout: map<Id, nat>         // timeout_tick
    var tick: nat                     // rt_tick, 32-bit
    var nr: nat                       // random_nr, 32-bit

    ghost var mode: Mode
    ghost var stopping: multiset<Id>       // the stops that have unlinked their timer
    ghost var g: Ledger

    ghost function Abs(): Conf
      reads this
    {
      Conf(State(rows, timers, timeout, tick, nr, mode, stopping), g)
    }

    /** rt_system_timer_init. */
    constructor (levels: nat, tick: nat, ghost slack: nat)
      requires levels > 0 && slack + 1 < HALF
      ensures Abs() == Initial(levels, tick, 0, slack) && Inv(Abs())
    {
      rows, timers, timeout, this.tick, nr := seq(levels, _ => []), map[], map[], tick % U32, 0;
      mode, stopping := Idle, multiset{};
      g := Ledger(tick, slack, map[], map[], map[], map[], [], []);
      InitialInv(levels, tick, 0, slack);
    }

    /** rt_timer_init. */
    method Init(t: Id, init: nat, periodic: bool)
      requires Rows(Abs().s, g) && OnTime(Abs().s, g) && Enabled(Abs(), Create(t, init, periodic))
      modifies `timers, `timeout
      ensures Abs() == Step(old(Abs()), Create(t, init, periodic))
    {
      timers := timers[t := Timer(init, periodic, false)];
      timeout := timeout[t := 0];
    }

    /** _rt_timer_remove. */
    method Remove(t: Id)
      modifies `rows
      ensures rows == UnlinkAll(old(rows), t)
    {
      var i := 0;
      while i < |rows|
        invariant 0 <= i <= |rows| == |old(rows)|
        invariant forall l | 0 <= l < |rows| :: rows[l] == if l < i then Without(old(rows)[l], t) else old(rows)[l]
      {
        rows := rows[i := Without(rows[i], t)];
        i := i + 1;
      }
    }

    /** Along one row past the timers that do not time out later. */
    static method WalkRow(row: seq<Id>, timeout: map<Id, nat>, n: nat, start: nat) returns (i: nat)
      requires start <= |row| && forall t | t in row :: t in timeout
      ensures i == Walk(row, timeout, n, start)
    {
      i := start;
      while i < |row|
        invariant start <= i <= |row| && Walk(row, timeout, n, start) == Walk(row, timeout, n, i)
      {
        assert row[i] in row;
        if Later(timeout[row[i]], n) {
          return;
        }
        i := i + 1;
      }
    }

    /** The search of rt_timer_start through the rows. */
    method FindPlaces(n: nat, timeout: map<Id, nat>) returns (places: seq<nat>)
      requires rows != [] && Timed(rows, timeout)
      ensures places == Search(rows, timeout, n, 0, 0)
    {
      var i: nat := WalkRow(rows[0], timeout, n, 0);
      SearchOneRow(rows, timeout, n, 0, 0, []);
      places := [i];
      var l: nat := 0;
      while l + 1 < |rows|
        invariant l < |rows| && i <= |rows[l]|
        invariant Search(rows, timeout, n, 0, 0) == places + SearchBelow(rows, timeout, n, l, i)
      {
        var j := Down(rows[l], i, rows[l + 1]);
        l := l + 1;
        SearchOneRow(rows, timeout, n, l, j, places);
        i := WalkRow(rows[l], timeout, n, j);
        places := places + [i];
      }
    }

    /** The insertion of rt_timer_start: in the last row, and in the next one up while the low bit pairs of
        the counter are zero. */
    static method InsertRows(rows: seq<seq<Id>>, nr: nat, t: Id, places: seq<nat>) returns (r: seq<seq<Id>>)
      requires rows != [] && |places| == |rows| && forall l | 0 <= l < |rows| :: places[l] <= |rows[l]|
      ensures r == InsertAll(rows, places, t, 1 + ZeroPairs(nr, |rows| - 1))
    {
      var tst, levels := nr, |rows|;
      InsertAllNext(rows, places, t, 0);
      r := rows[levels - 1 := InsertAt(rows[levels - 1], places[levels - 1], t)];
      var lvl := 2;
      while lvl <= levels && tst % 4 == 0
        invariant 2 <= lvl <= levels + 1 && r == InsertAll(rows, places, t, lvl - 1)
        invariant ZeroPairs(nr, levels - 1) == lvl - 2 + ZeroPairs(tst, levels + 1 - lvl)
        decreases levels - lvl
      {
        var l := levels - lvl;
        InsertAllNext(rows, places, t, lvl - 1);
        r := r[l := InsertAt(r[l], places[l], t)];
        tst := tst / 4;
        lvl := lvl + 1;
      }
    }

    /** ... which counts the insertions. */
    method InsertTimer(t: Id, places: seq<nat>)
      requires rows != [] && |places| == |rows| && forall l | 0 <= l < |rows| :: places[l] <= |rows[l]|
      modifies `rows, `nr
      ensures nr == (old(nr) + 1) % U32
      ensures rows == InsertAll(old(rows), places, t, 1 + ZeroPairs(nr, |old(rows)| - 1))
    {
      nr := (nr + 1) % U32;
      rows := InsertRows(rows, nr, t, places);
    }

    /** The first section of rt_timer_start. */
    method Begin(t: Id)
      requires Rows(Abs().s, g) && t in timers
      modifies this
      ensures Abs() == BeginStep(old(Abs()), t)
    {
      g := Disarmed(g, Last(rows), t, Stopped);
      Remove(t);
      timers := timers[t := timers[t].(active := false)];
    }

    /** The timeout tick, between the sections. */
    method ReadTick(t: Id)
      requires t in timers && timers[t].init < HALF
      modifies this
      ensures Abs() == ReadStep(old(Abs()), t)
    {
      timeout := timeout[t := (tick + timers[t].init) % U32];
      g := g.(due := g.due[t := g.now + timers[t].init], read := g.read[t := g.now]);
    }

    /** The rows in the last section of rt_timer_start. */
    method LinkTimer(t: Id)
      requires rows != [] && t in timers && t in timeout && Timed(rows, timeout)
      modifies `rows, `nr
      ensures rows == InsertAll(old(rows), Search(old(rows), timeout, timeout[t], 0, 0), t, NewHeight(old(Abs().s)))
      ensures nr == NextNr(old(Abs().s))
    {
      var places := FindPlaces(timeout[t], timeout);
      InsertTimer(t, places);
    }

    /** The last section of rt_timer_start. */
    method Link(t: Id)
      requires Readied(Abs(), t)
      modifies this
      ensures Abs() == EndStep(old(Abs()), t)
    {
      ghost var c := Abs();
      RowsTimed(c.s, g, timeout);
      LinkTimer(t);
      timers := timers[t := timers[t].(active := true)];
      g := EndStep(c, t).g;
    }

    /** rt_timer_start, where nothing comes between its parts. */
    method Start(t: Id)
      requires Rows(Abs().s, g) && OnTime(Abs().s, g) && t in timers && timers[t].init < HALF
      modifies this
      ensures Abs() == StartStep(old(Abs()), t)
    {
      StartParts(Abs(), t);
      Begin(t);
      ReadTick(t);
      Link(t);
    }

    /** rt_timer_stop, where nothing comes between its parts. */
    method Stop(t: Id) returns (ok: bool)
      requires Rows(Abs().s, g) && t in timers
      modifies this
      ensures Abs() == StopStep(old(Abs()), t) && ok == old(timers)[t].active
    {
      ok := timers[t].active;
      if ok {
        StopUnlink(t);
        ClearFlag(t);
        assert stopping == old(stopping);
      }
    }

    /** The section of rt_timer_stop. */
    method StopUnlink(t: Id)
      requires Rows(Abs().s, g) && t in timers
      modifies this
      ensures Abs() == StopBeginStep(old(Abs()), t)
    {
      g := Disarmed(g, Last(rows), t, Stopped);
      Remove(t);
      stopping := stopping + multiset{t};
    }

    /** And what follows it. */
    method ClearFlag(t: Id)
      requires t in timers
      modifies this
      ensures Abs() == StopEndStep(old(Abs()), t)
    {
      timers, stopping := timers[t := timers[t].(active := false)], stopping - multiset{t};
    }

    /** One call of a callback. */
    method Perform(e: Event)
      requires Inv(Abs()) && Enabled(Abs(), e) && (e.Start? || e.Stop? || e.SetTime? || e.SetMode?)
      modifies this
      ensures Abs() == Step(old(Abs()), e)
    {
      match e
      case Start(t) => this.Start(t);
      case Stop(t) => var ok := this.Stop(t);
      case SetTime(t, init) => timers := timers[t := timers[t].(init := init)];
      case SetMode(t, periodic) => timers := timers[t := timers[t].(periodic := periodic)];
    }

    /** The callback of the timer that fires. */
    method Callback(calls: seq<Event>, ghost lim: Limits, ghost c: Conf, ghost past: seq<Event>)
      returns (ghost es: seq<Event>)
      requires Inv(Abs()) && mode.Firing? && Limited(Abs(), lim) && CallsOk(timers.Keys, lim, calls)
      requires Run(c, past) && After(c, past) == Abs()
      modifies this
      ensures Onward(old(Abs()), Abs(), lim) && mode == old(mode)
      ensures Run(c, es) && After(c, es) == Abs()
    {
      es := past;
      var j := 0;
      while j < |calls|
        invariant 0 <= j <= |calls| && Onward(old(Abs()), Abs(), lim) && mode == old(mode)
        invariant Run(c, es) && After(c, es) == Abs()
      {
        ghost var b := Abs();
        assert CallOk(timers.Keys, lim, calls[j]);
        CallOnward(b, calls[j], lim);
        RunExtends(c, es, calls[j]);
        Perform(calls[j]);
        es := es + [calls[j]];
        OnwardTrans(old(Abs()), b, Abs(), lim);
        j := j + 1;
      }
    }

    /** The first timer, which is due, leaves the rows. */
    method BeginFiring(ghost lim: Limits, ghost c: Conf, ghost past: seq<Event>) returns (t: Id, ghost es: seq<Event>)
      requires Inv(Abs()) && mode == Checking && HeadIsDue(Abs().s) && Limited(Abs(), lim)
      requires Run(c, past) && After(c, past) == Abs()
      modifies this
      ensures Onward(old(Abs()), Abs(), lim) && mode == Firing(t) && |DueTimers(Abs())| < |DueTimers(old(Abs()))|
      ensures t in timers && Run(c, es) && After(c, es) == Abs()
    {
      ghost var b := Abs();
      t := rows[|rows| - 1][0];
      FireOnward(b, lim);
      RunExtends(c, past, Fire);
      es := past + [Fire];
      Remove(t);
      mode, g := Firing(t), FireStep(b).g;
    }

    /** After the callback. */
    method EndFiring(t: Id, ghost lim: Limits, ghost c: Conf, ghost past: seq<Event>) returns (ghost es: seq<Event>)
      requires Inv(Abs()) && mode == Firing(t) && t in timers && Limited(Abs(), lim)
      requires Run(c, past) && After(c, past) == Abs()
      modifies this
      ensures Onward(old(Abs()), Abs(), lim) && mode == Checking
      ensures Run(c, es) && After(c, es) == Abs()
    {
      FireEndOnward(Abs(), lim);
      RunExtends(c, past, FireEnd);
      es := past + [FireEnd];
      FinishFiring(t);
    }

    /** One timer of rt_timer_check, which is due: it leaves the rows, its callback runs, and it starts again
        if it is periodic and still activated. */
    method FireFirst(calls: seq<Event>, ghost lim: Limits, ghost c: Conf, ghost past: seq<Event>)
      returns (ghost es: seq<Event>)
      requires Inv(Abs()) && mode == Checking && HeadIsDue(Abs().s) && Limited(Abs(), lim)
               && CallsOk(timers.Keys, lim, calls)
      requires Run(c, past) && After(c, past) == Abs()
      modifies this
      ensures Onward(old(Abs()), Abs(), lim) && mode == Checking && |DueTimers(Abs())| < |DueTimers(old(Abs()))|
      ensures Run(c, es) && After(c, es) == Abs()
    {
      ghost var b := Abs();
      var t;
      t, es := BeginFiring(lim, c, past);
      ghost var f := Abs();
      es := Callback(calls, lim, c, es);
      ghost var e := Abs();
      es := EndFiring(t, lim, c, es);
      OnwardTrans(f, e, Abs(), lim);
      OnwardTrans(b, f, Abs(), lim);
    }

    /** What rt_timer_check does with a timer after its callback. */
    method FinishFiring(t: Id)
      requires Inv(Abs()) && mode == Firing(t) && Enabled(Abs(), FireEnd)
      modifies this
      ensures Abs() == FireEndStep(old(Abs()))
    {
      RecordKeeps(Abs(), t, timers[t].(active := false));
      if timers[t].periodic && timers[t].active {
        timers := timers[t := timers[t].(active := false)];
        Start(t);
      } else {
        timers := timers[t := timers[t].(active := false)];
      }
      mode := Checking;
    }

    /** The test of rt_timer_check: there is a first timer, and its time has come. */
    method FirstIsDue() returns (due: bool)
      requires Inv(Abs())
      ensures due == HeadIsDue(Abs().s)
    {
      var q := rows[|rows| - 1];
      if q == [] {
        return false;
      }
      HeadDue(Abs());
      due := Minus(tick, timeout[q[0]]) < HALF;
    }

    /** rt_timer_check, with what each callback in turn does. It is a run of the steps above, which ends with
        no timer due. */
    method Check(script: seq<seq<Event>>, ghost lim: Limits) returns (ghost es: seq<Event>)
      requires Inv(Abs()) && mode == Checking && Limited(Abs(), lim)
      requires forall i | 0 <= i < |script| :: CallsOk(timers.Keys, lim, script[i])
      modifies this
      ensures Run(old(Abs()), es) && After(old(Abs()), es) == Abs() && mode == Idle && g.now == old(g).now
      ensures DueTimers(Abs()) == {}
    {
      ghost var c := Abs();
      es := [];
      var i := 0;
      var due := FirstIsDue();
      while due
        invariant Onward(c, Abs(), lim) && mode == Checking && due == HeadIsDue(Abs().s)
        invariant Run(c, es) && After(c, es) == Abs()
        decreases |DueTimers(Abs())|
      {
        ghost var b := Abs();
        var calls := if i < |script| then script[i] else [];
        es := FireFirst(calls, lim, c, es);
        OnwardTrans(c, b, Abs(), lim);
        i := i + 1;
        due := FirstIsDue();
      }
      CheckEnds(Abs());
      RunExtends(c, es, CheckEnd);
      es := es + [CheckEnd];
      mode := Idle;
    }

    /** A tick and its check: rt_tick_incread without the time slices. */
    method Advance(script: seq<seq<Event>>, ghost lim: Limits) returns (ghost es: seq<Event>)
      requires Inv(Abs()) && mode == Idle && Limited(Abs(), lim)
      requires forall i | 0 <= i < |script| :: CallsOk(timers.Keys, lim, script[i])
      modifies this
      ensures Run(old(Abs()), es) && After(old(Abs()), es) == Abs() && mode == Idle
      ensures g.now == old(g).now + 1 && DueTimers(Abs()) == {}
    {
      ghost var c := Abs();
      TickKeeps(c);
      tick := (tick + 1) % U32;
      mode, g := Checking, g.(now := g.now + 1);
      es := Check(script, lim);
      assert ([Tick] + es)[1..] == es;
      es := [Tick] + es;
    }
  }

  lemma CheckEnds(c: Conf)
    requires Inv(c) && c.s.mode == Checking && !HeadIsDue(c.s)
    ensures Inv(Step(c, CheckEnd)) && DueTimers(Step(c, CheckEnd)) == {}
  {
    CheckEndKeeps(c);
    forall t | t in Members(Last(c.s.rows)) ensures t in c.g.due && c.g.due[t] > c.g.now {
      NoneDue(c, t);
    }
  }
}
