/** The rows of the timer list: the last row holds every timer, in the order of the deadlines and, among
    equal deadlines, of the starts; a row above holds the timers that are high enough. The deadlines
    are unbounded numbers here; the program compares their 32-bit residues. */
module SkipList {
  import opened Lists
  import opened Words

  const HALF := 0x7FFF_FFFF           // RT_TICK_MAX / 2

  /** A timer with an earlier deadline, or with the same one but started earlier, comes first. */
  ghost predicate Precedes(due: map<Id, nat>, stamp: map<Id, nat>, x: Id, y: Id) {
    x in due && y in due && x in stamp && y in stamp && (due[x] < due[y] || (due[x] == due[y] && stamp[x] < stamp[y]))
  }

  ghost predicate PrecedesAll(due: map<Id, nat>, stamp: map<Id, nat>, x: Id, q: seq<Id>) {
    x in due && x in stamp && forall y {:trigger Precedes(due, stamp, x, y)} | y in Members(q) ::
        Precedes(due, stamp, x, y)
  }

  ghost predicate Sorted(q: seq<Id>, due: map<Id, nat>, stamp: map<Id, nat>) {
    q == [] || (PrecedesAll(due, stamp, q[0], q[1..]) && Sorted(q[1..], due, stamp))
  }

  /** The place behind all timers whose deadline is not after `d`. */
  ghost function UpperBound(q: seq<Id>, due: map<Id, nat>, d: nat): (n: nat)
    requires Members(q) <= due.Keys
    ensures n <= |q|
  {
    if q == [] || (assert q[0] in Members(q); due[q[0]] > d) then 0
    else (assert q == [q[0]] + q[1..]; 1 + UpperBound(q[1..], due, d))
  }

  /** `x` put at this place. */
  ghost function Insert(q: seq<Id>, due: map<Id, nat>, x: Id, d: nat): seq<Id>
    requires Members(q) <= due.Keys
  {
    if q == [] || (assert q[0] in Members(q); due[q[0]] > d) then [x] + q
    else (MembersTail(q); [q[0]] + Insert(q[1..], due, x, d))
  }

  lemma {:induction false} InsertIsAt(q: seq<Id>, due: map<Id, nat>, x: Id, d: nat)
    requires Members(q) <= due.Keys
    ensures Insert(q, due, x, d) == InsertAt(q, UpperBound(q, due, d), x)
  {
    if q != [] {
      MembersTail(q);
      if due[q[0]] <= d {
        InsertIsAt(q[1..], due, x, d);
        InsertAtNext(q, UpperBound(q[1..], due, d), x);
      } else {
        assert InsertAt(q, 0, x) == [x] + q;
      }
    } else {
      assert InsertAt(q, 0, x) == [x] + q;
    }
  }

  lemma InsertAtNext(q: seq<Id>, n: nat, x: Id)
    requires q != [] && n < |q|
    ensures InsertAt(q, n + 1, x) == [q[0]] + InsertAt(q[1..], n, x)
  {}

  /** The timers of at least this height. */
  ghost function Above(q: seq<Id>, height: map<Id, nat>, k: nat): seq<Id> {
    if q == [] then []
    else if q[0] in height && height[q[0]] >= k then [q[0]] + Above(q[1..], height, k)
    else Above(q[1..], height, k)
  }

  lemma MembersCons(x: Id, q: seq<Id>)
    ensures Members([x] + q) == {x} + Members(q) && ([x] + q)[1..] == q
  {}

  lemma SortedCons(x: Id, q: seq<Id>, due: map<Id, nat>, stamp: map<Id, nat>)
    requires PrecedesAll(due, stamp, x, q) && Sorted(q, due, stamp)
    ensures Sorted([x] + q, due, stamp)
  {
    assert ([x] + q)[1..] == q;
  }

  lemma {:induction false} SortedNoDuplicates(q: seq<Id>, due: map<Id, nat>, stamp: map<Id, nat>)
    requires Sorted(q, due, stamp)
    ensures NoDuplicates(q) && Members(q) <= due.Keys && Members(q) <= stamp.Keys
  {
    if q != [] {
      MembersTail(q);
      SortedNoDuplicates(q[1..], due, stamp);
      assert !Precedes(due, stamp, q[0], q[0]);
      NoDuplicatesTail(q);
    }
  }

  lemma {:induction false} SortedUnlink(q: seq<Id>, due: map<Id, nat>, stamp: map<Id, nat>, t: Id)
    requires Sorted(q, due, stamp)
    ensures Sorted(Without(q, t), due, stamp)
  {
    if q != [] && q[0] != t {
      SortedUnlink(q[1..], due, stamp, t);
      SortedNoDuplicates(q[1..], due, stamp);
      WithoutMembers(q[1..], t);
      SortedCons(q[0], Without(q[1..], t), due, stamp);
    }
  }

  /** The records of timers that are not linked do not matter. */
  lemma {:induction false} SortedFrame(q: seq<Id>, due: map<Id, nat>, stamp: map<Id, nat>, due': map<Id, nat>,
                                       stamp': map<Id, nat>)
    requires Sorted(q, due, stamp)
    requires forall x | x in Members(q) ::
               x in due' && x in stamp' && x in due && x in stamp && due'[x] == due[x] && stamp'[x] == stamp[x]
    ensures Sorted(q, due', stamp')
  {
    if q != [] {
      MembersTail(q);
      SortedFrame(q[1..], due, stamp, due', stamp');
      forall y | y in Members(q[1..]) ensures Precedes(due', stamp', q[0], y) {
        assert Precedes(due, stamp, q[0], y);
      }
    }
  }

  ghost predicate Latest(stamp: map<Id, nat>, x: Id, q: seq<Id>) {
    x in stamp && forall y | y in Members(q) :: y in stamp && stamp[y] < stamp[x]
  }

  /** Insertion at the upper bound keeps the order, and puts the latest start last among its equals. */
  lemma {:induction false} SortedInsert(q: seq<Id>, due: map<Id, nat>, stamp: map<Id, nat>, x: Id)
    requires Sorted(q, due, stamp) && x in due && Members(q) <= due.Keys && Latest(stamp, x, q)
    ensures Sorted(Insert(q, due, x, due[x]), due, stamp) && Members(Insert(q, due, x, due[x])) == Members(q) + {x}
  {
    if q == [] {
      MembersCons(x, q);
    } else {
      MembersTail(q);
      if due[q[0]] > due[x] {
        MembersCons(x, q);
        forall y | y in Members(q) ensures Precedes(due, stamp, x, y) {
          assert y != q[0] ==> Precedes(due, stamp, q[0], y);
        }
        SortedCons(x, q, due, stamp);
      } else {
        SortedInsert(q[1..], due, stamp, x);
        var r := Insert(q[1..], due, x, due[x]);
        MembersCons(q[0], r);
        assert Precedes(due, stamp, q[0], x);
        SortedCons(q[0], r, due, stamp);
      }
    }
  }

  // Rows.

  lemma {:induction false} AboveMembers(q: seq<Id>, height: map<Id, nat>, k: nat, x: Id)
    ensures x in Members(Above(q, height, k)) <==> x in Members(q) && x in height && height[x] >= k
  {
    if q != [] {
      MembersTail(q);
      AboveMembers(q[1..], height, k, x);
    }
  }

  lemma {:induction false} AboveSorted(q: seq<Id>, height: map<Id, nat>, k: nat, due: map<Id, nat>, stamp: map<Id, nat>)
    requires Sorted(q, due, stamp)
    ensures Sorted(Above(q, height, k), due, stamp)
  {
    if q != [] {
      AboveSorted(q[1..], height, k, due, stamp);
      if q[0] in height && height[q[0]] >= k {
        forall y | y in Members(Above(q[1..], height, k)) ensures Precedes(due, stamp, q[0], y) {
          AboveMembers(q[1..], height, k, y);
        }
        SortedCons(q[0], Above(q[1..], height, k), due, stamp);
      }
    }
  }

  lemma {:induction false} AboveUnlink(q: seq<Id>, height: map<Id, nat>, k: nat, t: Id)
    requires NoDuplicates(q)
    ensures Above(Without(q, t), height, k) == Without(Above(q, height, k), t)
  {
    if q != [] {
      NoDuplicatesTail(q);
      if q[0] == t {
        AboveMembers(q[1..], height, k, t);
        WithoutNone(Above(q[1..], height, k), t);
        if q[0] in height && height[q[0]] >= k {
          assert ([q[0]] + Above(q[1..], height, k))[1..] == Above(q[1..], height, k);
        }
      } else {
        AboveUnlink(q[1..], height, k, t);
        MembersCons(q[0], Without(q[1..], t));
        MembersCons(q[0], Above(q[1..], height, k));
      }
    }
  }

  lemma {:induction false} AboveFrame(q: seq<Id>, height: map<Id, nat>, height': map<Id, nat>, k: nat)
    requires forall x | x in Members(q) :: x in height && x in height' && height[x] == height'[x]
    ensures Above(q, height, k) == Above(q, height', k)
  {
    if q != [] {
      MembersTail(q);
      AboveFrame(q[1..], height, height', k);
    }
  }

  /** A row is a part of the row below. */
  lemma {:induction false} AboveAbove(q: seq<Id>, height: map<Id, nat>, k: nat)
    requires k > 0
    ensures Above(Above(q, height, k - 1), height, k) == Above(q, height, k)
  {
    if q != [] {
      AboveAbove(q[1..], height, k);
      MembersCons(q[0], Above(q[1..], height, k - 1));
    }
  }

  lemma {:induction false} SortedPair(q: seq<Id>, due: map<Id, nat>, stamp: map<Id, nat>, i: nat, j: nat)
    requires Sorted(q, due, stamp) && i < j < |q|
    ensures Precedes(due, stamp, q[i], q[j])
  {
    if i == 0 {
      assert q[1..][j - 1] == q[j] && q[j] in Members(q[1..]);
    } else {
      SortedPair(q[1..], due, stamp, i - 1, j - 1);
    }
  }

  lemma {:induction false} AboveInsert(q: seq<Id>, height: map<Id, nat>, k: nat, due: map<Id, nat>,
                                       stamp: map<Id, nat>, x: Id)
    requires Sorted(q, due, stamp) && Members(q) <= due.Keys && x in due && x in height
    ensures Members(Above(q, height, k)) <= due.Keys
    ensures var a := Above(q, height, k);
            Above(Insert(q, due, x, due[x]), height, k) == if height[x] >= k then Insert(a, due, x, due[x]) else a
  {
    AboveInside(q, height, k, due.Keys);
    if q == [] {
      MembersCons(x, q);
    } else {
      MembersTail(q);
      if due[q[0]] > due[x] {
        MembersCons(x, q);
        AboveFirstLater(q, height, k, due, stamp, due[x]);
      } else {
        AboveInsert(q[1..], height, k, due, stamp, x);
        MembersCons(q[0], Insert(q[1..], due, x, due[x]));
        MembersCons(q[0], Above(q[1..], height, k));
      }
    }
  }

  lemma AboveInside(q: seq<Id>, height: map<Id, nat>, k: nat, ids: set<Id>)
    requires Members(q) <= ids
    ensures Members(Above(q, height, k)) <= ids
  {
    forall y | y in Members(Above(q, height, k)) ensures y in ids {
      AboveMembers(q, height, k, y);
    }
  }

  lemma AboveFirstLater(q: seq<Id>, height: map<Id, nat>, k: nat, due: map<Id, nat>, stamp: map<Id, nat>, d: nat)
    requires Sorted(q, due, stamp) && q != [] && Members(q) <= due.Keys && q[0] in due && due[q[0]] > d
    requires Members(Above(q, height, k)) <= due.Keys
    ensures UpperBound(Above(q, height, k), due, d) == 0
    ensures forall x :: Insert(Above(q, height, k), due, x, d) == [x] + Above(q, height, k)
  {
    var a := Above(q, height, k);
    if a != [] && a[0] != q[0] {
      assert a[0] in Members(a);
      AboveMembers(q, height, k, a[0]);
      MembersTail(q);
      assert Precedes(due, stamp, q[0], a[0]);
    }
  }

  // The search compares 32-bit residues of the deadlines.

  /** The difference a - b of two 32-bit ticks. */
  function Minus(a: nat, b: nat): nat {
    (a - b) % U32
  }

  /** The test of the search: `t` times out after `n`. */
  predicate Later(t: nat, n: nat) {
    0 < Minus(t, n) < HALF
  }

  lemma MinusResidues(a: nat, b: nat)
    ensures Minus(a % U32, b % U32) == (a - b) % U32
  {
    var x, q := a % U32 - b % U32, a / U32 - b / U32;
    assert a - b == q * U32 + x;
    assert (a - b) % U32 == x % U32;
  }

  /** Within half the range the comparison of residues is that of the deadlines. */
  lemma LaterIsLater(d: nat, e: nat)
    requires -HALF <= d - e < HALF
    ensures Later(d % U32, e % U32) <==> d > e
  {
    MinusResidues(d, e);
    if d < e {
      assert (d - e) % U32 == d - e + U32;
    }
  }

  /** ... and not much beyond it. */
  lemma LaterExact(d: nat, e: nat)
    requires -U32 < d - e < U32
    ensures (Later(d % U32, e % U32) <==> d > e) <==> HALF - U32 <= d - e < HALF
  {
    MinusResidues(d, e);
    if d < e {
      assert (d - e) % U32 == d - e + U32;
    }
  }

  /** The test of rt_timer_check: a timer with the deadline `d` is due at `now`. */
  lemma DueIsDue(d: nat, now: nat)
    requires -HALF < now - d < HALF
    ensures Minus(now % U32, d % U32) < HALF <==> d <= now
  {
    MinusResidues(now, d);
    if now < d {
      assert (now - d) % U32 == now - d + U32;
    }
  }

  // The search through the rows.

  /** Along one row from position i: past the timers that do not time out later. */
  function Walk(row: seq<Id>, timeout: map<Id, nat>, n: nat, i: nat): (r: nat)
    requires i <= |row| && forall t | t in row :: t in timeout
    ensures i <= r <= |row|
    decreases |row| - i
  {
    if i == |row| || (assert row[i] in row; Later(timeout[row[i]], n)) then i else Walk(row, timeout, n, i + 1)
  }

  function IndexOf(row: seq<Id>, t: Id): (i: nat)
    ensures i <= |row|
    ensures i < |row| ==> row[i] == t
  {
    if row == [] || row[0] == t then 0 else 1 + IndexOf(row[1..], t)
  }

  /** One row down from the position p: the same timer, or the head of the row. */
  function Down(row: seq<Id>, p: nat, below: seq<Id>): (i: nat)
    requires p <= |row|
    ensures i <= |below|
  {
    if p == 0 then 0
    else
      var i := IndexOf(below, row[p - 1]);
      if i < |below| then i + 1 else i
  }

  ghost predicate Residues(row: seq<Id>, due: map<Id, nat>, timeout: map<Id, nat>) {
    forall t | t in row :: t in due && t in timeout && timeout[t] == due[t] % U32
  }

  /** The deadlines lie within half the range of `d`. */
  ghost predicate Window(row: seq<Id>, due: map<Id, nat>, d: nat) {
    forall t | t in row :: t in due && -HALF <= due[t] - d < HALF
  }

  lemma {:induction false} BoundSplits(row: seq<Id>, due: map<Id, nat>, stamp: map<Id, nat>, d: nat, i: nat)
    requires Sorted(row, due, stamp) && Members(row) <= due.Keys && i < |row|
    ensures row[i] in due && (i < UpperBound(row, due, d) <==> due[row[i]] <= d)
  {
    MembersTail(row);
    if i > 0 {
      BoundSplits(row[1..], due, stamp, d, i - 1);
      assert row[1..][i - 1] == row[i] && row[i] in Members(row[1..]);
      assert Precedes(due, stamp, row[0], row[i]);
    }
  }

  /** From anywhere at or before the upper bound the walk ends at the upper bound. */
  lemma {:induction false} WalkToBound(row: seq<Id>, due: map<Id, nat>, stamp: map<Id, nat>, timeout: map<Id, nat>,
                                       d: nat, i: nat)
    requires Sorted(row, due, stamp) && Members(row) <= due.Keys
    requires Residues(row, due, timeout) && Window(row, due, d) && i <= UpperBound(row, due, d)
    ensures Walk(row, timeout, d % U32, i) == UpperBound(row, due, d)
    decreases |row| - i
  {
    if i < |row| {
      BoundSplits(row, due, stamp, d, i);
      assert row[i] in row;
      LaterIsLater(due[row[i]], d);
      if due[row[i]] <= d {
        WalkToBound(row, due, stamp, timeout, d, i + 1);
      }
    }
  }

  lemma {:induction false} IndexOfMember(row: seq<Id>, t: Id)
    requires t in row
    ensures IndexOf(row, t) < |row|
  {
    if row[0] != t {
      assert row == [row[0]] + row[1..];
      IndexOfMember(row[1..], t);
    }
  }

  /** The place found in a row is, one row down, at or before the upper bound. */
  lemma DownBeforeBound(row: seq<Id>, below: seq<Id>, due: map<Id, nat>, stamp: map<Id, nat>, d: nat)
    requires Sorted(row, due, stamp) && Members(row) <= due.Keys
    requires Sorted(below, due, stamp) && Members(below) <= due.Keys && Members(row) <= Members(below)
    ensures Down(row, UpperBound(row, due, d), below) <= UpperBound(below, due, d)
  {
    var p := UpperBound(row, due, d);
    if p > 0 {
      var t := row[p - 1];
      assert t in Members(row);
      IndexOfMember(below, t);
      BoundSplits(row, due, stamp, d, p - 1);
      BoundSplits(below, due, stamp, d, IndexOf(below, t));
    }
  }

  ghost predicate RowOk(row: seq<Id>, due: map<Id, nat>, stamp: map<Id, nat>, timeout: map<Id, nat>, d: nat) {
    Sorted(row, due, stamp) && Members(row) <= due.Keys && Residues(row, due, timeout) && Window(row, due, d)
  }

  /** The search from row l on, entered at position i. */
  function Search(rows: seq<seq<Id>>, timeout: map<Id, nat>, n: nat, l: nat, i: nat): (p: seq<nat>)
    requires l < |rows| && i <= |rows[l]| && Timed(rows, timeout)
    ensures |p| == |rows| - l && forall m | 0 <= m < |p| :: p[m] <= |rows[l + m]|
    decreases |rows| - l
  {
    var p := Walk(rows[l], timeout, n, i);
    if l + 1 == |rows| then [p]
    else [p] + Search(rows, timeout, n, l + 1, Down(rows[l], p, rows[l + 1]))
  }

  /** What the search from row l, left at position i, still adds to the places. */
  function SearchBelow(rows: seq<seq<Id>>, timeout: map<Id, nat>, n: nat, l: nat, i: nat): seq<nat>
    requires l < |rows| && i <= |rows[l]| && Timed(rows, timeout)
  {
    if l + 1 == |rows| then [] else Search(rows, timeout, n, l + 1, Down(rows[l], i, rows[l + 1]))
  }

  lemma SearchOneRow(rows: seq<seq<Id>>, timeout: map<Id, nat>, n: nat, l: nat, i: nat, places: seq<nat>)
    requires l < |rows| && i <= |rows[l]| && Timed(rows, timeout)
    ensures var p := Walk(rows[l], timeout, n, i);
            places + Search(rows, timeout, n, l, i) == (places + [p]) + SearchBelow(rows, timeout, n, l, p)
  {}

  ghost predicate RowsOk(rows: seq<seq<Id>>, due: map<Id, nat>, stamp: map<Id, nat>, timeout: map<Id, nat>, d: nat) {
    forall m {:trigger RowOk(rows[m], due, stamp, timeout, d)} | 0 <= m < |rows| ::
        RowOk(rows[m], due, stamp, timeout, d)
  }

  ghost predicate Within(rows: seq<seq<Id>>, m: int) {
    0 <= m && m + 1 < |rows| ==> Members(rows[m]) <= Members(rows[m + 1])
  }

  /** Every row is contained in the row below. */
  ghost predicate Nested(rows: seq<seq<Id>>) {
    forall m {:trigger Within(rows, m)} :: Within(rows, m)
  }

  ghost predicate Timed(rows: seq<seq<Id>>, timeout: map<Id, nat>) {
    forall m, t | 0 <= m < |rows| && t in rows[m] :: t in timeout
  }

  /** The search through the rows ends, in every row, where a scan of that row alone would. */
  lemma {:induction false} SearchIsLinear(rows: seq<seq<Id>>, due: map<Id, nat>, stamp: map<Id, nat>,
                                          timeout: map<Id, nat>, d: nat, l: nat, i: nat, k: nat)
    requires l <= k < |rows| && i <= |rows[l]| && Timed(rows, timeout)
    requires RowsOk(rows, due, stamp, timeout, d) && Nested(rows)
    requires RowOk(rows[l], due, stamp, timeout, d) && RowOk(rows[k], due, stamp, timeout, d)
             && i <= UpperBound(rows[l], due, d)
    ensures Search(rows, timeout, d % U32, l, i)[k - l] == UpperBound(rows[k], due, d)
    ensures Search(rows, timeout, d % U32, l, i)[k - l] == Walk(rows[k], timeout, d % U32, 0)
    decreases |rows| - l
  {
    WalkToBound(rows[l], due, stamp, timeout, d, i);
    WalkToBound(rows[k], due, stamp, timeout, d, 0);
    if l < k {
      assert RowOk(rows[l + 1], due, stamp, timeout, d) && Within(rows, l);
      DownBeforeBound(rows[l], rows[l + 1], due, stamp, d);
      var j := Down(rows[l], UpperBound(rows[l], due, d), rows[l + 1]);
      SearchIsLinear(rows, due, stamp, timeout, d, l + 1, j, k);
    }
  }

  // All rows together.

  ghost predicate RowIs(rows: seq<seq<Id>>, height: map<Id, nat>, l: int) {
    0 <= l < |rows| ==> rows[l] == Above(rows[|rows| - 1], height, |rows| - l)
  }

  /** The last row holds every linked timer, and row l those of at least the height |rows| - l. */
  ghost predicate Layered(rows: seq<seq<Id>>, height: map<Id, nat>) {
    && rows != []
    && (forall t | t in Members(rows[|rows| - 1]) :: t in height && height[t] >= 1)
    && (forall l {:trigger RowIs(rows, height, l)} :: RowIs(rows, height, l))
  }

  function UnlinkAll(rows: seq<seq<Id>>, t: Id): seq<seq<Id>> {
    seq(|rows|, l requires 0 <= l < |rows| => Without(rows[l], t))
  }

  /** `x` put into the lowest `h` rows, each at its place. */
  function InsertAll(rows: seq<seq<Id>>, places: seq<nat>, x: Id, h: nat): seq<seq<Id>>
    requires |places| == |rows| && forall l | 0 <= l < |rows| :: places[l] <= |rows[l]|
  {
    seq(|rows|, l requires 0 <= l < |rows| => if l + h >= |rows| then InsertAt(rows[l], places[l], x) else rows[l])
  }

  lemma InsertAllNext(rows: seq<seq<Id>>, places: seq<nat>, x: Id, h: nat)
    requires |places| == |rows| && (forall l | 0 <= l < |rows| :: places[l] <= |rows[l]|) && h < |rows|
    ensures InsertAll(rows, places, x, 0) == rows
    ensures var l := |rows| - 1 - h;
            && InsertAll(rows, places, x, h)[l] == rows[l]
            && InsertAll(rows, places, x, h + 1) == InsertAll(rows, places, x, h)[l := InsertAt(rows[l], places[l], x)]
  {}

  lemma LayeredUnlink(rows: seq<seq<Id>>, height: map<Id, nat>, t: Id)
    requires Layered(rows, height) && NoDuplicates(rows[|rows| - 1])
    ensures Layered(UnlinkAll(rows, t), height)
    ensures Members(UnlinkAll(rows, t)[|rows| - 1]) == Members(rows[|rows| - 1]) - {t}
  {
    var last, rows' := rows[|rows| - 1], UnlinkAll(rows, t);
    WithoutMembers(last, t);
    forall l ensures RowIs(rows', height, l) {
      if 0 <= l < |rows| {
        assert RowIs(rows, height, l);
        AboveUnlink(last, height, |rows| - l, t);
      }
    }
  }

  lemma LayeredNested(rows: seq<seq<Id>>, height: map<Id, nat>)
    requires Layered(rows, height)
    ensures Nested(rows)
    ensures forall l | 0 <= l < |rows| :: Members(rows[l]) <= Members(rows[|rows| - 1])
  {
    var last := rows[|rows| - 1];
    forall m ensures Within(rows, m) {
      if 0 <= m && m + 1 < |rows| {
        assert RowIs(rows, height, m) && RowIs(rows, height, m + 1);
        forall t | t in Members(rows[m]) ensures t in Members(rows[m + 1]) {
          AboveMembers(last, height, |rows| - m, t);
          AboveMembers(last, height, |rows| - m - 1, t);
        }
      }
    }
    forall l | 0 <= l < |rows| ensures Members(rows[l]) <= Members(last) {
      assert RowIs(rows, height, l);
      AboveInside(last, height, |rows| - l, Members(last));
    }
  }

  lemma RowInsert(last: seq<Id>, row: seq<Id>, height: map<Id, nat>, k: nat, due: map<Id, nat>, stamp: map<Id, nat>,
                  x: Id)
    requires Sorted(last, due, stamp) && Members(last) <= due.Keys && x in due && x in height
    requires row == Above(last, height, k) && Members(row) <= due.Keys
    ensures Above(Insert(last, due, x, due[x]), height, k)
            == if height[x] >= k then InsertAt(row, UpperBound(row, due, due[x]), x) else row
  {
    AboveInsert(last, height, k, due, stamp, x);
    InsertIsAt(row, due, x, due[x]);
  }

  ghost predicate AtBounds(rows: seq<seq<Id>>, due: map<Id, nat>, d: nat, places: seq<nat>) {
    && |places| == |rows|
    && forall l | 0 <= l < |rows| :: Members(rows[l]) <= due.Keys
        && places[l] == UpperBound(rows[l], due, d) <= |rows[l]|
  }

  lemma LastInserted(rows: seq<seq<Id>>, due: map<Id, nat>, x: Id, h: nat, places: seq<nat>)
    requires rows != [] && x in due && 1 <= h && AtBounds(rows, due, due[x], places)
    ensures InsertAll(rows, places, x, h)[|rows| - 1] == Insert(rows[|rows| - 1], due, x, due[x])
    ensures Members(InsertAll(rows, places, x, h)[|rows| - 1]) == Members(rows[|rows| - 1]) + {x}
  {
    InsertIsAt(rows[|rows| - 1], due, x, due[x]);
  }

  lemma RowInserted(rows: seq<seq<Id>>, height: map<Id, nat>, due: map<Id, nat>, stamp: map<Id, nat>, x: Id, h: nat,
                    places: seq<nat>, l: nat)
    requires Layered(rows, height) && Sorted(rows[|rows| - 1], due, stamp) && l < |rows|
    requires x in due && x !in Members(rows[|rows| - 1]) && 1 <= h && AtBounds(rows, due, due[x], places)
    ensures InsertAll(rows, places, x, h)[l] == Above(Insert(rows[|rows| - 1], due, x, due[x]), height[x := h],
            |rows| - l)
  {
    var last := rows[|rows| - 1];
    assert RowIs(rows, height, l);
    AboveFrame(last, height, height[x := h], |rows| - l);
    RowInsert(last, rows[l], height[x := h], |rows| - l, due, stamp, x);
  }

  /** Insertion in the rows of its height, each at its upper bound, layers the new timer with the others. */
  lemma LayeredInsert(rows: seq<seq<Id>>, height: map<Id, nat>, due: map<Id, nat>, stamp: map<Id, nat>, x: Id, h: nat,
                      places: seq<nat>)
    requires Layered(rows, height) && Sorted(rows[|rows| - 1], due, stamp)
    requires x in due && x !in Members(rows[|rows| - 1]) && 1 <= h && AtBounds(rows, due, due[x], places)
    ensures var rows' := InsertAll(rows, places, x, h);
            && Layered(rows', height[x := h])
            && rows'[|rows| - 1] == Insert(rows[|rows| - 1], due, x, due[x])
  {
    var rows', height' := InsertAll(rows, places, x, h), height[x := h];
    LastInserted(rows, due, x, h, places);
    forall l ensures RowIs(rows', height', l) {
      if 0 <= l < |rows| {
        RowInserted(rows, height, due, stamp, x, h, places, l);
      }
    }
  }

  /** The zero bit pairs at the end of the insertion counter decide the height. */
  function ZeroPairs(n: nat, k: nat): (z: nat)
    ensures z <= k
    decreases k
  {
    if k == 0 || n % 4 != 0 then 0 else 1 + ZeroPairs(n / 4, k - 1)
  }

  function Pow4(j: nat): nat {
    if j == 0 then 1 else 4 * Pow4(j - 1)
  }

  function Times(q: nat, m: nat): nat {
    q * m
  }

  ghost predicate Divides(m: nat, n: nat) {
    exists q: nat :: Times(q, m) == n
  }

  /** The last j bit pairs of the counter are zero. */
  lemma {:induction false} ZeroPairsCount(n: nat, k: nat, j: nat)
    requires j <= k
    ensures j <= ZeroPairs(n, k) <==> Divides(Pow4(j), n)
    decreases j
  {
    if j == 0 {
      assert Times(n, 1) == n;
    } else {
      var m := Pow4(j - 1);
      if n % 4 == 0 {
        ZeroPairsCount(n / 4, k - 1, j - 1);
      }
      if Divides(m, n / 4) && n % 4 == 0 {
        var q: nat :| Times(q, m) == n / 4;
        Regroup(q, m);
        assert Times(q, 4 * m) == n;
      }
      if Divides(4 * m, n) {
        var q: nat :| Times(q, 4 * m) == n;
        Regroup(q, m);
        assert Times(q, m) == n / 4 && n % 4 == 0;
      }
    }
  }

  lemma Regroup(q: nat, m: nat)
    ensures Times(q, 4 * m) == 4 * Times(q, m)
  {}
}
