/** A flat memory addressed by byte, as an array of cells. Block headers and block payloads share
    the same cells, so that a header write that strayed into a payload would be visible. A header
    occupies `HeaderSize` cells from its address; a header field is the cell at a fixed offset
    inside it (the remaining cells of a wider field are never looked at). */
module FlatMemory {
  import opened Lists

  /** Two headers do not overlap. Naming this keeps the pairs a proof looks at down to those it
      mentions. */
  ghost predicate Clear(x: int, y: int, headerSize: int) {
    x + headerSize <= y || y + headerSize <= x
  }

  /** The header addresses `items` lie inside memory and their headers do not overlap. */
  ghost predicate Apart(items: set<int>, length: int, headerSize: int) {
    && (forall x | x in items :: 0 <= x && x + headerSize <= length)
    && (forall x, y {:trigger Clear(x, y, headerSize)} | x in items && y in items && x != y :: Clear(x, y, headerSize))
  }

  ghost predicate InHeader(items: set<int>, headerSize: int, a: int) {
    exists x :: x in items && x <= a < x + headerSize
  }

  /** Field `f` of the header at `x`. */
  function Field(m: seq<int>, x: int, f: int): int {
    if 0 <= x + f < |m| then m[x + f] else 0
  }

  /** Every cell outside the headers of `items` holds the same value in both memories. */
  ghost predicate SamePayload(m0: seq<int>, m1: seq<int>, items: set<int>, headerSize: int) {
    && |m0| == |m1|
    && (forall a | 0 <= a < |m0| && !InHeader(items, headerSize, a) :: m1[a] == m0[a])
  }

  /** Writes one header field; every other field of every header and every payload cell is kept. */
  method Put(mem: array<int>, x: int, f: int, v: int, ghost items: set<int>, ghost headerSize: int)
    requires Apart(items, mem.Length, headerSize) && x in items && 0 <= f < headerSize
    modifies mem
    ensures Field(mem[..], x, f) == v
    ensures forall y, g | y in items && 0 <= g < headerSize && (y != x || g != f) ::
              Field(mem[..], y, g) == Field(old(mem[..]), y, g)
    ensures SamePayload(old(mem[..]), mem[..], items, headerSize)
  {
    mem[x + f] := v;
    forall y, g | y in items && 0 <= g < headerSize && (y != x || g != f)
      ensures Field(mem[..], y, g) == Field(old(mem[..]), y, g)
    {
      assert y != x ==> Clear(x, y, headerSize);
    }
    assert InHeader(items, headerSize, x + f);
  }

  function Succ(s: seq<int>, i: nat): int
    requires i < |s|
  {
    if i + 1 < |s| then s[i + 1] else s[0]
  }

  function Pred(s: seq<int>, i: nat): int
    requires i < |s|
  {
    if i == 0 then s[|s| - 1] else s[i - 1]
  }

  /** The two link fields of the i-th header, `off` (forward) and `off + 4` (backward). */
  ghost predicate LinkedAt(m: seq<int>, off: int, s: seq<int>, i: nat)
    requires i < |s|
  {
    Field(m, s[i], off) == Succ(s, i) && Field(m, s[i], off + 4) == Pred(s, i)
  }

  /** The headers in `s` form a circular doubly linked list. */
  ghost predicate Ring(m: seq<int>, off: int, s: seq<int>) {
    && NoDuplicates(s)
    && (forall i | 0 <= i < |s| :: LinkedAt(m, off, s, i))
  }

  lemma RingKept(m0: seq<int>, m1: seq<int>, off: int, s: seq<int>)
    requires Ring(m0, off, s)
    requires forall y | y in s :: Field(m1, y, off) == Field(m0, y, off)
    requires forall y | y in s :: Field(m1, y, off + 4) == Field(m0, y, off + 4)
    ensures Ring(m1, off, s)
  {
    forall i | 0 <= i < |s| ensures LinkedAt(m1, off, s, i) {
      assert LinkedAt(m0, off, s, i) && s[i] in s;
    }
  }

  /** Only the two link fields at `off` may differ. */
  ghost predicate SameOtherFields(m0: seq<int>, m1: seq<int>, items: set<int>, headerSize: int, off: int) {
    forall y, g | y in items && 0 <= g < headerSize && g != off && g != off + 4 ::
      Field(m1, y, g) == Field(m0, y, g)
  }

  /** Memory `m1` is `m0` with the forward field of `p` and the backward field of `q` set. */
  ghost predicate Relinked(m0: seq<int>, m1: seq<int>, off: int, s: seq<int>, p: int, next: int, q: int, prev: int) {
    && Field(m1, p, off) == next && Field(m1, q, off + 4) == prev
    && (forall y | y in s && y != p :: Field(m1, y, off) == Field(m0, y, off))
    && (forall y | y in s && y != q :: Field(m1, y, off + 4) == Field(m0, y, off + 4))
  }

  lemma RingInsertAt(m0: seq<int>, m1: seq<int>, off: int, s: seq<int>, k: nat, n: int, i: nat)
    requires Ring(m0, off, s) && k < |s| && n !in s && i <= |s|
    requires Relinked(m0, m1, off, s, s[k], n, Succ(s, k), n)
    requires Field(m1, n, off) == Succ(s, k) && Field(m1, n, off + 4) == s[k]
    ensures LinkedAt(m1, off, InsertAt(s, k + 1, n), i)
  {
    ToDistinct(s);
    var t := InsertAt(s, k + 1, n);
    if i <= k {
      assert LinkedAt(m0, off, s, i);
      assert s[i] in s && (i > 0 || k + 1 < |s| ==> s[i] != Succ(s, k));
      assert Pred(t, i) == if i == 0 && k + 1 == |s| then n else Pred(s, i);
    } else if i > k + 1 {
      assert LinkedAt(m0, off, s, i - 1);
      assert s[i - 1] in s && (i > k + 2 ==> s[i - 1] != Succ(s, k));
    }
  }

  lemma RingInsert(m0: seq<int>, m1: seq<int>, off: int, s: seq<int>, k: nat, n: int)
    requires Ring(m0, off, s) && k < |s| && n !in s
    requires Relinked(m0, m1, off, s, s[k], n, Succ(s, k), n)
    requires Field(m1, n, off) == Succ(s, k) && Field(m1, n, off + 4) == s[k]
    ensures Ring(m1, off, InsertAt(s, k + 1, n))
  {
    var t := InsertAt(s, k + 1, n);
    forall i | 0 <= i < |t| ensures LinkedAt(m1, off, t, i) {
      RingInsertAt(m0, m1, off, s, k, n, i);
    }
    ToDistinct(s);
    FromDistinct(t);
  }

  lemma RingRemoveAt(m0: seq<int>, m1: seq<int>, off: int, s: seq<int>, k: nat, i: nat)
    requires Ring(m0, off, s) && k < |s| && i + 1 < |s|
    requires Relinked(m0, m1, off, s, Pred(s, k), Succ(s, k), Succ(s, k), Pred(s, k))
    ensures LinkedAt(m1, off, RemoveAt(s, k), i)
  {
    ToDistinct(s);
    var t := RemoveAt(s, k);
    if i < k {
      assert LinkedAt(m0, off, s, i) && t[i] == s[i] && s[i] in s;
      assert i > 0 || k + 1 < |s| ==> s[i] != Succ(s, k);
      assert Pred(t, i) == if i == 0 && k + 1 == |s| then Pred(s, k) else Pred(s, i);
    }
    else {
      assert LinkedAt(m0, off, s, i + 1) && t[i] == s[i + 1] && s[i + 1] in s;
      assert Pred(t, i) == if i == k then Pred(s, k) else s[i];
    }
  }

  lemma RingRemove(m0: seq<int>, m1: seq<int>, off: int, s: seq<int>, k: nat)
    requires Ring(m0, off, s) && k < |s| && |s| >= 2
    requires Relinked(m0, m1, off, s, Pred(s, k), Succ(s, k), Succ(s, k), Pred(s, k))
    ensures Ring(m1, off, RemoveAt(s, k))
  {
    forall i | 0 <= i < |s| - 1 ensures LinkedAt(m1, off, RemoveAt(s, k), i) {
      RingRemoveAt(m0, m1, off, s, k, i);
    }
    ToDistinct(s);
    FromDistinct(RemoveAt(s, k));
  }

  /** Links `n` behind `p`. */
  method LinkAfter(mem: array<int>, off: int, p: int, n: int,
                   ghost items: set<int>, ghost headerSize: int, ghost s: seq<int>, ghost k: nat)
    requires Apart(items, mem.Length, headerSize) && 0 <= off && off + 4 < headerSize
    requires (forall x | x in s :: x in items) && n in items && n !in s && k < |s| && s[k] == p
    requires Ring(mem[..], off, s)
    modifies mem
    ensures Ring(mem[..], off, InsertAt(s, k + 1, n))
    ensures SameOtherFields(old(mem[..]), mem[..], items, headerSize, off)
    ensures SamePayload(old(mem[..]), mem[..], items, headerSize)
  {
    assert p in items;
    var q := mem[p + off];
    assert q == Succ(s, k) by { assert LinkedAt(mem[..], off, s, k); }
    Put(mem, n, off + 4, p, items, headerSize);
    Put(mem, n, off, q, items, headerSize);
    Put(mem, q, off + 4, n, items, headerSize);
    Put(mem, p, off, n, items, headerSize);
    RingInsert(old(mem[..]), mem[..], off, s, k, n);
  }

  /** Takes `x` out of the ring; the link fields of `x` itself keep their values. */
  method Unlink(mem: array<int>, off: int, x: int,
                ghost items: set<int>, ghost headerSize: int, ghost s: seq<int>, ghost k: nat)
    requires Apart(items, mem.Length, headerSize) && 0 <= off && off + 4 < headerSize
    requires (forall y | y in s :: y in items) && k < |s| && s[k] == x && |s| >= 2
    requires Ring(mem[..], off, s)
    modifies mem
    ensures Ring(mem[..], off, RemoveAt(s, k))
    ensures SameOtherFields(old(mem[..]), mem[..], items, headerSize, off)
    ensures SamePayload(old(mem[..]), mem[..], items, headerSize)
  {
    assert x in items;
    var next, prev := mem[x + off], mem[x + off + 4];
    assert next == Succ(s, k) by { assert LinkedAt(mem[..], off, s, k); }
    assert prev == Pred(s, k) by { assert LinkedAt(mem[..], off, s, k); }
    Put(mem, next, off + 4, prev, items, headerSize);
    Put(mem, prev, off, next, items, headerSize);
    RingRemove(old(mem[..]), mem[..], off, s, k);
  }

  /** Copies `count` cells between regions that do not overlap. */
  method CopyCells(mem: array<int>, dst: int, src: int, count: int)
    requires 0 <= count && 0 <= dst && dst + count <= mem.Length && 0 <= src && src + count <= mem.Length
    requires dst + count <= src || src + count <= dst
    modifies mem
    ensures mem[dst..dst + count] == old(mem[src..src + count])
    ensures forall a | 0 <= a < mem.Length && !(dst <= a < dst + count) :: mem[a] == old(mem[a])
  {
    var i := 0;
    while i < count
      invariant 0 <= i <= count
      invariant forall j | dst <= j < dst + i :: mem[j] == old(mem[src + (j - dst)])
      invariant forall a | 0 <= a < mem.Length && !(dst <= a < dst + i) :: mem[a] == old(mem[a])
    {
      mem[dst + i] := mem[src + i];
      i := i + 1;
    }
  }
}
