/** Address-ordered block lists: `bs` holds the header addresses of the blocks of a heap, the last
    one being the end marker, so block `i` extends from `bs[i]` to `bs[i + 1]`. */
module Blocks {
  import opened FlatMemory
  import opened Lists

  ghost predicate Before(bs: seq<int>, headerSize: int, i: int, j: int) {
    0 <= i < |bs| && 0 <= j < |bs| && bs[i] + headerSize <= bs[j]
  }

  ghost predicate Spaced(bs: seq<int>, headerSize: int) {
    forall i, j {:trigger Before(bs, headerSize, i, j)} | 0 <= i < j < |bs| :: Before(bs, headerSize, i, j)
  }

  lemma SpacedDistinct(bs: seq<int>, headerSize: int)
    requires Spaced(bs, headerSize) && headerSize > 0
    ensures Distinct(bs)
  {
    forall i, j | 0 <= i < j < |bs| ensures bs[i] != bs[j] {
      assert Before(bs, headerSize, i, j);
    }
  }

  /** No two neighbouring blocks are both in `set`. */
  ghost predicate NoNeighbours(bs: seq<int>, marked: set<int>) {
    forall i {:trigger NotBoth(bs, marked, i)} | 0 <= i < |bs| - 1 :: NotBoth(bs, marked, i)
  }

  ghost predicate NotBoth(bs: seq<int>, marked: set<int>, i: int) {
    0 <= i < |bs| - 1 && !(bs[i] in marked && bs[i + 1] in marked)
  }

  /** The bytes of the marked blocks, `overhead` bytes of each block not counted. */
  ghost function Bytes(bs: seq<int>, overhead: int, marked: set<int>): int {
    if |bs| < 2 then 0
    else (if bs[0] in marked then bs[1] - bs[0] - overhead else 0) + Bytes(bs[1..], overhead, marked)
  }

  lemma {:induction false} BytesSplit(bs: seq<int>, overhead: int, marked: set<int>, k: nat)
    requires k < |bs|
    ensures Bytes(bs, overhead, marked) == Bytes(bs[..k + 1], overhead, marked) + Bytes(bs[k..], overhead, marked)
  {
    if k == 0 {
      assert bs[0..] == bs && |bs[..1]| == 1;
    } else {
      BytesSplit(bs[1..], overhead, marked, k - 1);
      assert bs[1..][..k] == bs[..k + 1][1..] && bs[1..][k - 1..] == bs[k..];
    }
  }

  lemma {:induction false} BytesCount(bs: seq<int>, headerSize: int, marked: set<int>)
    requires Spaced(bs, headerSize)
    ensures Bytes(bs, headerSize, marked) >= 0
  {
    if |bs| >= 2 {
      assert Before(bs, headerSize, 0, 1);
      forall i, j | 0 <= i < j < |bs[1..]| ensures Before(bs[1..], headerSize, i, j) {
        assert Before(bs, headerSize, i + 1, j + 1);
      }
      BytesCount(bs[1..], headerSize, marked);
    }
  }

  lemma {:induction false} BytesSame(bs: seq<int>, overhead: int, marked: set<int>, marked': set<int>)
    requires forall i | 0 <= i < |bs| - 1 :: bs[i] in marked <==> bs[i] in marked'
    ensures Bytes(bs, overhead, marked) == Bytes(bs, overhead, marked')
  {
    if |bs| >= 2 {
      forall i | 0 <= i < |bs[1..]| - 1 ensures bs[1..][i] in marked <==> bs[1..][i] in marked' {
        assert bs[1..][i] == bs[i + 1];
      }
      BytesSame(bs[1..], overhead, marked, marked');
    }
  }

  /** Marking block `k` adds its bytes. */
  lemma BytesMark(bs: seq<int>, overhead: int, marked: set<int>, k: nat)
    requires Distinct(bs) && k + 1 < |bs| && bs[k] !in marked
    ensures Bytes(bs, overhead, marked + {bs[k]}) == Bytes(bs, overhead, marked) + bs[k + 1] - bs[k] - overhead
  {
    var marked' := marked + {bs[k]};
    BytesSplit(bs, overhead, marked, k);
    BytesSplit(bs, overhead, marked', k);
    BytesSame(bs[..k + 1], overhead, marked, marked');
    BytesSame(bs[k..][1..], overhead, marked, marked');
  }

  /** Cutting block `k` in two costs one overhead when both parts are marked, and nothing when
      neither is. */
  lemma BytesCut(bs: seq<int>, overhead: int, marked: set<int>, k: nat, n: int)
    requires k + 1 < |bs| && (n in marked <==> bs[k] in marked)
    ensures Bytes(InsertAt(bs, k + 1, n), overhead, marked)
         == Bytes(bs, overhead, marked) - if n in marked then overhead else 0
  {
    var bs' := InsertAt(bs, k + 1, n);
    BytesSplit(bs, overhead, marked, k);
    BytesSplit(bs', overhead, marked, k);
    assert bs'[..k + 1] == bs[..k + 1];
    assert bs'[k..] == [bs[k], n] + bs[k + 1..];
    assert bs'[k..][1..] == [n] + bs[k + 1..] && bs'[k..][1..][1..] == bs[k..][1..] == bs[k + 1..];
  }

  /** Marked bytes, unmarked bytes and the headers tile the heap. */
  lemma {:induction false} BytesTile(bs: seq<int>, headerSize: int, marked: set<int>)
    requires Distinct(bs) && |bs| >= 1
    ensures Bytes(bs, headerSize, marked) + Bytes(bs, headerSize, Members(bs) - marked)
            + headerSize * (|bs| - 1) == bs[|bs| - 1] - bs[0]
  {
    if |bs| >= 2 {
      BytesTile(bs[1..], headerSize, marked);
      forall i | 0 <= i < |bs[1..]| - 1 ensures bs[1..][i] in Members(bs) - marked
          <==> bs[1..][i] in Members(bs[1..]) - marked {
        assert bs[1..][i] in bs[1..];
      }
      BytesSame(bs[1..], headerSize, Members(bs) - marked, Members(bs[1..]) - marked);
    }
  }

  /** The allocated payloads, address to size: those of the blocks not in `free`. */
  ghost function Live(bs: seq<int>, headerSize: int, free: set<int>): map<int, int> {
    if |bs| < 2 then map[]
    else if bs[0] in free then Live(bs[1..], headerSize, free)
    else Live(bs[1..], headerSize, free)[bs[0] + headerSize := bs[1] - bs[0] - headerSize]
  }

  /** A live payload is that of some block. */
  lemma {:induction false} LiveBlock(bs: seq<int>, headerSize: int, free: set<int>, p: int) returns (i: nat)
    requires p in Live(bs, headerSize, free)
    ensures i + 1 < |bs| && bs[i] + headerSize == p && bs[i] !in free
    ensures Live(bs, headerSize, free)[p] == bs[i + 1] - p
  {
    if bs[0] !in free && p == bs[0] + headerSize {
      i := 0;
    } else {
      i := LiveBlock(bs[1..], headerSize, free, p);
      i := i + 1;
    }
  }

  lemma {:induction false} BlockLive(bs: seq<int>, headerSize: int, free: set<int>, i: nat)
    requires Distinct(bs) && i + 1 < |bs| && bs[i] !in free
    ensures bs[i] + headerSize in Live(bs, headerSize, free)
    ensures Live(bs, headerSize, free)[bs[i] + headerSize] == bs[i + 1] - bs[i] - headerSize
  {
    if i > 0 {
      BlockLive(bs[1..], headerSize, free, i - 1);
    }
  }

  lemma {:induction false} LiveSame(bs: seq<int>, headerSize: int, free: set<int>, free': set<int>)
    requires forall i | 0 <= i < |bs| - 1 :: bs[i] in free <==> bs[i] in free'
    ensures Live(bs, headerSize, free) == Live(bs, headerSize, free')
  {
    if |bs| >= 2 {
      forall i | 0 <= i < |bs[1..]| - 1 ensures bs[1..][i] in free <==> bs[1..][i] in free' {
        assert bs[1..][i] == bs[i + 1];
      }
      LiveSame(bs[1..], headerSize, free, free');
    }
  }

  /** Clearing the free mark of block `k` makes its payload live. */
  lemma {:induction false} LiveTake(bs: seq<int>, headerSize: int, free: set<int>, k: nat)
    requires Distinct(bs) && k + 1 < |bs| && bs[k] in free
    ensures Live(bs, headerSize, free - {bs[k]})
         == Live(bs, headerSize, free)[bs[k] + headerSize := bs[k + 1] - bs[k] - headerSize]
    ensures bs[k] + headerSize !in Live(bs, headerSize, free)
  {
    if k == 0 {
      LiveSame(bs[1..], headerSize, free, free - {bs[0]});
    } else {
      LiveTake(bs[1..], headerSize, free, k - 1);
    }
    if bs[k] + headerSize in Live(bs, headerSize, free) {
      var i := LiveBlock(bs, headerSize, free, bs[k] + headerSize);
    }
  }

  /** Cutting the part from `n` off block `k` as a free block: a free block stays free, a live one
      shrinks. */
  lemma {:induction false} LiveCut(bs: seq<int>, headerSize: int, free: set<int>, k: nat, n: int)
    requires Distinct(bs) && k + 1 < |bs| && n in free
    ensures Live(InsertAt(bs, k + 1, n), headerSize, free)
         == if bs[k] in free then Live(bs, headerSize, free)
            else Live(bs, headerSize, free)[bs[k] + headerSize := n - bs[k] - headerSize]
  {
    var bs' := InsertAt(bs, k + 1, n);
    if k == 0 {
      assert bs'[1..][1..] == bs[1..];
    } else {
      LiveCut(bs[1..], headerSize, free, k - 1, n);
      assert bs'[1..] == InsertAt(bs[1..], k, n);
    }
  }

  // How each step of an allocator changes the free bytes and the live payloads.

  lemma Take(bs: seq<int>, headerSize: int, free: set<int>, k: nat)
    requires Distinct(bs) && k + 1 < |bs| && bs[k] in free
    ensures Bytes(bs, headerSize, free - {bs[k]}) == Bytes(bs, headerSize, free) - (bs[k + 1] - bs[k] - headerSize)
    ensures Live(bs, headerSize, free - {bs[k]})
         == Live(bs, headerSize, free)[bs[k] + headerSize := bs[k + 1] - bs[k] - headerSize]
    ensures bs[k] + headerSize !in Live(bs, headerSize, free)
  {
    BytesMark(bs, headerSize, free - {bs[k]}, k);
    assert free - {bs[k]} + {bs[k]} == free;
    LiveTake(bs, headerSize, free, k);
  }

  lemma Release(bs: seq<int>, headerSize: int, free: set<int>, k: nat)
    requires Distinct(bs) && k + 1 < |bs| && bs[k] !in free
    ensures Bytes(bs, headerSize, free + {bs[k]}) == Bytes(bs, headerSize, free) + (bs[k + 1] - bs[k] - headerSize)
    ensures Live(bs, headerSize, free + {bs[k]}) == Live(bs, headerSize, free) - {bs[k] + headerSize}
  {
    BytesMark(bs, headerSize, free, k);
    assert free + {bs[k]} - {bs[k]} == free;
    LiveTake(bs, headerSize, free + {bs[k]}, k);
  }

  lemma Cut(bs: seq<int>, headerSize: int, free: set<int>, k: nat, n: int)
    requires Distinct(bs) && k + 1 < |bs| && n !in bs && n !in free
    ensures var bs' := InsertAt(bs, k + 1, n);
            && Bytes(bs', headerSize, free + {n})
               == Bytes(bs, headerSize, free) + (if bs[k] in free then -headerSize else bs[k + 1] - n - headerSize)
            && Live(bs', headerSize, free + {n})
               == if bs[k] in free then Live(bs, headerSize, free)
                  else Live(bs, headerSize, free)[bs[k] + headerSize := n - bs[k] - headerSize]
  {
    var bs' := InsertAt(bs, k + 1, n);
    BytesSame(bs, headerSize, free, free + {n});
    LiveSame(bs, headerSize, free, free + {n});
    LiveCut(bs, headerSize, free + {n}, k, n);
    if bs[k] in free {
      BytesCut(bs, headerSize, free + {n}, k, n);
    } else {
      BytesCut(bs, headerSize, free, k, n);
      assert Distinct(bs');
      BytesMark(bs', headerSize, free, k + 1);
    }
  }

  lemma Join(bs: seq<int>, headerSize: int, free: set<int>, k: nat)
    requires Distinct(bs) && k + 2 < |bs| && bs[k + 1] in free
    ensures var bs' := RemoveAt(bs, k + 1);
            var free' := free - {bs[k + 1]};
            && Bytes(bs', headerSize, free')
               == Bytes(bs, headerSize, free)
                  + (if bs[k] in free then headerSize else -(bs[k + 2] - bs[k + 1] - headerSize))
            && Live(bs', headerSize, free')
               == if bs[k] in free then Live(bs, headerSize, free)
                  else Live(bs, headerSize, free)[bs[k] + headerSize := bs[k + 2] - bs[k] - headerSize]
  {
    var bs' := RemoveAt(bs, k + 1);
    var free' := free - {bs[k + 1]};
    assert InsertAt(bs', k + 1, bs[k + 1]) == bs && free' + {bs[k + 1]} == free;
    Cut(bs', headerSize, free', k, bs[k + 1]);
    if bs[k] !in free {
      BlockLive(bs', headerSize, free', k);
    }
  }

  /** Taking the marked block `k` and marking its cut-off rest keeps marked blocks apart. */
  lemma CutNeighbours(bs: seq<int>, marked: set<int>, k: nat, n: int)
    requires Distinct(bs) && NoNeighbours(bs, marked) && k + 1 < |bs| && bs[k] in marked && n !in bs
    ensures NoNeighbours(InsertAt(bs, k + 1, n), marked + {n} - {bs[k]})
  {
    var bs', marked' := InsertAt(bs, k + 1, n), marked + {n} - {bs[k]};
    assert NotBoth(bs, marked, k);
    forall i | 0 <= i < |bs'| - 1 ensures NotBoth(bs', marked', i) {
      if i < k {
        assert NotBoth(bs, marked, i) && bs'[i] == bs[i] && bs'[i + 1] == bs[i + 1];
      } else if i > k + 1 {
        assert NotBoth(bs, marked, i - 1) && bs'[i] == bs[i - 1] && bs'[i + 1] == bs[i];
      }
    }
  }

  lemma SpacedInsert(bs: seq<int>, headerSize: int, k: nat, n: int)
    requires Spaced(bs, headerSize) && k + 1 < |bs| && headerSize > 0
    requires bs[k] + headerSize <= n && n + headerSize <= bs[k + 1]
    ensures Spaced(InsertAt(bs, k + 1, n), headerSize) && n !in bs
  {
    var bs' := InsertAt(bs, k + 1, n);
    forall i, j | 0 <= i < j < |bs'| ensures Before(bs', headerSize, i, j) {
      var i0, j0 := if i <= k then i else i - 1, if j <= k then j else j - 1;
      assert i != k + 1 ==> bs'[i] == bs[i0] && (i0 < k ==> Before(bs, headerSize, i0, k));
      assert j != k + 1 ==> bs'[j] == bs[j0] && (k + 1 < j0 ==> Before(bs, headerSize, k + 1, j0));
      assert i0 < j0 ==> Before(bs, headerSize, i0, j0);
    }
    forall j | 0 <= j < |bs| ensures bs[j] != n {
      assert j < k ==> Before(bs, headerSize, j, k);
      assert k + 1 < j ==> Before(bs, headerSize, k + 1, j);
    }
  }

  /** The sum of the values of a map. */
  ghost function Sum(m: map<int, int>): int
    decreases |m|
  {
    if m == map[] then 0
    else
      assert exists k :: k in m.Keys by { Inhabited(m.Keys); }
      var k :| k in m.Keys;
      MapRemove(m, k);
      m[k] + Sum(m - {k})
  }

  lemma Inhabited(s: set<int>)
    requires s != {}
    ensures exists k :: k in s
  {
    assert (forall k :: k !in s) ==> s == {};
  }

  lemma MapRemove(m: map<int, int>, k: int)
    requires k in m
    ensures |m - {k}| == |m| - 1
  {
    assert (m - {k}).Keys == m.Keys - {k};
    assert |m.Keys - {k}| == |m.Keys| - 1;
  }

  lemma {:induction false} SumRemove(m: map<int, int>, k: int)
    requires k in m
    ensures Sum(m) == m[k] + Sum(m - {k})
    decreases |m|
  {
    var j :| j in m.Keys && Sum(m) == m[j] + Sum(m - {j});
    if j != k {
      MapRemove(m, j);
      MapRemove(m, k);
      SumRemove(m - {j}, k);
      SumRemove(m - {k}, j);
      assert m - {j} - {k} == m - {k} - {j};
    }
  }

  lemma HeadNotLive(bs: seq<int>, headerSize: int, free: set<int>)
    requires Distinct(bs) && |bs| >= 2
    ensures bs[0] + headerSize !in Live(bs[1..], headerSize, free)
  {
    if bs[0] + headerSize in Live(bs[1..], headerSize, free) {
      var i := LiveBlock(bs[1..], headerSize, free, bs[0] + headerSize);
    }
  }

  lemma TailMarked(bs: seq<int>, headerSize: int, free: set<int>)
    requires |bs| >= 2
    ensures Bytes(bs[1..], headerSize, Members(bs) - free) == Bytes(bs[1..], headerSize, Members(bs[1..]) - free)
  {
    forall i | 0 <= i < |bs[1..]| - 1 ensures bs[1..][i] in Members(bs) - free
        <==> bs[1..][i] in Members(bs[1..]) - free {
      assert bs[1..][i] in bs[1..];
    }
    BytesSame(bs[1..], headerSize, Members(bs) - free, Members(bs[1..]) - free);
  }

  /** The bytes of the blocks that are not free are the sizes of the live payloads. */
  lemma {:induction false} LiveSum(bs: seq<int>, headerSize: int, free: set<int>)
    requires Distinct(bs)
    ensures Sum(Live(bs, headerSize, free)) == Bytes(bs, headerSize, Members(bs) - free)
  {
    if |bs| >= 2 {
      LiveSum(bs[1..], headerSize, free);
      TailMarked(bs, headerSize, free);
      HeadNotLive(bs, headerSize, free);
      var rest, p := Live(bs[1..], headerSize, free), bs[0] + headerSize;
      SumRemove(rest[p := bs[1] - p], p);
      assert rest[p := bs[1] - p] - {p} == rest;
    }
  }

  lemma LiveCountStep(bs: seq<int>, headerSize: int, free: set<int>)
    requires Distinct(bs) && |bs| >= 2
    ensures |Live(bs, headerSize, free)| == |Live(bs[1..], headerSize, free)| + if bs[0] in free then 0 else 1
    ensures bs[0] in Members(bs)
  {
    HeadNotLive(bs, headerSize, free);
  }

  lemma OneMore(x: int, n: int)
    ensures x * (n + 1) == x * n + x
  {}

  /** The headers of the blocks that are not free make the difference between counting them and not. */
  lemma {:induction false} BytesOverhead(bs: seq<int>, headerSize: int, free: set<int>)
    requires Distinct(bs)
    ensures Bytes(bs, 0, Members(bs) - free)
         == Bytes(bs, headerSize, Members(bs) - free) + headerSize * |Live(bs, headerSize, free)|
  {
    if |bs| >= 2 {
      BytesOverhead(bs[1..], headerSize, free);
      TailMarked(bs, headerSize, free);
      TailMarked(bs, 0, free);
      LiveCountStep(bs, headerSize, free);
      OneMore(headerSize, |Live(bs[1..], headerSize, free)|);
    }
  }

  /** Every block but the end marker is either live or free. */
  lemma {:induction false} LiveCount(bs: seq<int>, headerSize: int, free: set<int>)
    requires Distinct(bs) && |bs| >= 1 && free <= Members(bs) - {bs[|bs| - 1]}
    ensures |Live(bs, headerSize, free)| + |free| == |bs| - 1
  {
    if |bs| >= 2 {
      var free' := free - {bs[0]};
      forall x | x in free' ensures x in Members(bs[1..]) {
        var j :| 0 <= j < |bs| && bs[j] == x;
        assert bs[1..][j - 1] == x;
      }
      LiveCount(bs[1..], headerSize, free');
      LiveSame(bs[1..], headerSize, free, free');
      HeadNotLive(bs, headerSize, free);
      assert bs[0] in free ==> free == free' + {bs[0]};
      assert bs[0] !in free ==> free == free';
    } else {
      assert Members(bs) == {bs[0]};
      assert free == {};
    }
  }

  lemma {:induction false} MembersCount(s: seq<int>)
    requires Distinct(s)
    ensures |Members(s)| == |s|
  {
    if s != [] {
      MembersCount(s[1..]);
      assert Members(s) == Members(s[1..]) + {s[0]};
    }
  }

  lemma SpacedRemove(bs: seq<int>, headerSize: int, k: nat)
    requires Spaced(bs, headerSize) && k < |bs|
    ensures Spaced(RemoveAt(bs, k), headerSize)
  {
    var bs' := RemoveAt(bs, k);
    forall i, j | 0 <= i < j < |bs'| ensures Before(bs', headerSize, i, j) {
      assert Before(bs, headerSize, if i < k then i else i + 1, if j < k then j else j + 1);
    }
  }

  // A tiled region: blocks from `start` to the end marker at `last`.

  ghost predicate Aligned(bs: seq<int>, start: int, i: int) {
    0 <= i < |bs| && (bs[i] - start) % 4 == 0
  }

  ghost predicate Tiled(bs: seq<int>, start: int, last: int, headerSize: int) {
    && |bs| >= 2 && bs[0] == start && bs[|bs| - 1] == last
    && headerSize > 0 && Spaced(bs, headerSize)
    && (forall i {:trigger Aligned(bs, start, i)} | 0 <= i < |bs| :: Aligned(bs, start, i))
  }

  lemma InRegion(bs: seq<int>, start: int, last: int, headerSize: int, i: nat)
    requires Tiled(bs, start, last, headerSize) && i < |bs|
    ensures start <= bs[i] <= last
  {
    assert i > 0 ==> Before(bs, headerSize, 0, i);
    assert i + 1 < |bs| ==> Before(bs, headerSize, i, |bs| - 1);
  }

  lemma TiledInsert(bs: seq<int>, start: int, last: int, headerSize: int, i: nat, n: int)
    requires Tiled(bs, start, last, headerSize) && i + 1 < |bs| && (n - start) % 4 == 0
    requires bs[i] + headerSize <= n && n + headerSize <= bs[i + 1]
    ensures Tiled(InsertAt(bs, i + 1, n), start, last, headerSize) && n !in bs
  {
    SpacedInsert(bs, headerSize, i, n);
    var bs' := InsertAt(bs, i + 1, n);
    forall j | 0 <= j < |bs'| ensures Aligned(bs', start, j) {
      assert j <= i ==> Aligned(bs, start, j);
      assert j > i + 1 ==> Aligned(bs, start, j - 1);
    }
  }

  lemma TiledRemove(bs: seq<int>, start: int, last: int, headerSize: int, k: nat)
    requires Tiled(bs, start, last, headerSize) && 0 < k && k + 1 < |bs|
    ensures Tiled(RemoveAt(bs, k), start, last, headerSize)
    ensures Members(RemoveAt(bs, k)) == Members(bs) - {bs[k]}
  {
    var bs' := RemoveAt(bs, k);
    SpacedRemove(bs, headerSize, k);
    forall j | 0 <= j < |bs'| ensures Aligned(bs', start, j) {
      assert Aligned(bs, start, if j < k then j else j + 1);
    }
    SpacedDistinct(bs, headerSize);
    FromDistinct(bs);
    RemoveElem(bs, k);
  }

  /** Headers outside the region, as that of the heap object itself. */
  ghost predicate Outside(others: set<int>, start: int, last: int, headerSize: int) {
    forall o | o in others :: o + headerSize <= start || last + headerSize <= o
  }

  /** Room for a header at `n` inside block `i` keeps all headers apart. */
  lemma ApartInsert(bs: seq<int>, others: set<int>, start: int, last: int, headerSize: int, length: int, i: nat, n: int)
    requires Tiled(bs, start, last, headerSize) && Outside(others, start, last, headerSize)
    requires Apart(Members(bs) + others, length, headerSize)
    requires i + 1 < |bs| && bs[i] + headerSize <= n && n + headerSize <= bs[i + 1]
    ensures Apart(Members(bs) + others + {n}, length, headerSize) && n !in others
  {
    assert bs[i] in Members(bs) && bs[i + 1] in Members(bs);
    InRegion(bs, start, last, headerSize, i);
    InRegion(bs, start, last, headerSize, i + 1);
    forall x | x in Members(bs) + others ensures Clear(x, n, headerSize) && Clear(n, x, headerSize) {
      if x in Members(bs) {
        var j :| 0 <= j < |bs| && bs[j] == x;
        assert j < i ==> Before(bs, headerSize, j, i);
        assert i + 1 < j ==> Before(bs, headerSize, i + 1, j);
      }
    }
    forall x, y | x in Members(bs) + others + {n} && y in Members(bs) + others + {n} && x != y
        ensures Clear(x, y, headerSize) {
      assert x != n && y != n ==> Clear(x, y, headerSize);
    }
  }

  /** A live payload lies in the region and meets no header and no other live payload. */
  lemma PayloadClear(bs: seq<int>, others: set<int>, start: int, last: int, headerSize: int, free: set<int>, p: int)
    requires Tiled(bs, start, last, headerSize) && Outside(others, start, last, headerSize)
    requires p in Live(bs, headerSize, free)
    ensures start + headerSize <= p && 0 <= Live(bs, headerSize, free)[p] && p + Live(bs, headerSize, free)[p] <= last
    ensures (p - headerSize - start) % 4 == 0
    ensures forall x | x in Members(bs) + others :: x + headerSize <= p || p + Live(bs, headerSize, free)[p] <= x
    ensures forall q | q in Live(bs, headerSize, free) && q != p ::
              q + Live(bs, headerSize, free)[q] <= p || p + Live(bs, headerSize, free)[p] <= q
  {
    var i := LiveBlock(bs, headerSize, free, p);
    InRegion(bs, start, last, headerSize, i);
    InRegion(bs, start, last, headerSize, i + 1);
    assert Before(bs, headerSize, i, i + 1) && Aligned(bs, start, i);
    forall x | x in Members(bs) + others ensures x + headerSize <= p || bs[i + 1] <= x {
      if x in Members(bs) {
        var j :| 0 <= j < |bs| && bs[j] == x;
        assert j < i ==> Before(bs, headerSize, j, i);
        assert i + 1 < j ==> Before(bs, headerSize, i + 1, j);
      }
    }
    forall q | q in Live(bs, headerSize, free) && q != p
      ensures q + Live(bs, headerSize, free)[q] <= p || bs[i + 1] <= q
    {
      var j := LiveBlock(bs, headerSize, free, q);
      assert j < i ==> j + 1 == i || Before(bs, headerSize, j + 1, i);
      assert i < j ==> i + 1 == j || Before(bs, headerSize, i + 1, j);
    }
  }

  /** Every byte of every live payload holds the same value in both memories. */
  ghost predicate SameBytes(m0: seq<int>, m1: seq<int>, live: map<int, int>) {
    && |m0| == |m1|
    && forall p, a | p in live && p <= a < p + live[p] && 0 <= a < |m0| :: m1[a] == m0[a]
  }

  /** Header writes at the blocks, at `others` and at addresses `inside` the free block `k` reach no
      live payload. */
  lemma Isolated(m0: seq<int>, m1: seq<int>, bs: seq<int>, others: set<int>, start: int, last: int, headerSize: int,
                 free: set<int>, live: map<int, int>, inside: set<int>, k: nat)
    requires live == Live(bs, headerSize, free)
    requires Tiled(bs, start, last, headerSize) && Outside(others, start, last, headerSize)
    requires inside != {} ==> k + 1 < |bs| && bs[k] in free
    requires forall n | n in inside :: bs[k] <= n && n + headerSize <= bs[k + 1]
    requires SamePayload(m0, m1, Members(bs) + others + inside, headerSize)
    ensures SameBytes(m0, m1, live)
  {
    forall p, a | p in live && p <= a < p + live[p] && 0 <= a < |m0| ensures m1[a] == m0[a] {
      var i := LiveBlock(bs, headerSize, free, p);
      PayloadClear(bs, others, start, last, headerSize, free, p);
      if inside != {} {
        assert i < k ==> i + 1 == k || Before(bs, headerSize, i + 1, k);
        assert k < i ==> k + 1 == i || Before(bs, headerSize, k + 1, i);
      }
      assert !InHeader(Members(bs) + others + inside, headerSize, a);
    }
  }

  /** The first `n` bytes at `p` in `m0` are the first `n` bytes at `q` in `m1`. */
  ghost predicate SamePrefix(m0: seq<int>, p: int, m1: seq<int>, q: int, n: int) {
    && 0 <= n && 0 <= p && p + n <= |m0| && 0 <= q && q + n <= |m1|
    && m0[p..p + n] == m1[q..q + n]
  }

  /** Allocating at `r`, copying `n` bytes there from `p` and releasing `p`. */
  lemma MovedBytes(m0: seq<int>, m1: seq<int>, m2: seq<int>, m3: seq<int>, live0: map<int, int>, live1: map<int, int>,
                   p: int, r: int, n: int)
    requires SameBytes(m0, m1, live0) && SameBytes(m1, m2, live1 - {r}) && SameBytes(m2, m3, live1)
    requires p in live0 && r !in live0 && r in live1 && live1 - {r} == live0 && n <= live0[p] && n <= live1[r]
    requires SamePrefix(m1, p, m2, r, n)
    ensures SameBytes(m0, m3, live0 - {p}) && SamePrefix(m0, p, m3, r, n)
    ensures live1 - {p} - {r} == live0 - {p} && r in live1 - {p} && (live1 - {p})[r] == live1[r]
  {
    assert live1 - {p} - {r} == live1 - {r} - {p};
    assert m0[p..p + n] == m1[p..p + n];
    assert m2[r..r + n] == m3[r..r + n];
    forall q, a | q in live0 - {p} && q <= a < q + live0[q] && 0 <= a < |m0| ensures m3[a] == m0[a] {
      assert q in live1 - {r} && (live1 - {r})[q] == live0[q] && q in live1 && live1[q] == live0[q];
      assert m1[a] == m0[a] && m2[a] == m1[a] && m3[a] == m2[a];
    }
  }

  lemma PayloadKept(m0: seq<int>, m1: seq<int>, live: map<int, int>, p: int, n: int)
    requires SameBytes(m0, m1, live) && p in live && 0 <= n <= live[p] && 0 <= p && p + n <= |m0|
    ensures m0[p..p + n] == m1[p..p + n]
  {}

  /** The same with calls of other threads between the three parts, each of which has the lock for itself:
      after the allocation (from m1 to m2) and after the copy (from m3 to m4). Such calls keep the two
      payloads, which are live and not theirs to free. */
  lemma MovedAmongOthers(m0: seq<int>, m1: seq<int>, m2: seq<int>, m3: seq<int>, m4: seq<int>, m5: seq<int>,
                         p: int, sizeP: int, r: int, sizeR: int, n: int)
    requires p != r && n <= sizeP && n <= sizeR
    requires SameBytes(m0, m1, map[p := sizeP]) && SameBytes(m1, m2, map[p := sizeP, r := sizeR])
    requires SamePrefix(m2, p, m3, r, n) && |m3| == |m2|
    requires SameBytes(m3, m4, map[p := sizeP, r := sizeR]) && SameBytes(m4, m5, map[r := sizeR])
    ensures SamePrefix(m0, p, m5, r, n)
  {
    var both := map[p := sizeP, r := sizeR];
    assert p in both && both[p] == sizeP && r in both && both[r] == sizeR;
    PayloadKept(m0, m1, map[p := sizeP], p, n);
    PayloadKept(m1, m2, both, p, n);
    PayloadKept(m3, m4, both, r, n);
    PayloadKept(m4, m5, map[r := sizeR], r, n);
  }

  function Max(a: int, b: int): int {
    if a > b then a else b
  }

  function Min(a: int, b: int): int {
    if a < b then a else b
  }

  // The counter of the most bytes ever in use.

  /** The largest number of a history. */
  function Peak(h: seq<int>): int
    requires h != []
  {
    if |h| == 1 then h[0] else Max(Peak(h[..|h| - 1]), Last(h))
  }

  lemma {:induction false} PeakIsLargest(h: seq<int>)
    requires h != []
    ensures Peak(h) in h && forall x | x in h :: x <= Peak(h)
  {
    if |h| > 1 {
      PeakIsLargest(h[..|h| - 1]);
      assert h == h[..|h| - 1] + [Last(h)];
    }
  }

  /** `now` bytes are in use, and `most` is the largest number that ever were, by the history. */
  ghost predicate Recorded(h: seq<int>, now: int, most: int) {
    h != [] && Last(h) == now && Peak(h) == most
  }

  lemma Records(h: seq<int>, now: int, most: int, x: int)
    requires Recorded(h, now, most)
    ensures now <= most && Recorded(h + [x], x, Max(most, x))
  {
    assert (h + [x])[..|h|] == h;
  }

  /** The most bytes in use once `now` are, with `half` of them in between if a block was moved. */
  function MostUsed(most: int, moved: bool, half: int, now: int): int {
    if moved then Max(Max(most, half), now) else Max(most, now)
  }
}
