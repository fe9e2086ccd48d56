/** The small-memory heap of mem.c: first fit over blocks linked by offsets from heap_ptr, with a
    pointer to the lowest free block. A pointer is modelled by its offset; NULL is 0, which no
    payload has. */
module SmallHeap {
  import opened Blocks
  import opened FlatMemory
  import opened Lists
  import opened Words

  const HDR := 12          // SIZEOF_STRUCT_MEM
  const MIN_SIZE := 12     // MIN_SIZE_ALIGNED
  const HEAP_MAGIC := 0x1ea0

  // Field offsets of struct heap_mem.
  const MAGIC_WORD := 0
  const USED := 2
  const NEXT := 4
  const PREV := 8

  /** RT_ALIGN on a 32-bit size. */
  function AlignUp(size: nat): nat {
    (size + ALIGN - 1) % U32 / ALIGN * ALIGN
  }

  /** mem_size_aligned for a heap between two addresses, 0 when rt_system_heap_init refuses them. */
  function HeapSize(begin: nat, end: nat): nat {
    var first, last := AlignUp(begin), end / ALIGN * ALIGN;
    if last > 2 * HDR && last - 2 * HDR > first then last - first - 2 * HDR else 0
  }

  lemma HeapSizeAligned(begin: nat, end: nat)
    ensures HeapSize(begin, end) % ALIGN == 0
    ensures begin <= U32 - ALIGN && HeapSize(begin, end) > 0 ==> begin + HeapSize(begin, end) + 2 * HDR <= end
    ensures HeapSize(begin, end) > 0 ==> HeapSize(begin, end) + 2 * HDR <= end
    ensures begin <= U32 - ALIGN ==> end - begin <= HeapSize(begin, end) + 2 * HDR + 2 * (ALIGN - 1)
  {
    var a, b := (begin + ALIGN - 1) % U32 / ALIGN, end / ALIGN;
    assert AlignUp(begin) == ALIGN * a && end / ALIGN * ALIGN == ALIGN * b <= end;
    if HeapSize(begin, end) > 0 {
      assert HeapSize(begin, end) == ALIGN * (b - a - 2 * HDR / ALIGN);
      Multiple4(b - a - 2 * HDR / ALIGN);
    }
    if begin <= U32 - ALIGN {
      RoundsUp(begin);
    }
  }

  lemma Multiple4(n: int)
    ensures ALIGN * n % ALIGN == 0
  {}

  lemma RoundsUp(n: nat)
    requires n <= U32 - ALIGN
    ensures n <= AlignUp(n)
  {
    assert (n + ALIGN - 1) % U32 == n + ALIGN - 1;
  }

  lemma AlignTwice(n: nat)
    ensures AlignUp(n) < U32 && AlignUp(AlignUp(n)) == AlignUp(n)
  {
    var a := (n + ALIGN - 1) % U32 / ALIGN;
    assert AlignUp(n) == ALIGN * a && ALIGN * a + ALIGN - 1 < U32;
    assert (ALIGN * a + ALIGN - 1) / ALIGN == a;
  }

  function Request(size: nat): nat {
    if AlignUp(size) < MIN_SIZE then MIN_SIZE else AlignUp(size)
  }

  /** The offset links of block `i`. The backward link of the end marker is never used. */
  ghost predicate ChainedAt(m: seq<int>, bs: seq<int>, i: int) {
    && 0 <= i < |bs|
    && Field(m, bs[i], NEXT) == (if i + 1 < |bs| then bs[i + 1] else bs[i])
    && (i == 0 ==> Field(m, bs[i], PREV) == bs[0])
    && (0 < i < |bs| - 1 ==> Field(m, bs[i], PREV) == bs[i - 1])
  }

  ghost predicate Chained(m: seq<int>, bs: seq<int>) {
    forall i {:trigger ChainedAt(m, bs, i)} | 0 <= i < |bs| :: ChainedAt(m, bs, i)
  }

  ghost predicate MarkedAt(m: seq<int>, free: set<int>, x: int) {
    Field(m, x, MAGIC_WORD) == HEAP_MAGIC && Field(m, x, USED) == if x in free then 0 else 1
  }

  ghost predicate Marked(m: seq<int>, bs: seq<int>, free: set<int>) {
    forall x {:trigger MarkedAt(m, free, x)} | x in Members(bs) :: MarkedAt(m, free, x)
  }

  ghost predicate Linked(m: seq<int>, bs: seq<int>, free: set<int>) {
    Apart(Members(bs), |m|, HDR) && Chained(m, bs) && Marked(m, bs, free)
  }

  /** The blocks tile the heap, each with the minimum size or more, and no two neighbours are free. */
  ghost predicate Shape(bs: seq<int>, free: set<int>, end: int) {
    && Tiled(bs, 0, end, HDR) && Spaced(bs, HDR + MIN_SIZE)
    && free <= Members(bs) && end !in free
    && NoNeighbours(bs, free)
  }

  ghost predicate Accounts(bs: seq<int>, free: set<int>, live: map<int, int>, used: int) {
    live == Live(bs, HDR, free) && used == Bytes(bs, 0, Members(bs) - free)
  }

  /** Every block below `lfree` is used, and `lfree` is free unless it is the end marker. */
  ghost predicate Lowest(bs: seq<int>, free: set<int>, end: int, lfree: int) {
    && lfree in Members(bs) && (lfree in free || lfree == end)
    && forall x | x in free :: lfree <= x
  }

  /** Block `i` is free and holds `n` bytes. */
  ghost predicate Fits(bs: seq<int>, free: set<int>, i: int, n: int) {
    0 <= i < |bs| - 1 && bs[i] in free && bs[i + 1] - bs[i] - HDR >= n
  }

  ghost predicate LowestFit(bs: seq<int>, free: set<int>, i: int, n: int) {
    Fits(bs, free, i, n) && forall j | 0 <= j < i :: !Fits(bs, free, j, n)
  }

  /** The search stops before block `i`. */
  ghost predicate Beyond(bs: seq<int>, size: int, i: int, n: int) {
    0 <= i < |bs| && bs[i] >= size - n
  }

  lemma AllBeyond(bs: seq<int>, size: int, free: set<int>, k: nat, n: int)
    requires Spaced(bs, HDR) && Beyond(bs, size, k, n)
    requires forall j | 0 <= j < k :: !Fits(bs, free, j, n)
    ensures forall j | Fits(bs, free, j, n) :: Beyond(bs, size, j, n)
  {
    forall j | Fits(bs, free, j, n) ensures Beyond(bs, size, j, n) {
      assert k < j ==> Before(bs, HDR, k, j);
    }
  }

  /** What rt_realloc of the live block at `p` to `n` bytes promises: a block of exactly `n` bytes
      stays; any other is moved, when a block can be served, with its first bytes. */
  ghost predicate Moved(m0: seq<int>, m1: seq<int>, live0: map<int, int>, live1: map<int, int>, p: int, r: int,
                        n: int, served: bool)
    requires p in live0
  {
    if live0[p] == n then
      r == p && m1 == m0 && live1 == live0
    else if !served then
      r == NULL && m1 == m0 && live1 == live0
    else
      && r != NULL && r !in live0 && r in live1 && live1[r] >= n && live1 - {r} == live0 - {p}
      && SamePrefix(m0, p, m1, r, Min(live0[p], n))
      && SameBytes(m0, m1, live0 - {p})
  }

  /** What the calls so far leave behind: the allocated payloads, the blocks, the free ones of them, the
      bytes in use and these bytes after every change. */
  datatype Books = Books(live: map<int, int>, blocks: seq<int>, free: set<int>, used: int, history: seq<int>)

  /** rt_malloc can serve `n` bytes. */
  ghost predicate CanServe(b: Books, size: int, n: int) {
    exists j :: Fits(b.blocks, b.free, j, n) && !Beyond(b.blocks, size, j, n)
  }

  /** `n` bytes were allocated at `r`, from the lowest block that fits; a block that is large enough is cut. */
  ghost predicate Allocated(b0: Books, b1: Books, r: int, n: int, k: nat) {
    && LowestFit(b0.blocks, b0.free, k, n) && r == b0.blocks[k] + HDR
    && (if b0.blocks[k + 1] - r >= n + HDR + MIN_SIZE then
          Given(b0, b1, r, n) && b1.blocks == InsertAt(b0.blocks, k + 1, r + n)
              && b1.free == b0.free + {r + n} - {b0.blocks[k]}
        else
          Given(b0, b1, r, b0.blocks[k + 1] - r) && b1.blocks == b0.blocks && b1.free == b0.free - {b0.blocks[k]})
  }

  /** `got` bytes were given out at `r`. */
  ghost predicate Given(b0: Books, b1: Books, r: int, got: int) {
    && r !in b0.live && b1.live == b0.live[r := got]
    && b1.used == b0.used + HDR + got && b1.history == b0.history + [b1.used]
  }

  lemma AllocatedPart(b0: Books, b1: Books, r: int, n: int, k: nat)
    requires LowestFit(b0.blocks, b0.free, k, n) && r == b0.blocks[k] + HDR
             && b0.blocks[k + 1] - r >= n + HDR + MIN_SIZE
    requires Given(b0, b1, r, n) && b1.blocks == InsertAt(b0.blocks, k + 1, r + n)
             && b1.free == b0.free + {r + n} - {b0.blocks[k]}
    ensures Allocated(b0, b1, r, n, k)
  {}

  lemma AllocatedWhole(b0: Books, b1: Books, r: int, n: int, k: nat)
    requires LowestFit(b0.blocks, b0.free, k, n) && r == b0.blocks[k] + HDR && b0.blocks[k + 1] - r < n + HDR + MIN_SIZE
    requires Given(b0, b1, r, b0.blocks[k + 1] - r) && b1.blocks == b0.blocks && b1.free == b0.free - {b0.blocks[k]}
    ensures Allocated(b0, b1, r, n, k)
  {}

  /** An allocation puts no free block below the lowest one. */
  lemma LowestAfter(b0: Books, b1: Books, r: int, n: int, k: nat, end: int, lfree: int)
    requires Allocated(b0, b1, r, n, k) && Lowest(b0.blocks, b0.free, end, lfree) && Spaced(b0.blocks, HDR) && n >= 0
    ensures lfree in Members(b1.blocks) && forall x | x in b1.free :: lfree <= x
    ensures lfree != b0.blocks[k] ==> Lowest(b1.blocks, b1.free, end, lfree)
  {
    MembersInsert(b0.blocks, k + 1, r + n);
  }

  ghost predicate Released(b0: Books, b1: Books, p: int) {
    && p in b0.live && b1.live == b0.live - {p}
    && b1.used == b0.used - HDR - b0.live[p] && b1.history == b0.history + [b1.used]
  }

  /** An allocation of `n` bytes: its bytes, its books, and when it fails. */
  ghost predicate AllocatedOrNot(m0: seq<int>, b0: Books, m1: seq<int>, b1: Books, r: int, n: int, k: nat, size: int) {
    && SameBytes(m0, m1, b0.live)
    && (r == NULL <==> !CanServe(b0, size, n))
    && (if r == NULL then m1 == m0 && b1 == b0 else Allocated(b0, b1, r, n, k))
  }

  /** Between the two halves of a move: the place of the fit, and the books. */
  datatype Half = Half(k: nat, books: Books)

  ghost predicate MovedBooks(b0: Books, half: Half, b1: Books, p: int, r: int, n: int) {
    Allocated(b0, half.books, r, n, half.k) && Released(half.books, b1, p)
  }

  /** rt_realloc of the live block at `p` to `n` bytes, for which `request` bytes are asked of rt_malloc:
      a block of exactly `n` bytes stays; any other is moved, if a block can be served, with its first
      bytes; all other payloads keep their bytes. */
  ghost predicate Resized(m0: seq<int>, b0: Books, m1: seq<int>, half: Half, b1: Books, p: int, r: int, n: int,
                          request: int, size: int) {
    && p in b0.live
    && Moved(m0, m1, b0.live, b1.live, p, r, n, CanServe(b0, size, request))
    && (if b0.live[p] == n || r == NULL then b1 == b0 else MovedBooks(b0, half, b1, p, r, request))
  }

  /** All cases of rt_realloc: too large, zero, NULL, an address outside the heap, and a live block. */
  ghost predicate Reallocated(m0: seq<int>, b0: Books, m1: seq<int>, half: Half, b1: Books,
                              p: int, r: int, newsize: nat, size: int)
  {
    var n := AlignUp(newsize);
    if n > size then r == NULL && m1 == m0 && b1 == b0
    else if n == 0 then
      r == NULL && if p == NULL then m1 == m0 && b1 == b0 else Released(b0, b1, p) && SameBytes(m0, m1, b1.live)
    else if p == NULL then AllocatedOrNot(m0, b0, m1, b1, r, Request(newsize), half.k, size)
    else if p !in b0.live then r == p && m1 == m0 && b1 == b0
    else Resized(m0, b0, m1, half, b1, p, r, n, Request(newsize), size)
  }

  // Links after inserting and removing a block.

  ghost predicate SameLinks(m0: seq<int>, m1: seq<int>, s: set<int>, p: int, q: int) {
    && (forall y | y in s && y != p :: Field(m1, y, NEXT) == Field(m0, y, NEXT))
    && (forall y | y in s && y != q :: Field(m1, y, PREV) == Field(m0, y, PREV))
  }

  lemma ChainInsert(m0: seq<int>, m1: seq<int>, bs: seq<int>, k: nat, n: int)
    requires Chained(m0, bs) && Spaced(bs, HDR) && k + 1 < |bs|
    requires SameLinks(m0, m1, Members(bs), bs[k], bs[k + 1])
    requires Field(m1, bs[k], NEXT) == n && Field(m1, n, NEXT) == bs[k + 1] && Field(m1, n, PREV) == bs[k]
    requires k + 2 < |bs| ==> Field(m1, bs[k + 1], PREV) == n
    ensures Chained(m1, InsertAt(bs, k + 1, n))
  {
    var bs' := InsertAt(bs, k + 1, n);
    forall i | 0 <= i < |bs'| ensures ChainedAt(m1, bs', i) {
      if i != k + 1 {
        var j := if i <= k then i else i - 1;
        assert ChainedAt(m0, bs, j) && bs'[i] == bs[j] && bs[j] in Members(bs);
        assert j < k ==> Before(bs, HDR, j, k) && Before(bs, HDR, j, k + 1);
        assert k + 1 < j ==> Before(bs, HDR, k, j) && Before(bs, HDR, k + 1, j);
        assert Before(bs, HDR, k, k + 1);
      }
    }
  }

  lemma ChainRemove(m0: seq<int>, m1: seq<int>, bs: seq<int>, k: nat)
    requires Chained(m0, bs) && Spaced(bs, HDR) && 0 < k && k + 1 < |bs|
    requires SameLinks(m0, m1, Members(bs), bs[k - 1], bs[k + 1])
    requires Field(m1, bs[k - 1], NEXT) == bs[k + 1]
    requires Field(m1, bs[k + 1], PREV) == bs[k - 1]
    ensures Chained(m1, RemoveAt(bs, k))
  {
    var bs' := RemoveAt(bs, k);
    forall i | 0 <= i < |bs'| ensures ChainedAt(m1, bs', i) {
      var j := if i < k then i else i + 1;
      assert ChainedAt(m0, bs, j) && bs'[i] == bs[j] && bs[j] in Members(bs);
      assert j < k - 1 ==> Before(bs, HDR, j, k - 1);
      assert k - 1 < j ==> Before(bs, HDR, k - 1, j);
      assert j < k + 1 ==> Before(bs, HDR, j, k + 1);
      assert k + 1 < j ==> Before(bs, HDR, k + 1, j);
    }
  }

  lemma MarkedKept(m0: seq<int>, m1: seq<int>, bs: seq<int>, free: set<int>, bs': seq<int>, free': set<int>,
                   s: set<int>)
    requires Marked(m0, bs, free)
    requires Members(bs') <= Members(bs) + s && (forall x | x in s && x in Members(bs') :: MarkedAt(m1, free', x))
    requires forall x | x in Members(bs) && x !in s ::
               Field(m1, x, MAGIC_WORD) == Field(m0, x, MAGIC_WORD) && Field(m1, x, USED) == Field(m0, x, USED)
    requires forall x | x in Members(bs') && x !in s :: x in free' <==> x in free
    ensures Marked(m1, bs', free')
  {
    forall x | x in Members(bs') ensures MarkedAt(m1, free', x) {
      assert x !in s ==> MarkedAt(m0, free, x);
    }
  }

  /** `Linked` looks at header fields only. */
  lemma LinkedKept(m0: seq<int>, m1: seq<int>, bs: seq<int>, free: set<int>)
    requires Linked(m0, bs, free) && |m1| == |m0|
    requires forall x, f | x in Members(bs) && 0 <= f < HDR :: Field(m1, x, f) == Field(m0, x, f)
    ensures Linked(m1, bs, free)
  {
    forall i | 0 <= i < |bs| ensures ChainedAt(m1, bs, i) {
      assert ChainedAt(m0, bs, i) && bs[i] in Members(bs);
    }
    MarkedKept(m0, m1, bs, free, bs, free, {});
  }

  // Shape and accounts of each list change.

  lemma ShapeTake(bs: seq<int>, free: set<int>, end: int, k: nat)
    requires Shape(bs, free, end) && k < |bs|
    ensures Shape(bs, free - {bs[k]}, end)
  {
    forall j | 0 <= j < |bs| - 1 ensures NotBoth(bs, free - {bs[k]}, j) {
      assert NotBoth(bs, free, j);
    }
  }

  lemma AccountTake(bs: seq<int>, free: set<int>, live: map<int, int>, used: int, k: nat)
    requires Spaced(bs, HDR) && k + 1 < |bs| && bs[k] in free && Accounts(bs, free, live, used)
    ensures bs[k] + HDR !in live
    ensures Accounts(bs, free - {bs[k]}, live[bs[k] + HDR := bs[k + 1] - bs[k] - HDR], used + bs[k + 1] - bs[k])
  {
    SpacedDistinct(bs, HDR);
    Take(bs, HDR, free, k);
    BytesMark(bs, 0, Members(bs) - free, k);
    assert Members(bs) - (free - {bs[k]}) == Members(bs) - free + {bs[k]};
  }

  lemma ShapeSplit(bs: seq<int>, free: set<int>, end: int, k: nat, n: int)
    requires Shape(bs, free, end) && k + 1 < |bs| && bs[k] in free
    requires bs[k] + HDR + MIN_SIZE <= n && n + HDR + MIN_SIZE <= bs[k + 1] && n % ALIGN == 0
    ensures n !in Members(bs) && Shape(InsertAt(bs, k + 1, n), free + {n} - {bs[k]}, end)
  {
    SpacedDistinct(bs, HDR);
    TiledInsert(bs, 0, end, HDR, k, n);
    SpacedInsert(bs, HDR + MIN_SIZE, k, n);
    MembersInsert(bs, k + 1, n);
    CutNeighbours(bs, free, k, n);
    InRegion(bs, 0, end, HDR, k + 1);
  }

  lemma AccountSplit(bs: seq<int>, free: set<int>, live: map<int, int>, used: int, k: nat, n: int)
    requires Spaced(bs, HDR) && k + 1 < |bs| && bs[k] in free && n !in Members(bs) && n !in free
    requires Accounts(bs, free, live, used)
    ensures bs[k] + HDR !in live
    ensures Accounts(InsertAt(bs, k + 1, n), free + {n} - {bs[k]}, live[bs[k] + HDR := n - bs[k] - HDR],
            used + n - bs[k])
  {
    SpacedDistinct(bs, HDR);
    var bs', inUse := InsertAt(bs, k + 1, n), Members(bs) - free;
    Cut(bs, HDR, free, k, n);
    assert Distinct(bs');
    Take(bs', HDR, free + {n}, k);
    MembersInsert(bs, k + 1, n);
    BytesCut(bs, 0, inUse, k, n);
    BytesMark(bs', 0, inUse, k);
    assert Members(bs') - (free + {n} - {bs[k]}) == inUse + {bs[k]};
  }

  lemma AccountRelease(bs: seq<int>, free: set<int>, live: map<int, int>, used: int, k: nat)
    requires Spaced(bs, HDR) && k + 1 < |bs| && bs[k] !in free && Accounts(bs, free, live, used)
    ensures Accounts(bs, free + {bs[k]}, live - {bs[k] + HDR}, used - (bs[k + 1] - bs[k]))
  {
    SpacedDistinct(bs, HDR);
    Release(bs, HDR, free, k);
    var inUse := Members(bs) - (free + {bs[k]});
    BytesMark(bs, 0, inUse, k);
    assert Members(bs) - free == inUse + {bs[k]};
  }

  lemma AccountJoin(bs: seq<int>, free: set<int>, live: map<int, int>, used: int, k: nat)
    requires Spaced(bs, HDR) && k + 2 < |bs| && bs[k] in free && bs[k + 1] in free && Accounts(bs, free, live, used)
    ensures Accounts(RemoveAt(bs, k + 1), free - {bs[k + 1]}, live, used)
  {
    SpacedDistinct(bs, HDR);
    FromDistinct(bs);
    RemoveElem(bs, k + 1);
    var bs', inUse := RemoveAt(bs, k + 1), Members(bs) - free;
    Join(bs, HDR, free, k);
    assert InsertAt(bs', k + 1, bs[k + 1]) == bs;
    BytesCut(bs', 0, inUse, k, bs[k + 1]);
    assert Members(bs') - (free - {bs[k + 1]}) == inUse;
  }

  /** While the block at `x` is being freed its free neighbours are still apart from it. */
  ghost predicate Loose(bs: seq<int>, free: set<int>, end: int, x: int) {
    && Tiled(bs, 0, end, HDR) && Spaced(bs, HDR + MIN_SIZE)
    && x in free && free <= Members(bs) && end !in free
    && (forall i {:trigger NotBoth(bs, free, i)} | 0 <= i < |bs| - 1 && bs[i] != x && bs[i + 1] != x ::
          NotBoth(bs, free, i))
  }

  ghost predicate RightClosed(bs: seq<int>, free: set<int>, k: int) {
    0 <= k < |bs| - 1 ==> bs[k + 1] !in free
  }

  lemma LooseRelease(bs: seq<int>, free: set<int>, end: int, k: nat)
    requires Shape(bs, free, end) && k + 1 < |bs| && bs[k] !in free
    ensures Loose(bs, free + {bs[k]}, end, bs[k])
  {
    forall i | 0 <= i < |bs| - 1 && bs[i] != bs[k] && bs[i + 1] != bs[k] ensures NotBoth(bs, free + {bs[k]}, i) {
      assert NotBoth(bs, free, i);
    }
    assert Before(bs, HDR, k, |bs| - 1);
  }

  /** Merging block `k + 1` into the block `k` being freed. */
  lemma LooseRight(bs: seq<int>, free: set<int>, end: int, k: nat)
    requires k + 1 < |bs| && Loose(bs, free, end, bs[k]) && bs[k + 1] in free
    ensures k + 2 < |bs| && Loose(RemoveAt(bs, k + 1), free - {bs[k + 1]}, end, bs[k])
    ensures RightClosed(RemoveAt(bs, k + 1), free - {bs[k + 1]}, k)
  {
    var bs', free' := RemoveAt(bs, k + 1), free - {bs[k + 1]};
    assert k + 2 < |bs|;
    SpacedDistinct(bs, HDR);
    assert bs[k + 1] != bs[k] && bs[k + 2] != bs[k] ==> NotBoth(bs, free, k + 1);
    TiledRemove(bs, 0, end, HDR, k + 1);
    SpacedRemove(bs, HDR + MIN_SIZE, k + 1);
    forall i | 0 <= i < |bs'| - 1 && bs'[i] != bs[k] && bs'[i + 1] != bs[k] ensures NotBoth(bs', free', i) {
      assert NotBoth(bs, free, if i <= k then i else i + 1);
    }
  }

  /** Merging the block `k` being freed, closed on the right, into its left neighbour. */
  lemma LooseLeft(bs: seq<int>, free: set<int>, end: int, k: nat)
    requires 0 < k < |bs| && Loose(bs, free, end, bs[k]) && RightClosed(bs, free, k) && bs[k - 1] in free
    ensures k + 1 < |bs| && Shape(RemoveAt(bs, k), free - {bs[k]}, end)
  {
    var bs', free' := RemoveAt(bs, k), free - {bs[k]};
    assert k + 1 < |bs|;
    SpacedDistinct(bs, HDR);
    TiledRemove(bs, 0, end, HDR, k);
    SpacedRemove(bs, HDR + MIN_SIZE, k);
    forall i | 0 <= i < |bs'| - 1 ensures NotBoth(bs', free', i) {
      if i + 1 < k {
        assert NotBoth(bs, free, i);
      } else if i >= k {
        assert NotBoth(bs, free, i + 1);
      }
    }
  }

  lemma LooseDone(bs: seq<int>, free: set<int>, end: int, k: nat)
    requires k < |bs| && Loose(bs, free, end, bs[k]) && RightClosed(bs, free, k)
    requires k > 0 ==> bs[k - 1] !in free
    ensures Shape(bs, free, end)
  {
    SpacedDistinct(bs, HDR);
    forall i | 0 <= i < |bs| - 1 ensures NotBoth(bs, free, i) {
      if i != k && i + 1 != k {
        assert NotBoth(bs, free, i);
      }
    }
  }

  /** Writes all fields of one block header. */
  method InitBlock(mem: array<int>, x: int, used: int, next: int, prev: int, ghost items: set<int>)
    requires Apart(items, mem.Length, HDR) && x in items
    modifies mem
    ensures Field(mem[..], x, MAGIC_WORD) == HEAP_MAGIC && Field(mem[..], x, USED) == used
    ensures Field(mem[..], x, NEXT) == next && Field(mem[..], x, PREV) == prev
    ensures forall y, g | y in items && 0 <= g < HDR && y != x :: Field(mem[..], y, g) == Field(old(mem[..]), y, g)
    ensures SamePayload(old(mem[..]), mem[..], items, HDR)
  {
    Put(mem, x, MAGIC_WORD, HEAP_MAGIC, items, HDR);
    Put(mem, x, USED, used, items, HDR);
    Put(mem, x, NEXT, next, items, HDR);
    Put(mem, x, PREV, prev, items, HDR);
  }

  /** Writes the header of a free block at `n`, between the block at `p`, which becomes used, and the
      one at `q`. */
  method LinkBetween(mem: array<int>, p: int, n: int, q: int, last: bool, ghost items: set<int>)
    requires Apart(items, mem.Length, HDR) && p in items && n in items && q in items && p != n && n != q && p != q
    modifies mem
    ensures SameLinks(old(mem[..]), mem[..], items - {n}, p, q)
    ensures Field(mem[..], p, NEXT) == n && Field(mem[..], n, NEXT) == q && Field(mem[..], n, PREV) == p
    ensures !last ==> Field(mem[..], q, PREV) == n
    ensures Field(mem[..], n, MAGIC_WORD) == HEAP_MAGIC && Field(mem[..], n, USED) == 0 && Field(mem[..], p, USED) == 1
    ensures forall x | x in items && x != n ::
              && Field(mem[..], x, MAGIC_WORD) == Field(old(mem[..]), x, MAGIC_WORD)
              && (x != p ==> Field(mem[..], x, USED) == Field(old(mem[..]), x, USED))
    ensures SamePayload(old(mem[..]), mem[..], items, HDR)
  {
    InitBlock(mem, n, 0, q, p, items);
    Put(mem, p, NEXT, n, items, HDR);
    Put(mem, p, USED, 1, items, HDR);
    if !last {
      Put(mem, q, PREV, n, items, HDR);
    }
  }

  /** The two headers of an empty heap. */
  method FormatHeap(mem: array<int>, end: int)
    requires HDR <= end && end + HDR <= mem.Length
    modifies mem
    ensures Linked(mem[..], [0, end], {0})
  {
    ghost var items := {0, end};
    InitBlock(mem, 0, 0, end, 0, items);
    InitBlock(mem, end, 1, end, end, items);
    assert Members([0, end]) == items;
    assert MarkedAt(mem[..], {0}, 0) && MarkedAt(mem[..], {0}, end);
    assert ChainedAt(mem[..], [0, end], 0) && ChainedAt(mem[..], [0, end], 1);
  }

  lemma FreshHeap(end: int)
    requires end >= HDR + MIN_SIZE && end % ALIGN == 0
    ensures Shape([0, end], {0}, end) && Accounts([0, end], {0}, map[], 0) && Lowest([0, end], {0}, end, 0)
  {
    var bs := [0, end];
    assert bs[1..] == [end];
    assert Members(bs) == {0, end};
  }

  class Heap {
    const mem: array<int>      // the memory from heap_ptr
    var memSize: int           // mem_size_aligned
    var lfree: int             // offset of the lowest free block
    var usedMem: int
    var maxMem: int

    ghost var blocks: seq<int>
    ghost var free: set<int>
    ghost var live: map<int, int>  // the allocated payloads, offset to size
    ghost var history: seq<int>    // the bytes in use at first and after each change

    /** rt_system_heap_init between two addresses that leave room for a block. */
    constructor (mem: array<int>, begin: nat, end: nat)
      requires begin < U32 && end < U32 && HeapSize(begin, end) >= MIN_SIZE
      requires mem.Length >= HeapSize(begin, end) + 2 * HDR
      modifies mem
      ensures Valid() && this.mem == mem && memSize == HeapSize(begin, end)
      ensures live == map[] && blocks == [0, memSize + HDR] && free == {0} && lfree == 0 && usedMem == 0
      ensures maxMem == 0 && history == [0]
    {
      var size := HeapSize(begin, end);
      HeapSizeAligned(begin, end);
      FormatHeap(mem, size + HDR);
      this.mem, memSize, lfree, usedMem, maxMem := mem, size, 0, 0, 0;
      blocks, free, live, history := [0, size + HDR], {0}, map[], [0];
      FreshHeap(size + HDR);
    }

    ghost predicate LinkedWith()
      reads `blocks, `free, mem
    {
      Linked(mem[..], blocks, free)
    }

    function End(): int
      reads `memSize
    {
      memSize + HDR
    }

    ghost predicate Valid()
      reads this, mem
    {
      && MIN_SIZE <= memSize && memSize % ALIGN == 0 && End() + HDR < U32
      && LinkedWith()
      && Shape(blocks, free, End())
      && Accounts(blocks, free, live, usedMem)
      && Lowest(blocks, free, End(), lfree)
      && Recorded(history, usedMem, maxMem)
    }

    ghost function Abs(): Books
      reads this
    {
      Books(live, blocks, free, usedMem, history)
    }

    /** Cuts block `k`, which is free at `ptr`, at `ptr2`: the front becomes used. */
    method SplitBlock(ptr: int, ptr2: int, ghost k: nat)
      requires LinkedWith() && Shape(blocks, free, End()) && k + 1 < |blocks| && blocks[k] == ptr && ptr in free
      requires ptr + HDR <= ptr2 && ptr2 + HDR <= blocks[k + 1] && ptr2 !in Members(blocks)
      modifies mem, `blocks, `free
      ensures blocks == InsertAt(old(blocks), k + 1, ptr2) && free == old(free) + {ptr2} - {ptr}
      ensures LinkedWith() && SamePayload(old(mem[..]), mem[..], Members(old(blocks)) + {ptr2}, HDR)
    {
      ghost var items := Members(blocks) + {ptr2};
      assert items == Members(blocks) + {} + {ptr2} && Members(blocks) == Members(blocks) + {};
      ApartInsert(blocks, {}, 0, End(), HDR, mem.Length, k, ptr2);
      MembersInsert(blocks, k + 1, ptr2);
      assert ChainedAt(mem[..], blocks, k) && ptr in Members(blocks) && blocks[k + 1] in Members(blocks);
      assert Before(blocks, HDR, k, k + 1) && (k + 2 < |blocks| ==> Before(blocks, HDR, k + 1, |blocks| - 1));
      var next := mem[ptr + NEXT];
      LinkBetween(mem, ptr, ptr2, next, next == memSize + HDR, items);
      assert MarkedAt(old(mem[..]), free, ptr);
      ChainInsert(old(mem[..]), mem[..], blocks, k, ptr2);
      MarkedKept(old(mem[..]), mem[..], blocks, free, InsertAt(blocks, k + 1, ptr2), free + {ptr2} - {ptr},
          {ptr, ptr2});
      blocks := InsertAt(blocks, k + 1, ptr2);
      free := free + {ptr2} - {ptr};
    }

    method SetUsed(x: int, used: int)
      requires LinkedWith() && x in Members(blocks) && 0 <= used <= 1
      modifies mem, `free
      ensures free == if used == 1 then old(free) - {x} else old(free) + {x}
      ensures LinkedWith() && SamePayload(old(mem[..]), mem[..], Members(blocks), HDR)
    {
      assert MarkedAt(mem[..], free, x);
      Put(mem, x, USED, used, Members(blocks), HDR);
      forall i | 0 <= i < |blocks| ensures ChainedAt(mem[..], blocks, i) {
        assert ChainedAt(old(mem[..]), blocks, i) && blocks[i] in Members(blocks);
      }
      MarkedKept(old(mem[..]), mem[..], blocks, free, blocks, if used == 1 then free - {x} else free + {x}, {x});
      free := if used == 1 then free - {x} else free + {x};
    }

    /** Takes block `k` out of the chain, between `p` and `q`. */
    method Unchain(p: int, q: int, ghost k: nat)
      requires LinkedWith() && Tiled(blocks, 0, End(), HDR) && 0 < k && k + 1 < |blocks|
      requires blocks[k - 1] == p && blocks[k + 1] == q
      modifies mem, `blocks, `free
      ensures blocks == RemoveAt(old(blocks), k) && free == old(free) - {old(blocks)[k]}
      ensures LinkedWith() && SamePayload(old(mem[..]), mem[..], Members(old(blocks)), HDR)
    {
      ghost var items := Members(blocks);
      TiledRemove(blocks, 0, End(), HDR, k);
      assert p in items && q in items && Before(blocks, HDR, k - 1, k + 1);
      Put(mem, p, NEXT, q, items, HDR);
      Put(mem, q, PREV, p, items, HDR);
      ChainRemove(old(mem[..]), mem[..], blocks, k);
      MarkedKept(old(mem[..]), mem[..], blocks, free, RemoveAt(blocks, k), free - {blocks[k]}, {});
      free := free - {blocks[k]};
      blocks := RemoveAt(blocks, k);
    }

    /** The first-fit walk from `lfree`. */
    method FindFit(n: int) returns (found: bool, ptr: int, ghost k: nat)
      requires Valid() && MIN_SIZE <= n <= memSize
      ensures k < |blocks| && blocks[k] == ptr
      ensures forall j | 0 <= j < k :: !Fits(blocks, free, j, n)
      ensures found ==> Fits(blocks, free, k, n) && !Beyond(blocks, memSize, k, n)
      ensures found <==> CanServe(Abs(), memSize, n)
    {
      ptr := lfree;
      k :| 0 <= k < |blocks| && blocks[k] == lfree;
      forall j | 0 <= j < k ensures !Fits(blocks, free, j, n) {
        assert Before(blocks, HDR, j, k);
      }
      found := false;
      while ptr < memSize - n
        invariant k < |blocks| && blocks[k] == ptr
        invariant forall j | 0 <= j < k :: !Fits(blocks, free, j, n)
        decreases |blocks| - k
      {
        assert ChainedAt(mem[..], blocks, k) && ptr in Members(blocks) && MarkedAt(mem[..], free, ptr);
        if mem[ptr + USED] == 0 && mem[ptr + NEXT] - (ptr + HDR) >= n {
          found := true;
          return;
        }
        ptr := mem[ptr + NEXT];
        k := k + 1;
      }
      AllBeyond(blocks, memSize, free, k, n);
    }

    /** Moves `lfree` up to the next free block. */
    method AdvanceLfree()
      requires LinkedWith() && Shape(blocks, free, End()) && lfree in Members(blocks)
      requires forall x | x in free :: lfree <= x
      modifies `lfree
      ensures Lowest(blocks, free, End(), lfree)
    {
      ghost var k :| 0 <= k < |blocks| && blocks[k] == lfree;
      assert lfree in Members(blocks) && MarkedAt(mem[..], free, lfree);
      while mem[lfree + USED] != 0 && lfree != memSize + HDR
        invariant lfree in Members(blocks) && k < |blocks| && blocks[k] == lfree && MarkedAt(mem[..], free, lfree)
        invariant forall x | x in free :: lfree <= x
        decreases |blocks| - k
      {
        assert ChainedAt(mem[..], blocks, k) && k + 1 < |blocks|;
        forall x | x in free ensures blocks[k + 1] <= x {
          var j :| 0 <= j < |blocks| && blocks[j] == x;
          assert j < k ==> Before(blocks, HDR, j, k);
          assert k + 1 < j ==> Before(blocks, HDR, k + 1, j);
        }
        lfree := mem[lfree + NEXT];
        k := k + 1;
        assert lfree in Members(blocks) && MarkedAt(mem[..], free, lfree);
      }
    }

    method CountUsed(bytes: int)
      requires Recorded(history, usedMem, maxMem)
      modifies `usedMem, `maxMem, `history
      ensures usedMem == old(usedMem) + bytes && maxMem == Max(old(maxMem), usedMem)
      ensures history == old(history) + [usedMem] && Recorded(history, usedMem, maxMem)
    {
      usedMem := usedMem + bytes;
      Records(history, old(usedMem), maxMem, usedMem);
      history := history + [usedMem];
      if maxMem < usedMem {
        maxMem := usedMem;
      }
    }

    /** Serves `n` bytes from the front of block `k`, which is free at `ptr`. */
    method TakeFront(ptr: int, n: int, ghost k: nat)
      requires Valid() && k + 1 < |blocks| && blocks[k] == ptr && ptr in free
      requires MIN_SIZE <= n && n % ALIGN == 0 && ptr + HDR + n + HDR + MIN_SIZE <= blocks[k + 1]
      modifies mem, `blocks, `free, `live, `usedMem, `maxMem, `history
      ensures LinkedWith() && Shape(blocks, free, End()) && Accounts(blocks, free, live, usedMem)
      ensures ptr + HDR !in old(live) && live == old(live)[ptr + HDR := n]
      ensures usedMem == old(usedMem) + n + HDR && maxMem == Max(old(maxMem), usedMem)
      ensures history == old(history) + [usedMem] && Recorded(history, usedMem, maxMem)
      ensures free == old(free) + {ptr + HDR + n} - {ptr} && blocks == InsertAt(old(blocks), k + 1, ptr + HDR + n)
      ensures SameBytes(old(mem[..]), mem[..], old(live))
    {
      var ptr2 := ptr + HDR + n;
      assert Aligned(blocks, 0, k);
      ShapeSplit(blocks, free, End(), k, ptr2);
      AccountSplit(blocks, free, live, usedMem, k, ptr2);
      CountUsed(n + HDR);
      SplitBlock(ptr, ptr2, k);
      assert Members(old(blocks)) + {ptr2} == Members(old(blocks)) + {} + {ptr2};
      Isolated(old(mem[..]), mem[..], old(blocks), {}, 0, End(), HDR, old(free), live, {ptr2}, k);
      live := live[ptr + HDR := n];
    }

    /** Serves all of block `k`, which is free at `ptr`. */
    method TakeAll(ptr: int, size: int, ghost k: nat)
      requires Valid() && k + 1 < |blocks| && blocks[k] == ptr && ptr in free && size == blocks[k + 1] - ptr - HDR
      modifies mem, `free, `live, `usedMem, `maxMem, `history
      ensures LinkedWith() && Shape(blocks, free, End()) && Accounts(blocks, free, live, usedMem)
      ensures ptr + HDR !in old(live) && live == old(live)[ptr + HDR := size]
      ensures usedMem == old(usedMem) + size + HDR && maxMem == Max(old(maxMem), usedMem)
      ensures history == old(history) + [usedMem] && Recorded(history, usedMem, maxMem)
      ensures free == old(free) - {ptr}
      ensures SameBytes(old(mem[..]), mem[..], old(live))
    {
      ShapeTake(blocks, free, End(), k);
      AccountTake(blocks, free, live, usedMem, k);
      CountUsed(size + HDR);
      SetUsed(ptr, 1);
      assert Members(blocks) == Members(blocks) + {} + {};
      Isolated(old(mem[..]), mem[..], blocks, {}, 0, End(), HDR, old(free), live, {}, 0);
      live := live[ptr + HDR := size];
    }

    /** Serves `n` bytes from block `k`, which is free at `ptr`, cut if the rest can hold a block. */
    method Serve(ptr: int, bytes: int, n: int, ghost k: nat) returns (r: int)
      requires Valid() && LowestFit(blocks, free, k, n) && blocks[k] == ptr && MIN_SIZE <= n && n % ALIGN == 0
      requires bytes == blocks[k + 1] - ptr - HDR
      modifies mem, `blocks, `free, `live, `usedMem, `maxMem, `history
      ensures LinkedWith() && Shape(blocks, free, End()) && Accounts(blocks, free, live, usedMem)
      ensures Recorded(history, usedMem, maxMem) && maxMem == Max(old(maxMem), usedMem)
      ensures r == ptr + HDR && Allocated(old(Abs()), Abs(), r, n, k)
      ensures SameBytes(old(mem[..]), mem[..], old(live))
    {
      ghost var b0 := Abs();
      if bytes >= n + HDR + MIN_SIZE {
        TakeFront(ptr, n, k);
        AllocatedPart(b0, Abs(), ptr + HDR, n, k);
      } else {
        TakeAll(ptr, bytes, k);
        AllocatedWhole(b0, Abs(), ptr + HDR, n, k);
      }
      r := ptr + HDR;
    }

    /** rt_malloc: NULL, or the lowest-address free block that fits. */
    method Malloc(size: nat) returns (r: int, ghost k: nat)
      requires Valid() && size < U32
      modifies mem, this
      ensures Valid() && memSize == old(memSize)
      ensures size == 0 || AlignUp(size) > memSize ==> r == NULL && mem[..] == old(mem[..]) && Abs() == old(Abs())
      ensures 0 < size && AlignUp(size) <= memSize ==>
                AllocatedOrNot(old(mem[..]), old(Abs()), mem[..], Abs(), r, Request(size), k, memSize)
      ensures r != NULL ==> r in live && Request(size) <= live[r] < Request(size) + HDR + MIN_SIZE
      ensures maxMem == Max(old(maxMem), usedMem)
    {
      Records(history, usedMem, maxMem, 0);
      r, k := NULL, 0;
      if size == 0 || AlignUp(size) > memSize {
        return;
      }
      var n := Request(size);
      var found, ptr;
      found, ptr, k := FindFit(n);
      if !found {
        return;
      }
      assert ChainedAt(mem[..], blocks, k);
      r := Serve(ptr, mem[ptr + NEXT] - (ptr + HDR), n, k);
      LowestAfter(old(Abs()), Abs(), r, n, k, End(), lfree);
      if ptr == lfree {
        AdvanceLfree();
      }
    }

    /** Block `k` at `x` is being freed; `lfree` is already no higher than any free block. */
    ghost predicate Freeing(x: int, k: int)
      reads `blocks, `free, `live, `usedMem, `lfree, `memSize, mem
    {
      && LinkedWith() && Loose(blocks, free, End(), x) && 0 <= k < |blocks| && blocks[k] == x
      && Accounts(blocks, free, live, usedMem)
      && lfree in free && (forall y | y in free :: lfree <= y)
    }

    /** plug_holes, forward: merges the next block into `x` if it is free. */
    method PlugForward(x: int, ghost k: nat)
      requires Freeing(x, k)
      modifies mem, `blocks, `free
      ensures Freeing(x, k) && RightClosed(blocks, free, k) && Members(blocks) <= Members(old(blocks))
      ensures SamePayload(old(mem[..]), mem[..], Members(old(blocks)), HDR)
      ensures k > 0 ==> blocks[k - 1] == old(blocks)[k - 1] && (blocks[k - 1] in free <==> blocks[k - 1] in old(free))
    {
      assert ChainedAt(mem[..], blocks, k) && x in Members(blocks) && k + 1 < |blocks|;
      assert blocks[k + 1] in Members(blocks) && Before(blocks, HDR, k, k + 1);
      var next := mem[x + NEXT];
      assert MarkedAt(mem[..], free, next);
      if x != next && mem[next + USED] == 0 && next != memSize + HDR {
        assert ChainedAt(mem[..], blocks, k + 1);
        if lfree == next {
          assert false;  // lfree is at most x, so its reset here never runs
        }
        LooseRight(blocks, free, End(), k);
        AccountJoin(blocks, free, live, usedMem, k);
        assert k > 0 ==> Before(blocks, HDR, k - 1, k + 1);
        TiledRemove(blocks, 0, End(), HDR, k + 1);
        Unchain(x, mem[next + NEXT], k + 1);
      }
    }

    /** plug_holes, backward: merges `x` into the previous block if that is free. */
    method PlugBackward(x: int, ghost k: nat)
      requires Freeing(x, k) && RightClosed(blocks, free, k)
      modifies mem, `blocks, `free
      ensures LinkedWith() && Shape(blocks, free, End()) && Accounts(blocks, free, live, usedMem)
      ensures Lowest(blocks, free, End(), lfree)
      ensures SamePayload(old(mem[..]), mem[..], Members(old(blocks)), HDR)
    {
      assert ChainedAt(mem[..], blocks, k) && x in Members(blocks) && k + 1 < |blocks|;
      var prev := mem[x + PREV];
      assert prev in Members(blocks) && MarkedAt(mem[..], free, prev);
      assert k > 0 ==> Before(blocks, HDR, k - 1, k);
      if prev != x && mem[prev + USED] == 0 {
        if lfree == x {
          assert false;  // lfree is at most prev, so its reset here never runs
        }
        LooseLeft(blocks, free, End(), k);
        AccountJoin(blocks, free, live, usedMem, k - 1);
        Unchain(prev, mem[x + NEXT], k);
      } else {
        LooseDone(blocks, free, End(), k);
      }
    }

    /** Marks the live block at `x` free. */
    method BeginFree(x: int) returns (ghost k: nat)
      requires Valid() && x + HDR in live
      modifies mem, `free, `live, `usedMem, `lfree
      ensures Freeing(x, k) && live == old(live) - {x + HDR} && usedMem == old(usedMem) - HDR - old(live)[x + HDR]
      ensures usedMem <= old(usedMem)
      ensures SamePayload(old(mem[..]), mem[..], Members(blocks), HDR)
    {
      k := LiveBlock(blocks, HDR, free, x + HDR);
      assert ChainedAt(mem[..], blocks, k) && x in Members(blocks) && Before(blocks, HDR, k, k + 1);
      LooseRelease(blocks, free, End(), k);
      AccountRelease(blocks, free, live, usedMem, k);
      InRegion(blocks, 0, End(), HDR, k);
      InRegion(blocks, 0, End(), HDR, k + 1);
      SetUsed(x, 0);
      if x < lfree {
        lfree := x;
      }
      assert ChainedAt(mem[..], blocks, k);
      usedMem := usedMem - (mem[x + NEXT] - x);
      live := live - {x + HDR};
    }

    /** Frees the live block at `rmem`. */
    method FreeBlock(rmem: int)
      requires Valid() && rmem in live
      modifies mem, `blocks, `free, `live, `usedMem, `lfree
      ensures LinkedWith() && Shape(blocks, free, End()) && Accounts(blocks, free, live, usedMem)
      ensures Lowest(blocks, free, End(), lfree)
      ensures live == old(live) - {rmem} && usedMem == old(usedMem) - HDR - old(live)[rmem] <= old(usedMem)
      ensures SameBytes(old(mem[..]), mem[..], old(live))
    {
      ghost var blocks0, free0 := blocks, free;
      ghost var k := BeginFree(rmem - HDR);
      PlugForward(rmem - HDR, k);
      PlugBackward(rmem - HDR, k);
      assert Members(blocks0) == Members(blocks0) + {} + {};
      Isolated(old(mem[..]), mem[..], blocks0, {}, 0, End(), HDR, free0, old(live), {}, 0);
    }

    /** rt_free. */
    method Free(rmem: int)
      requires Valid() && (rmem == NULL || rmem in live)
      modifies mem, this
      ensures Valid() && memSize == old(memSize) && maxMem == old(maxMem)
      ensures live == (if rmem == NULL then old(live) else old(live) - {rmem})
      ensures rmem == NULL ==> mem[..] == old(mem[..]) && Abs() == old(Abs())
      ensures rmem != NULL ==> Released(old(Abs()), Abs(), rmem)
      ensures SameBytes(old(mem[..]), mem[..], old(live))
    {
      if rmem != NULL {
        FreeBlock(rmem);
        Records(history, old(usedMem), maxMem, usedMem);
        history := history + [usedMem];
      }
    }

    lemma NullNotLive()
      requires Valid()
      ensures NULL !in live
    {
      if NULL in live {
        PayloadClear(blocks, {}, 0, End(), HDR, free, NULL);
      }
    }

    /** rt_memcpy of `count` bytes into the live payload at `dst` from the live payload at `src`. */
    method Copy(dst: int, src: int, count: int)
      requires Valid() && dst in live && src in live && dst != src && 0 <= count <= live[dst] && count <= live[src]
      modifies mem
      ensures Valid()
      ensures SamePrefix(old(mem[..]), src, mem[..], dst, count)
      ensures SameBytes(old(mem[..]), mem[..], live - {dst})
    {
      PayloadClear(blocks, {}, 0, End(), HDR, free, dst);
      PayloadClear(blocks, {}, 0, End(), HDR, free, src);
      assert blocks[|blocks| - 1] in Members(blocks) && Members(blocks) == Members(blocks) + {};
      CopyCells(mem, dst, src, count);
      assert mem[..][dst..dst + count] == mem[dst..dst + count]
          && old(mem[..])[src..src + count] == old(mem[src..src + count]);
      LinkedKept(old(mem[..]), mem[..], blocks, free);
    }

    /** The part of rt_realloc that allocates, copies and frees. */
    method Move(rmem: int, size: int, newsize: nat) returns (r: int, ghost half: Half)
      requires Valid() && rmem in live && 0 <= size == live[rmem] && 0 < newsize <= memSize
               && newsize == AlignUp(newsize)
      modifies mem, this
      ensures Valid() && memSize == old(memSize)
      ensures r == NULL <==> !CanServe(old(Abs()), memSize, Request(newsize))
      ensures r == NULL ==> mem[..] == old(mem[..]) && Abs() == old(Abs())
      ensures r != NULL ==> MovedBooks(old(Abs()), half, Abs(), rmem, r, Request(newsize))
      ensures r != NULL ==> r !in old(live) && r in live && live[r] >= newsize && live - {r} == old(live) - {rmem}
      ensures r != NULL ==> SamePrefix(old(mem[..]), rmem, mem[..], r, Min(size, newsize))
      ensures SameBytes(old(mem[..]), mem[..], old(live) - {rmem})
      ensures maxMem == MostUsed(old(maxMem), r != NULL, half.books.used, usedMem)
    {
      ghost var m0, live0 := mem[..], live;
      ghost var k;
      NullNotLive();
      r, k := Malloc(newsize);
      half := Half(k, Abs());
      Records(history, usedMem, maxMem, 0);
      if r != NULL {
        ghost var m1, live1 := mem[..], live;
        assert live1 - {r} == live0;
        Copy(r, rmem, Min(size, newsize));
        ghost var m2 := mem[..];
        Free(rmem);
        MovedBytes(m0, m1, m2, mem[..], live0, live1, rmem, r, Min(size, newsize));
        Records(history, usedMem, maxMem, 0);
      }
    }

    /** Size and header of a live payload. */
    lemma LiveItem(p: int)
      requires Valid() && p in live
      ensures 0 <= p - HDR && 0 < p < End() && End() + HDR <= mem.Length
      ensures 0 <= live[p] == Field(mem[..], p - HDR, NEXT) - p
    {
      var k := LiveBlock(blocks, HDR, free, p);
      PayloadClear(blocks, {}, 0, End(), HDR, free, p);
      assert ChainedAt(mem[..], blocks, k) && blocks[|blocks| - 1] in Members(blocks);
      assert Before(blocks, HDR + MIN_SIZE, k, |blocks| - 1);
    }

    /** rt_realloc of a live block. */
    method Resize(rmem: int, n: nat) returns (r: int, ghost half: Half)
      requires Valid() && rmem in live && 0 < n <= memSize && n == AlignUp(n)
      modifies mem, this
      ensures Valid() && memSize == old(memSize)
      ensures Resized(old(mem[..]), old(Abs()), mem[..], half, Abs(), rmem, r, n, Request(n), memSize)
      ensures maxMem == MostUsed(old(maxMem), r != NULL && r != rmem, half.books.used, usedMem)
    {
      half := Half(0, Abs());
      Records(history, usedMem, maxMem, 0);
      NullNotLive();
      LiveItem(rmem);
      var size := mem[rmem - HDR + NEXT] - rmem;
      if size == n {
        r := rmem;
      } else {
        r, half := Move(rmem, size, n);
      }
    }

    /** rt_realloc. An address outside the heap is handed back; a block of another size always
        moves, even to shrink. */
    method Realloc(rmem: int, newsize: nat) returns (r: int, ghost half: Half)
      requires Valid() && newsize < U32
      requires rmem == NULL || rmem in live || (AlignUp(newsize) != 0 && !(0 <= rmem < End()))
      modifies mem, this
      ensures Valid() && memSize == old(memSize)
      ensures Reallocated(old(mem[..]), old(Abs()), mem[..], half, Abs(), rmem, r, newsize, memSize)
      ensures maxMem == MostUsed(old(maxMem), rmem in old(live) && r != NULL && r != rmem, half.books.used, usedMem)
    {
      half := Half(0, Abs());
      Records(history, usedMem, maxMem, 0);
      NullNotLive();
      AlignTwice(newsize);
      var aligned := AlignUp(newsize);
      assert Request(aligned) == Request(newsize);
      if aligned > memSize {
        return NULL, half;
      }
      if aligned == 0 {
        Free(rmem);
        return NULL, half;
      }
      if rmem in live {
        LiveItem(rmem);
      }
      if rmem == NULL {
        ghost var k;
        r, k := Malloc(aligned);
        half := half.(k := k);
      } else if rmem < 0 || rmem >= memSize + HDR {
        r := rmem;
      } else {
        r, half := Resize(rmem, aligned);
      }
    }
  }

  // Consequences of the heap invariant.

  /** The search passes over a fitting block exactly when it is the last one and an exact fit. */
  lemma EndFitRefused(bs: seq<int>, free: set<int>, size: int, i: int, n: int)
    requires Shape(bs, free, size + HDR) && MIN_SIZE <= n && Fits(bs, free, i, n)
    ensures Beyond(bs, size, i, n) <==> i == |bs| - 2 && bs[i + 1] - bs[i] - HDR == n
  {
    if i < |bs| - 2 {
      assert Before(bs, HDR, i + 1, |bs| - 1);
    }
  }

  /** A request that finds a free block large enough and still fails has one such block only, the
      last one, and fits it exactly. */
  lemma FailsOnlyAtEnd(bs: seq<int>, free: set<int>, size: int, i: int, j: int, n: int)
    requires Shape(bs, free, size + HDR) && MIN_SIZE <= n
    requires forall k | Fits(bs, free, k, n) :: Beyond(bs, size, k, n)
    requires Fits(bs, free, i, n) && Fits(bs, free, j, n)
    ensures i == j == |bs| - 2 && bs[i + 1] - bs[i] - HDR == n
  {
    EndFitRefused(bs, free, size, i, n);
    EndFitRefused(bs, free, size, j, n);
  }

  /** `used_mem` counts the allocated payloads with their headers, and the rest of the heap is free. */
  lemma Conservation(bs: seq<int>, free: set<int>, live: map<int, int>, used: int, end: int)
    requires Shape(bs, free, end) && Accounts(bs, free, live, used)
    ensures used == Sum(live) + HDR * |live|
    ensures used + Bytes(bs, 0, free) == end
  {
    SpacedDistinct(bs, HDR);
    BytesTile(bs, 0, free);
    BytesTile(bs, HDR, free);
    LiveSum(bs, HDR, free);
    LiveCount(bs, HDR, free);
    BytesOverhead(bs, HDR, free);
    assert |free| <= |bs| - 1;
  }

  /** With nothing allocated the heap is one free block, and it is the lowest. */
  lemma AllFreeIsOneBlock(bs: seq<int>, free: set<int>, live: map<int, int>, used: int, end: int, lfree: int)
    requires Shape(bs, free, end) && Accounts(bs, free, live, used) && Lowest(bs, free, end, lfree) && live == map[]
    ensures bs == [0, end] && free == {0} && used == 0 && lfree == 0
  {
    SpacedDistinct(bs, HDR);
    forall i | 0 <= i < |bs| - 1 ensures bs[i] in free {
      if bs[i] !in free {
        BlockLive(bs, HDR, free, i);
        assert false;
      }
    }
    assert NotBoth(bs, free, 0) || |bs| == 2;
    assert Before(bs, HDR, 0, 1);
    assert Bytes(bs[1..], 0, Members(bs) - free) == 0;
  }

  /** A live payload is aligned with the heap, inside it, has the minimum size or more, and meets
      no header and no other live payload. */
  lemma Isolation(bs: seq<int>, free: set<int>, live: map<int, int>, used: int, end: int, p: int)
    requires Shape(bs, free, end) && Accounts(bs, free, live, used) && p in live
    ensures p % ALIGN == 0 && HDR <= p && MIN_SIZE <= live[p] && p + live[p] <= end
    ensures forall x | x in Members(bs) :: x + HDR <= p || p + live[p] <= x
    ensures forall q | q in live && q != p :: q + live[q] <= p || p + live[p] <= q
  {
    PayloadClear(bs, {}, 0, end, HDR, free, p);
    var i := LiveBlock(bs, HDR, free, p);
    assert Before(bs, HDR + MIN_SIZE, i, i + 1);
    assert Members(bs) == Members(bs) + {};
  }

  /** A served block is at least as long as the request exactly when rounding up does not wrap. */
  lemma RequestCovers(size: nat)
    requires size < U32
    ensures Request(size) >= size <==> size <= U32 - ALIGN
  {
    if size > U32 - ALIGN {
      assert (size + ALIGN - 1) % U32 == size + ALIGN - 1 - U32;
    }
  }

  /** It is the least aligned number that covers the size and the minimum block. */
  lemma RequestIsLeast(size: nat, n: nat)
    requires size <= U32 - ALIGN
    ensures n >= size && n >= MIN_SIZE && n % ALIGN == 0 ==> Request(size) <= n
    ensures Request(size) >= size && Request(size) >= MIN_SIZE && Request(size) % ALIGN == 0
  {
    assert (size + ALIGN - 1) % U32 == size + ALIGN - 1;
    assert n % ALIGN == 0 ==> n == ALIGN * (n / ALIGN);
  }

  /** A request just below 4 GiB is rounded to the minimum block. */
  lemma RequestWraps()
    ensures Request(U32 - 1) == MIN_SIZE < U32 - 1
  {
    assert (U32 - 1 + ALIGN - 1) % U32 == 2;
  }
}
