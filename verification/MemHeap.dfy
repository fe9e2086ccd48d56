/** The memory heap of memheap.c: a ring of items in address order that tiles the pool, with a
    last-in-first-out ring of the free items threaded through the same headers. */
module MemHeap {
  import opened Blocks
  import opened FlatMemory
  import opened Lists
  import opened Words

  const HDR := 24             // RT_MEMHEAP_SIZE
  const MINI := 12            // RT_MEMHEAP_MINIALLOC
  const MAGIC := 0x1ea01ea0   // RT_MEMHEAP_MAGIC
  const USED := 1             // RT_MEMHEAP_USED

  // Field offsets of struct rt_memheap_item.
  const MAGIC_WORD := 0
  const POOL := 4
  const NEXT := 8
  const PREV := 12
  const NEXT_FREE := 16
  const PREV_FREE := 20

  /** RT_ALIGN on a 32-bit size, followed by the minimum block size. */
  function Request(size: nat): nat {
    var aligned := (size + ALIGN - 1) % U32 / ALIGN * ALIGN;
    if aligned < MINI then MINI else aligned
  }

  /** The blocks tile the pool and the last one is the tailer. */
  ghost predicate Tiles(bs: seq<int>, start: int, pool: int) {
    Tiled(bs, start, start + pool - HDR, HDR)
  }

  /** The sizes compared by the growth test do not wrap. */
  lemma GrowFits(bs: seq<int>, start: int, pool: int, k: nat)
    requires Tiles(bs, start, pool) && k + 2 < |bs|
    ensures bs[k] + HDR <= bs[k + 1] && bs[k + 1] + HDR <= bs[k + 2] && bs[k + 2] - bs[k] <= pool
  {
    assert Before(bs, HDR, k, k + 1) && Before(bs, HDR, k + 1, k + 2);
    InRegion(bs, start, start + pool - HDR, HDR, k);
    InRegion(bs, start, start + pool - HDR, HDR, k + 2);
  }

  /** The free list holds exactly the free blocks, which have no free neighbours. */
  ghost predicate Shape(bs: seq<int>, fr: seq<int>, flags: set<int>, start: int, pool: int) {
    var tailer := start + pool - HDR;
    && Tiles(bs, start, pool)
    && flags == Members(fr) && NoDuplicates(fr)
    && flags <= Members(bs) && tailer !in flags
    && NoNeighbours(bs, flags)
  }

  /** What a reallocation of the live block at `ptr` to `n` bytes promises: on failure nothing
      changes; otherwise `r` holds at least `n` bytes, and no more than a header and the minimum block
      above that, which start with the old contents, and every other allocation keeps its place, its
      size and its bytes. A block that moves is all of its fit unless that is larger still. */
  ghost predicate Resized(m0: seq<int>, m1: seq<int>, live0: map<int, int>, live1: map<int, int>,
                          ptr: int, r: int, n: int, inPlace: bool)
    requires ptr in live0
  {
    && (inPlace ==> r == ptr) && (!inPlace ==> r !in live0)
    && (r == NULL ==> live1 == live0 && m1 == m0)
    && (r != NULL ==>
          && r in live1 && live1 - {r} == live0 - {ptr}
          && n <= live1[r] <= n + HDR + MINI
          && (!inPlace ==> live1[r] == if ItemSize(m0, r - HDR) > n + HDR + MINI then n else ItemSize(m0, r - HDR))
          && SamePrefix(m0, ptr, m1, r, Min(live0[ptr], n)))
    && SameBytes(m0, m1, live0 - {ptr})
  }

  /** `live` is the map of allocated payloads and `available` the sum of the free block sizes. */
  ghost predicate Accounts(bs: seq<int>, flags: set<int>, live: map<int, int>, available: int) {
    live == Live(bs, HDR, flags) && available == Bytes(bs, HDR, flags)
  }

  lemma ShapeTake(bs: seq<int>, fr: seq<int>, flags: set<int>, start: int, pool: int, k: nat, i: nat)
    requires Shape(bs, fr, flags, start, pool) && k < |fr| && i + 1 < |bs| && bs[i] == fr[k]
    ensures Shape(bs, RemoveAt(fr, k), flags - {bs[i]}, start, pool)
  {
    RemoveElem(fr, k);
    forall j | 0 <= j < |bs| - 1 ensures NotBoth(bs, flags - {bs[i]}, j) {
      assert NotBoth(bs, flags, j);
    }
  }

  lemma AccountTake(bs: seq<int>, flags: set<int>, live: map<int, int>, available: int, i: nat, size: int)
    requires Spaced(bs, HDR) && i + 1 < |bs| && bs[i] in flags && size == bs[i + 1] - bs[i] - HDR
    requires Accounts(bs, flags, live, available)
    ensures bs[i] + HDR !in live
    ensures Accounts(bs, flags - {bs[i]}, live[bs[i] + HDR := size], available - size)
  {
    SpacedDistinct(bs, HDR);
    Take(bs, HDR, flags, i);
  }

  /** The list after cutting the free block `i` at `n` and taking its front. */
  lemma ShapeSplit(bs: seq<int>, fr: seq<int>, flags: set<int>, start: int, pool: int, k: nat, i: nat, n: int)
    requires Shape(bs, fr, flags, start, pool) && k < |fr| && i + 1 < |bs| && bs[i] == fr[k]
    requires bs[i] + HDR <= n && n + HDR <= bs[i + 1] && (n - start) % ALIGN == 0
    ensures Shape(InsertAt(bs, i + 1, n), [n] + RemoveAt(fr, k), flags + {n} - {bs[i]}, start, pool)
    ensures n !in bs
  {
    SpacedDistinct(bs, HDR);
    var bs' := InsertAt(bs, i + 1, n);
    TiledInsert(bs, start, start + pool - HDR, HDR, i, n);
    RemoveElem(fr, k);
    CutNeighbours(bs, flags, i, n);
    assert Members([n] + RemoveAt(fr, k)) == Members(RemoveAt(fr, k)) + {n};
    ToDistinct(RemoveAt(fr, k));
    FromDistinct([n] + RemoveAt(fr, k));
    MembersInsert(bs, i + 1, n);
  }

  lemma AccountSplit(bs: seq<int>, flags: set<int>, live: map<int, int>, available: int, i: nat, size: int)
    requires Spaced(bs, HDR) && i + 1 < |bs| && bs[i] in flags
    requires bs[i] + HDR + size !in bs && bs[i] + HDR + size !in flags
    requires Accounts(bs, flags, live, available)
    ensures bs[i] + HDR !in live
    ensures var n := bs[i] + HDR + size;
            Accounts(InsertAt(bs, i + 1, n), flags + {n} - {bs[i]}, live[bs[i] + HDR := size], available - size - HDR)
  {
    var n := bs[i] + HDR + size;
    var bs' := InsertAt(bs, i + 1, n);
    SpacedDistinct(bs, HDR);
    Cut(bs, HDR, flags, i, n);
    assert Distinct(bs');
    Take(bs', HDR, flags + {n}, i);
  }

  /** The test that lets a block of `oldsize` bytes grow into a free neighbour, in 32-bit arithmetic. */
  predicate RoomToGrow(nextsize: int, oldsize: int, n: int) {
    (nextsize + oldsize) % U32 > (n + MINI) % U32
  }

  /** The two sides of the test have the same order as the numbers they stand for. */
  predicate TestIsRight(nextsize: int, oldsize: int, n: int) {
    n + MINI < U32 || nextsize + oldsize <= n + MINI - U32
  }

  /** MEMITEM_SIZE. */
  function ItemSize(m: seq<int>, x: int): int {
    Field(m, x, NEXT) - x - HDR
  }

  /** Item `k` of the free list is the first that holds `n` bytes. */
  ghost predicate FirstFit(m: seq<int>, fr: seq<int>, n: int, k: nat) {
    && k < |fr| && ItemSize(m, fr[k]) >= n
    && (forall j | 0 <= j < k :: ItemSize(m, fr[j]) < n)
  }

  ghost predicate NoFit(m: seq<int>, fr: seq<int>, n: int) {
    forall j | 0 <= j < |fr| :: ItemSize(m, fr[j]) < n
  }

  /** Payload `r` was cut from item `k` of the free list, `size` bytes long, for `n` bytes: it is
      new, at least `n` long, and the rest of a split item becomes the first free item. */
  ghost predicate Served(r: int, n: int, size: int, k: nat, live: map<int, int>, live': map<int, int>,
                         fr: seq<int>, fr': seq<int>, available: int, available': int) {
    && k < |fr| && r == fr[k] + HDR && r !in live
    && if size > n + HDR + MINI then
         live' == live[r := n] && fr' == [r + n] + RemoveAt(fr, k) && available' == available - n - HDR
       else
         live' == live[r := size] && fr' == RemoveAt(fr, k) && available' == available - size
  }

  /** While block `x` is being freed: it is marked free but may not be in the free list yet, and it
      may have free neighbours. */
  ghost predicate Loose(bs: seq<int>, fr: seq<int>, flags: set<int>, start: int, pool: int, x: int, queued: bool) {
    && Tiles(bs, start, pool)
    && NoDuplicates(fr) && Members(fr) == (if queued then flags else flags - {x})
    && x in flags && flags <= Members(bs) && start + pool - HDR !in flags
    && (forall i {:trigger NotBoth(bs, flags, i)} | 0 <= i < |bs| - 1 && bs[i] != x && bs[i + 1] != x ::
          NotBoth(bs, flags, i))
  }

  lemma LooseRelease(bs: seq<int>, fr: seq<int>, flags: set<int>, start: int, pool: int, k: nat)
    requires Shape(bs, fr, flags, start, pool) && k + 1 < |bs| && bs[k] !in flags
    ensures Loose(bs, fr, flags + {bs[k]}, start, pool, bs[k], false)
  {
    forall i | 0 <= i < |bs| - 1 && bs[i] != bs[k] && bs[i + 1] != bs[k] ensures NotBoth(bs, flags + {bs[k]}, i) {
      assert NotBoth(bs, flags, i);
    }
    assert Before(bs, HDR, k, |bs| - 1);
  }

  lemma AccountRelease(bs: seq<int>, flags: set<int>, live: map<int, int>, available: int, k: nat, size: int)
    requires Spaced(bs, HDR) && k + 1 < |bs| && bs[k] !in flags && size == bs[k + 1] - bs[k] - HDR
    requires Accounts(bs, flags, live, available)
    ensures Accounts(bs, flags + {bs[k]}, live - {bs[k] + HDR}, available + size)
  {
    SpacedDistinct(bs, HDR);
    Release(bs, HDR, flags, k);
  }

  ghost predicate LeftClosed(bs: seq<int>, flags: set<int>, k: int) {
    0 < k < |bs| ==> bs[k - 1] !in flags
  }

  ghost predicate RightClosed(bs: seq<int>, flags: set<int>, k: int) {
    0 <= k < |bs| - 1 ==> bs[k + 1] !in flags
  }

  lemma LooseDone(bs: seq<int>, fr: seq<int>, flags: set<int>, start: int, pool: int, k: nat)
    requires k < |bs| && Loose(bs, fr, flags, start, pool, bs[k], true)
    requires LeftClosed(bs, flags, k) && RightClosed(bs, flags, k)
    ensures Shape(bs, fr, flags, start, pool)
  {
    SpacedDistinct(bs, HDR);
    forall i | 0 <= i < |bs| - 1 ensures NotBoth(bs, flags, i) {
      if i != k && i + 1 != k {
        assert NotBoth(bs, flags, i);
      }
    }
  }

  /** Merging block `k` into its left neighbour. */
  lemma LooseLeft(bs: seq<int>, fr: seq<int>, flags: set<int>, start: int, pool: int, k: nat)
    requires 0 < k < |bs| && Loose(bs, fr, flags, start, pool, bs[k], false) && bs[k - 1] in flags
    ensures Loose(RemoveAt(bs, k), fr, flags - {bs[k]}, start, pool, bs[k - 1], true)
    ensures LeftClosed(RemoveAt(bs, k), flags - {bs[k]}, k - 1)
  {
    assert k > 1 && bs[k - 2] != bs[k] && bs[k - 1] != bs[k] ==> NotBoth(bs, flags, k - 2);
    var bs', flags' := RemoveAt(bs, k), flags - {bs[k]};
    TiledRemove(bs, start, start + pool - HDR, HDR, k);
    SpacedDistinct(bs, HDR);
    forall i | 0 <= i < |bs'| - 1 && bs'[i] != bs[k - 1] && bs'[i + 1] != bs[k - 1] ensures NotBoth(bs', flags', i) {
      assert NotBoth(bs, flags, if i < k then i else i + 1);
    }
  }

  /** Merging block `k + 1` into block `k`. */
  lemma LooseRight(bs: seq<int>, fr: seq<int>, flags: set<int>, start: int, pool: int, k: nat, queued: bool, j: nat)
    requires k + 1 < |bs| && Loose(bs, fr, flags, start, pool, bs[k], queued) && bs[k + 1] in flags
    requires j < |fr| && fr[j] == bs[k + 1]
    ensures Loose(RemoveAt(bs, k + 1), RemoveAt(fr, j), flags - {bs[k + 1]}, start, pool, bs[k], queued)
    ensures RightClosed(RemoveAt(bs, k + 1), flags - {bs[k + 1]}, k)
    ensures LeftClosed(bs, flags, k) ==> LeftClosed(RemoveAt(bs, k + 1), flags - {bs[k + 1]}, k)
  {
    assert k + 2 < |bs| && bs[k + 1] != bs[k] && bs[k + 2] != bs[k] ==> NotBoth(bs, flags, k + 1);
    var bs', flags' := RemoveAt(bs, k + 1), flags - {bs[k + 1]};
    assert k + 2 < |bs|;
    TiledRemove(bs, start, start + pool - HDR, HDR, k + 1);
    SpacedDistinct(bs, HDR);
    RemoveElem(fr, j);
    forall i | 0 <= i < |bs'| - 1 && bs'[i] != bs[k] && bs'[i + 1] != bs[k] ensures NotBoth(bs', flags', i) {
      assert NotBoth(bs, flags, if i <= k then i else i + 1);
    }
  }

  lemma RightInList(bs: seq<int>, fr: seq<int>, flags: set<int>, start: int, pool: int, k: nat, queued: bool)
    returns (j: nat)
    requires k < |bs| && Loose(bs, fr, flags, start, pool, bs[k], queued) && Succ(bs, k) in flags
    ensures k + 1 < |bs| && j < |fr| && fr[j] == bs[k + 1]
  {
    assert k + 1 < |bs| && Before(bs, HDR, k, k + 1);
    assert bs[k + 1] in Members(fr);
    j :| 0 <= j < |fr| && fr[j] == bs[k + 1];
  }

  lemma AccountJoin(bs: seq<int>, flags: set<int>, live: map<int, int>, available: int, k: nat)
    requires Spaced(bs, HDR) && k + 2 < |bs| && bs[k] in flags && bs[k + 1] in flags
    requires Accounts(bs, flags, live, available)
    ensures Accounts(RemoveAt(bs, k + 1), flags - {bs[k + 1]}, live, available + HDR)
  {
    SpacedDistinct(bs, HDR);
    Join(bs, HDR, flags, k);
  }

  /** The payload `ptr` of `size` bytes was released: a block with a free left neighbour disappears
      into it, any other becomes the first free item; a free right neighbour leaves the list. */
  ghost predicate Freed(m: seq<int>, ptr: int, size: int, fr: seq<int>, fr': seq<int>, available: int,
                        available': int) {
    var left, right := Field(m, ptr - HDR, PREV), Field(m, ptr - HDR, NEXT);
    && fr' == (if left in fr then [] else [ptr - HDR]) + Without(fr, right)
    && available' == available + size + (if left in fr then HDR else 0) + (if right in fr then HDR else 0)
  }

  /** What the calls so far leave behind: the allocated payloads, the free list, the bytes available and
      the bytes in use after every change. */
  datatype Books = Books(live: map<int, int>, free: seq<int>, available: int, history: seq<int>)

  /** `n` bytes were allocated at `r`, from the first fit. */
  ghost predicate Allocated(m: seq<int>, b0: Books, b1: Books, r: int, n: int, k: nat, pool: int) {
    && FirstFit(m, b0.free, n, k)
    && Served(r, n, ItemSize(m, r - HDR), k, b0.live, b1.live, b0.free, b1.free, b0.available, b1.available)
    && b1.history == b0.history + [pool - b1.available]
  }

  /** An allocation of `n` bytes: its bytes, its books, and when it fails. */
  ghost predicate AllocatedOrNot(m0: seq<int>, b0: Books, m1: seq<int>, b1: Books, r: int, n: int, k: nat, pool: int) {
    && SameBytes(m0, m1, b0.live)
    && (r == NULL <==> n >= b0.available || NoFit(m0, b0.free, n))
    && (if r == NULL then m1 == m0 && b1 == b0 else Allocated(m0, b0, b1, r, n, k, pool))
  }

  ghost predicate Released(m: seq<int>, b0: Books, b1: Books, ptr: int, pool: int) {
    && ptr in b0.live && b1.live == b0.live - {ptr}
    && Freed(m, ptr, b0.live[ptr], b0.free, b1.free, b0.available, b1.available)
    && b1.history == b0.history + [pool - b1.available]
  }

  /** The live block at `ptr` grew to `n` bytes into its free neighbour, which became the first free item. */
  ghost predicate Grown(m: seq<int>, b0: Books, b1: Books, ptr: int, n: int, pool: int) {
    && ptr in b0.live && b1.live == b0.live[ptr := n]
    && b1.free == [ptr + n] + Without(b0.free, Field(m, ptr - HDR, NEXT))
    && b1.available == b0.available - (n - b0.live[ptr])
    && b1.history == b0.history + [pool - b1.available]
  }

  /** The live block at `ptr` shrank to `n` bytes; its tail, with a free neighbour, became the first free item. */
  ghost predicate Shrunk(m: seq<int>, b0: Books, b1: Books, ptr: int, n: int, pool: int) {
    var next := Field(m, ptr - HDR, NEXT);
    && ptr in b0.live && b1.live == b0.live[ptr := n]
    && b1.free == [ptr + n] + Without(b0.free, next)
    && b1.available == b0.available + (b0.live[ptr] - n - HDR) + (if next in b0.free then HDR else 0)
    && b1.history == b0.history + [pool - b1.available]
  }

  /** Between the two halves of a move: the place of the fit in the free list, memory, books and blocks. */
  datatype Half = Half(k: nat, m: seq<int>, books: Books, blocks: seq<int>, flags: set<int>)

  /** The heap as it was then. */
  ghost predicate HalfSound(half: Half, header: int, start: int, pool: int) {
    && Linked(half.m, header, Items(half.blocks, header), half.blocks, half.books.free, half.flags)
    && Shape(half.blocks, half.books.free, half.flags, start, pool)
    && Accounts(half.blocks, half.flags, half.books.live, half.books.available)
  }

  /** The new block is allocated before the old one is freed, so both count at the peak. */
  ghost predicate MovedBooks(m: seq<int>, b0: Books, half: Half, b1: Books, ptr: int, r: int, n: int, pool: int) {
    Allocated(m, b0, half.books, r, n, half.k, pool) && Released(half.m, half.books, b1, ptr, pool)
  }

  /** What a reallocation to `n` bytes does to the books. */
  ghost predicate ResizedBooks(m: seq<int>, b0: Books, half: Half, b1: Books, ptr: int, r: int, n: int, pool: int,
                               inPlace: bool)
    requires ptr in b0.live
  {
    var size := b0.live[ptr];
    if n > size then
      if inPlace then Grown(m, b0, b1, ptr, n, pool)
      else if r == NULL then b1 == b0
      else MovedBooks(m, b0, half, b1, ptr, r, n, pool)
    else if n + HDR + MINI < size then Shrunk(m, b0, b1, ptr, n, pool)
    else b1 == b0
  }

  /** A reallocation of the live block at `ptr` to `n` bytes: its bytes, its books, and when it fails. */
  ghost predicate ResizedTo(m0: seq<int>, b0: Books, m1: seq<int>, half: Half, b1: Books,
                            ptr: int, r: int, n: int, pool: int, inPlace: bool)
  {
    && ptr in b0.live
    && Resized(m0, m1, b0.live, b1.live, ptr, r, n, inPlace)
    && ResizedBooks(m0, b0, half, b1, ptr, r, n, pool, inPlace)
    && (!inPlace ==> (r == NULL <==> n >= b0.available || NoFit(m0, b0.free, n)))
  }

  /** The peak once the books are `b1`: a block that was moved counted twice at the half. */
  ghost function MovedPeak(most: int, ptr: int, r: int, inPlace: bool, half: Half, b1: Books, pool: int): int {
    MostUsed(most, ptr != NULL && r != NULL && !inPlace, pool - half.books.available, pool - b1.available)
  }

  lemma ResizedPeak(m0: seq<int>, b0: Books, m1: seq<int>, half: Half, b1: Books, ptr: int, r: int, n: int, pool: int,
                    inPlace: bool, most0: int, most1: int)
    requires ResizedTo(m0, b0, m1, half, b1, ptr, r, n, pool, inPlace) && ptr != NULL && (inPlace || n > b0.live[ptr])
    requires Recorded(b0.history, pool - b0.available, most0) && Recorded(b1.history, pool - b1.available, most1)
    ensures most1 == MovedPeak(most0, ptr, r, inPlace, half, b1, pool)
  {
    Records(b0.history, pool - b0.available, most0, pool - b1.available);
    Records(b0.history, pool - b0.available, most0, pool - half.books.available);
    if r != NULL && !inPlace {
      Records(half.books.history, pool - half.books.available, Max(most0, pool - half.books.available),
          pool - b1.available);
    }
  }

  /** All cases of rt_memheap_realloc: size 0, NULL, and a live block. */
  ghost predicate Reallocated(m0: seq<int>, b0: Books, m1: seq<int>, half: Half, b1: Books,
                              ptr: int, r: int, newsize: nat, pool: int, inPlace: bool)
  {
    if newsize == 0 then
      && r == NULL && SameBytes(m0, m1, b1.live)
      && (if ptr == NULL then b1 == b0 else Released(m0, b0, b1, ptr, pool))
    else if ptr == NULL then AllocatedOrNot(m0, b0, m1, b1, r, Request(newsize), half.k, pool)
    else ResizedTo(m0, b0, m1, half, b1, ptr, r, Request(newsize), pool, inPlace)
  }

  lemma ReallocatedPeak(m0: seq<int>, b0: Books, m1: seq<int>, half: Half, b1: Books, ptr: int, r: int, newsize: nat,
                        pool: int, inPlace: bool, most0: int, most1: int)
    requires Reallocated(m0, b0, m1, half, b1, ptr, r, newsize, pool, inPlace)
    requires ptr != NULL && newsize > 0 ==> inPlace || (ptr in b0.live && Request(newsize) > b0.live[ptr])
    requires Recorded(b0.history, pool - b0.available, most0) && Recorded(b1.history, pool - b1.available, most1)
    ensures most1 == MovedPeak(most0, ptr, r, inPlace, half, b1, pool)
  {
    if newsize > 0 && ptr != NULL {
      ResizedPeak(m0, b0, m1, half, b1, ptr, r, Request(newsize), pool, inPlace, most0, most1);
    } else {
      Records(b0.history, pool - b0.available, most0, pool - b1.available);
    }
  }

  /** Cutting the tail from `n` off the live block `k` leaves a block to be freed at `n`. */
  lemma LooseCut(bs: seq<int>, fr: seq<int>, flags: set<int>, start: int, pool: int, k: nat, n: int)
    requires Shape(bs, fr, flags, start, pool) && k + 1 < |bs| && bs[k] !in flags
    requires bs[k] + HDR <= n && n + HDR <= bs[k + 1] && (n - start) % ALIGN == 0
    ensures n !in bs && Loose(InsertAt(bs, k + 1, n), fr, flags + {n}, start, pool, n, false)
    ensures LeftClosed(InsertAt(bs, k + 1, n), flags + {n}, k + 1)
  {
    TiledInsert(bs, start, start + pool - HDR, HDR, k, n);
    MembersInsert(bs, k + 1, n);
    OthersCut(bs, flags, k, n);
    InRegion(bs, start, start + pool - HDR, HDR, k + 1);
  }

  lemma OthersCut(bs: seq<int>, flags: set<int>, k: nat, n: int)
    requires NoNeighbours(bs, flags) && k + 1 < |bs| && n !in bs
    ensures var bs' := InsertAt(bs, k + 1, n);
            forall i {:trigger NotBoth(bs', flags + {n}, i)} | 0 <= i < |bs'| - 1 && bs'[i] != n && bs'[i + 1] != n ::
              NotBoth(bs', flags + {n}, i)
  {
    var bs', flags' := InsertAt(bs, k + 1, n), flags + {n};
    forall i | 0 <= i < |bs'| - 1 && bs'[i] != n && bs'[i + 1] != n ensures NotBoth(bs', flags', i) {
      assert NotBoth(bs, flags, if i <= k then i else i - 1);
    }
  }

  lemma AccountCut(bs: seq<int>, flags: set<int>, live: map<int, int>, available: int, k: nat, n: int)
    requires Spaced(bs, HDR) && k + 1 < |bs| && bs[k] !in flags && n !in bs && n !in flags
    requires Accounts(bs, flags, live, available)
    ensures Accounts(InsertAt(bs, k + 1, n), flags + {n}, live[bs[k] + HDR := n - bs[k] - HDR],
            available + (bs[k + 1] - n - HDR))
  {
    SpacedDistinct(bs, HDR);
    Cut(bs, HDR, flags, k, n);
  }

  /** An address inside block `k + 1`, past its header address, is no block address. */
  lemma InsideNext(bs: seq<int>, start: int, pool: int, k: nat, n: int)
    requires Tiles(bs, start, pool) && k + 2 < |bs| && bs[k + 1] < n && n + HDR <= bs[k + 2]
    ensures n !in Members(bs) && n !in RemoveAt(bs, k + 1)
    ensures bs[k] + HDR <= n && Tiles(RemoveAt(bs, k + 1), start, pool)
  {
    TiledRemove(bs, start, start + pool - HDR, HDR, k + 1);
    assert Before(bs, HDR, k, k + 1);
    forall j | 0 <= j < |bs| ensures bs[j] != n {
      assert j <= k ==> Before(bs, HDR, j, k + 1);
      assert k + 2 < j ==> Before(bs, HDR, k + 2, j);
    }
  }

  lemma TilesGrow(bs: seq<int>, start: int, pool: int, k: nat, n: int)
    requires Tiles(bs, start, pool) && k + 2 < |bs| && bs[k + 1] < n && n + HDR <= bs[k + 2] && (n - bs[k]) % ALIGN == 0
    ensures Tiles(bs[k + 1 := n], start, pool) && n !in RemoveAt(bs, k + 1) && n !in Members(bs)
    ensures Members(bs[k + 1 := n]) == Members(bs) - {bs[k + 1]} + {n}
  {
    var bs0 := RemoveAt(bs, k + 1);
    InsideNext(bs, start, pool, k, n);
    assert Aligned(bs, start, k);
    TiledInsert(bs0, start, start + pool - HDR, HDR, k, n);
    MembersInsert(bs0, k + 1, n);
    TiledRemove(bs, start, start + pool - HDR, HDR, k + 1);
    assert bs[k + 1 := n] == InsertAt(bs0, k + 1, n);
  }

  /** Growing the live block `k` into its free right neighbour, whose rest starts at `n`. */
  lemma ShapeGrow(bs: seq<int>, fr: seq<int>, flags: set<int>, start: int, pool: int, k: nat, j: nat, n: int)
    requires Shape(bs, fr, flags, start, pool) && k + 2 < |bs| && bs[k] !in flags
    requires j < |fr| && fr[j] == bs[k + 1]
    requires bs[k + 1] < n && n + HDR <= bs[k + 2] && (n - bs[k]) % ALIGN == 0
    ensures Shape(bs[k + 1 := n], [n] + RemoveAt(fr, j), flags - {bs[k + 1]} + {n}, start, pool)
  {
    TilesGrow(bs, start, pool, k, n);
    RemoveElem(fr, j);
    assert n !in RemoveAt(fr, j) by { assert n !in Members(RemoveAt(fr, j)); }
    ToDistinct(RemoveAt(fr, j));
    FromDistinct([n] + RemoveAt(fr, j));
    assert Members([n] + RemoveAt(fr, j)) == Members(RemoveAt(fr, j)) + {n};
    NeighboursGrow(bs, flags, k, n);
    InRegion(bs, start, start + pool - HDR, HDR, k + 2);
  }

  lemma NeighboursGrow(bs: seq<int>, flags: set<int>, k: nat, n: int)
    requires k + 2 < |bs| && bs[k] !in flags && bs[k + 1] in flags && NoNeighbours(bs, flags)
             && n !in RemoveAt(bs, k + 1)
    ensures NoNeighbours(bs[k + 1 := n], flags - {bs[k + 1]} + {n})
  {
    var bs', flags' := bs[k + 1 := n], flags - {bs[k + 1]} + {n};
    assert NotBoth(bs, flags, k + 1);
    forall i | 0 <= i < |bs'| - 1 ensures NotBoth(bs', flags', i) {
      assert NotBoth(bs, flags, i);
      assert i < k + 1 ==> bs'[i] == RemoveAt(bs, k + 1)[i];
      assert i > k + 1 ==> bs'[i] == RemoveAt(bs, k + 1)[i - 1];
    }
  }

  /** The live block `k` takes in its free right neighbour. */
  lemma AccountAbsorb(bs: seq<int>, flags: set<int>, live: map<int, int>, available: int, k: nat)
    requires Spaced(bs, HDR) && k + 2 < |bs| && bs[k] !in flags && bs[k + 1] in flags
    requires Accounts(bs, flags, live, available)
    ensures Accounts(RemoveAt(bs, k + 1), flags - {bs[k + 1]},
                     live[bs[k] + HDR := bs[k + 2] - bs[k] - HDR], available - (bs[k + 2] - bs[k + 1] - HDR))
  {
    SpacedDistinct(bs, HDR);
    Join(bs, HDR, flags, k);
  }

  lemma AccountGrow(bs: seq<int>, flags: set<int>, live: map<int, int>, available: int, start: int, pool: int, k: nat,
                    n: int)
    requires Tiles(bs, start, pool) && k + 2 < |bs| && bs[k] !in flags && bs[k + 1] in flags && flags <= Members(bs)
    requires bs[k + 1] < n && n + HDR <= bs[k + 2]
    requires Accounts(bs, flags, live, available)
    ensures Accounts(bs[k + 1 := n], flags - {bs[k + 1]} + {n},
                     live[bs[k] + HDR := n - bs[k] - HDR], available - (n - bs[k + 1]))
  {
    var bs0, flags0, p := RemoveAt(bs, k + 1), flags - {bs[k + 1]}, bs[k] + HDR;
    var live0, available0 := live[p := bs[k + 2] - p], available - (bs[k + 2] - bs[k + 1] - HDR);
    assert Accounts(bs0, flags0, live0, available0) by { AccountAbsorb(bs, flags, live, available, k); }
    assert Spaced(bs0, HDR) && n !in bs0 && n !in flags0 by { InsideNext(bs, start, pool, k, n); }
    AccountCut(bs0, flags0, live0, available0, k, n);
    assert bs[k + 1 := n] == InsertAt(bs0, k + 1, n) by { Replaced(bs, k + 1, n); }
    assert live0[p := n - p] == live[p := n - p];
  }

  /** No more is charged for the growth than is available. */
  lemma GrowthCharged(bs: seq<int>, flags: set<int>, live: map<int, int>, rest: int, start: int, pool: int, k: nat,
                      n: int)
    requires Tiles(bs, start, pool) && k + 2 < |bs| && bs[k + 1] < n && n + HDR <= bs[k + 2]
    requires (n - bs[k]) % ALIGN == 0 && Accounts(bs[k + 1 := n], flags, live, rest)
    ensures rest >= 0
  {
    TilesGrow(bs, start, pool, k, n);
    BytesCount(bs[k + 1 := n], HDR, flags);
  }

  ghost function Items(bs: seq<int>, header: int): set<int> {
    Members(bs) + {header}
  }

  /** In memory `m` the item ring links `bs`, the free ring links the header and `fr`, and the
      magic words say that exactly the blocks in `flags` are free. */
  ghost predicate Linked(m: seq<int>, header: int, items: set<int>, bs: seq<int>, fr: seq<int>, flags: set<int>) {
    var ring := [header] + fr;
    && Apart(items, |m|, HDR) && header in items
    && Members(bs) <= items && header !in Members(bs)
    && Members(fr) <= items && header !in Members(fr)
    && Ring(m, NEXT, bs)
    && Ring(m, NEXT_FREE, ring)
    && Marked(m, header, bs, flags)
  }

  ghost predicate Marked(m: seq<int>, header: int, bs: seq<int>, flags: set<int>) {
    forall x {:trigger MarkedAt(m, header, flags, x)} | x in Members(bs) :: MarkedAt(m, header, flags, x)
  }

  ghost predicate MarkedAt(m: seq<int>, header: int, flags: set<int>, x: int) {
    && Field(m, x, MAGIC_WORD) == (if x in flags then MAGIC else MAGIC + USED)
    && Field(m, x, POOL) == header
  }

  /** The marks in `m1` are right for the blocks `bs'`, all of them old ones except `n`. */
  lemma MarkedKept(m0: seq<int>, m1: seq<int>, header: int, bs: seq<int>, flags: set<int>, bs': seq<int>,
                   flags': set<int>, n: int)
    requires Marked(m0, header, bs, flags)
    requires Members(bs') <= Members(bs) + {n} && (n in Members(bs') ==> MarkedAt(m1, header, flags', n))
    requires forall x | x in Members(bs) && x != n ::
               Field(m1, x, MAGIC_WORD) == Field(m0, x, MAGIC_WORD) && Field(m1, x, POOL) == Field(m0, x, POOL)
    requires forall x | x in Members(bs') && x != n :: x in flags' <==> x in flags
    ensures Marked(m1, header, bs', flags')
  {
    forall x | x in Members(bs') ensures MarkedAt(m1, header, flags', x) {
      assert x != n ==> MarkedAt(m0, header, flags, x);
    }
  }

  /** `Linked` looks at header fields only. */
  lemma LinkedKept(m0: seq<int>, m1: seq<int>, header: int, bs: seq<int>, fr: seq<int>, flags: set<int>)
    requires Linked(m0, header, Items(bs, header), bs, fr, flags) && Members(fr) <= Members(bs) && |m1| == |m0|
    requires forall x, f | x in Items(bs, header) && 0 <= f < HDR :: Field(m1, x, f) == Field(m0, x, f)
    ensures Linked(m1, header, Items(bs, header), bs, fr, flags)
  {
    RingKept(m0, m1, NEXT, bs);
    forall y | y in [header] + fr ensures y in Items(bs, header) {
      assert y != header ==> y in Members(fr);
    }
    RingKept(m0, m1, NEXT_FREE, [header] + fr);
    MarkedKept(m0, m1, header, bs, flags, bs, flags, header);
  }

  lemma FreeDistinct(m: seq<int>, header: int, items: set<int>, bs: seq<int>, fr: seq<int>, flags: set<int>)
    requires Linked(m, header, items, bs, fr, flags)
    ensures NoDuplicates(fr)
  {
    forall i, j | 0 <= i < j < |fr| ensures Differ(fr, i, j) {
      assert Differ([header] + fr, i + 1, j + 1);
    }
  }

  /** Headers that are in no list need not be watched. */
  lemma Narrow(m: seq<int>, header: int, items: set<int>, bs: seq<int>, fr: seq<int>, flags: set<int>)
    requires Linked(m, header, items, bs, fr, flags)
    requires Members(fr) <= Members(bs)
    ensures Linked(m, header, Items(bs, header), bs, fr, flags)
  {
  }

  /** Writes all fields of one item. */
  method InitItem(mem: array<int>, x: int, magic: int, pool: int, next: int, prev: int, nextFree: int, prevFree: int,
                  ghost items: set<int>)
    requires Apart(items, mem.Length, HDR) && x in items
    modifies mem
    ensures Field(mem[..], x, MAGIC_WORD) == magic && Field(mem[..], x, POOL) == pool
    ensures Field(mem[..], x, NEXT) == next && Field(mem[..], x, PREV) == prev
    ensures Field(mem[..], x, NEXT_FREE) == nextFree && Field(mem[..], x, PREV_FREE) == prevFree
    ensures forall y, g | y in items && 0 <= g < HDR && y != x :: Field(mem[..], y, g) == Field(old(mem[..]), y, g)
  {
    Put(mem, x, MAGIC_WORD, magic, items, HDR);
    Put(mem, x, POOL, pool, items, HDR);
    Put(mem, x, NEXT, next, items, HDR);
    Put(mem, x, PREV, prev, items, HDR);
    Put(mem, x, NEXT_FREE, nextFree, items, HDR);
    Put(mem, x, PREV_FREE, prevFree, items, HDR);
  }

  /** The headers of an empty pool: one free block and the used tailer. */
  method FormatPool(mem: array<int>, header: int, start: int, tailer: int)
    requires Apart({header, start, tailer}, mem.Length, HDR) && header != start && header != tailer && start != tailer
    modifies mem
    ensures Linked(mem[..], header, {header, start, tailer}, [start, tailer], [start], {start})
  {
    ghost var items := {header, start, tailer};
    InitItem(mem, header, MAGIC, header, NULL, NULL, header, header, items);
    InitItem(mem, start, MAGIC, header, tailer, tailer, start, start, items);
    assert Ring(mem[..], NEXT_FREE, [header]);
    LinkAfter(mem, NEXT_FREE, header, start, items, HDR, [header], 0);
    assert InsertAt([header], 1, start) == [header] + [start];
    ghost var m := mem[..];
    InitItem(mem, tailer, MAGIC + USED, header, start, start, NULL, NULL, items);
    RingKept(m, mem[..], NEXT_FREE, [header] + [start]);
    assert Marked(mem[..], header, [start, tailer], {start});
  }

  lemma FreshPool(start: int, pool: int)
    requires pool >= 2 * HDR && pool % ALIGN == 0
    ensures var bs := [start, start + pool - HDR];
            Shape(bs, [start], {start}, start, pool) && Accounts(bs, {start}, map[], pool - 2 * HDR)
  {
    var bs := [start, start + pool - HDR];
    assert bs[1..] == [start + pool - HDR];
    assert Members([start]) == {start};
  }

  class Heap {
    const mem: array<int>
    const header: int         // address of the free_header item inside struct rt_memheap
    var startAddr: int
    var poolSize: int
    var availableSize: int
    var maxUsedSize: int

    ghost var blocks: seq<int>
    ghost var free: seq<int>
    ghost var flags: set<int>      // the blocks whose magic word says free
    ghost var live: map<int, int>  // the allocated payloads, address to size
    ghost var history: seq<int>    // the bytes in use at first and after each change under the lock

    /** rt_memheap_init over `size` bytes at `start`. */
    constructor (mem: array<int>, header: int, start: int, size: nat)
      requires 0 < header && 0 <= start && size < U32 && size / ALIGN * ALIGN >= 2 * HDR
      requires header + HDR <= start || start + size <= header
      requires header + HDR <= mem.Length && start + size <= mem.Length
      modifies mem
      ensures Valid() && this.mem == mem && this.header == header && startAddr == start
      ensures poolSize == size / ALIGN * ALIGN && availableSize == poolSize - 2 * HDR && maxUsedSize == 2 * HDR
      ensures live == map[] && free == [start] && history == [2 * HDR]
    {
      var pool := size / ALIGN * ALIGN;
      var tailer := start + pool - HDR;
      FormatPool(mem, header, start, tailer);
      this.mem, this.header, startAddr, poolSize := mem, header, start, pool;
      availableSize, maxUsedSize := pool - 2 * HDR, 2 * HDR;
      blocks, free, flags, live, history := [start, tailer], [start], {start}, map[], [2 * HDR];
      FreshPool(start, pool);
    }

    ghost predicate LinkedWith(items: set<int>)
      reads `blocks, `free, `flags, mem
    {
      Linked(mem[..], header, items, blocks, free, flags)
    }

    /** The pool and the heap object lie apart in memory. */
    ghost predicate Placed()
      reads `startAddr, `poolSize
    {
      && 0 < header && (header + HDR <= startAddr || startAddr + poolSize <= header)
      && header + HDR <= mem.Length && startAddr + poolSize <= mem.Length
      && 0 <= startAddr && 0 <= poolSize < U32
    }

    ghost predicate Sound()
      reads this, mem
    {
      && Placed()
      && LinkedWith(Items(blocks, header))
      && Shape(blocks, free, flags, startAddr, poolSize)
      && Accounts(blocks, flags, live, availableSize)
    }

    ghost predicate Valid()
      reads this, mem
    {
      Sound() && Recorded(history, poolSize - availableSize, maxUsedSize) && maxUsedSize <= poolSize
    }

    ghost function Abs(): Books
      reads this
    {
      Books(live, free, availableSize, history)
    }

    /** Inserts `x` at the front of the free list. */
    method PushFree(x: int, ghost items: set<int>)
      requires LinkedWith(items) && x in items && x !in free && x != header
      modifies mem, `free
      ensures free == [x] + old(free)
      ensures LinkedWith(items) && SamePayload(old(mem[..]), mem[..], items, HDR)
    {
      LinkAfter(mem, NEXT_FREE, header, x, items, HDR, [header] + free, 0);
      assert InsertAt([header] + free, 1, x) == [header] + ([x] + free);
      RingKept(old(mem[..]), mem[..], NEXT, blocks);
      MarkedKept(old(mem[..]), mem[..], header, blocks, flags, blocks, flags, header);
      free := [x] + free;
    }

    method DropFree(x: int, ghost k: nat, ghost items: set<int>)
      requires LinkedWith(items) && k < |free| && free[k] == x
      modifies mem, `free
      ensures free == RemoveAt(old(free), k)
      ensures LinkedWith(items) && SamePayload(old(mem[..]), mem[..], items, HDR)
    {
      Unlink(mem, NEXT_FREE, x, items, HDR, [header] + free, k + 1);
      assert RemoveAt([header] + free, k + 1) == [header] + RemoveAt(free, k);
      RingKept(old(mem[..]), mem[..], NEXT, blocks);
      MarkedKept(old(mem[..]), mem[..], header, blocks, flags, blocks, flags, header);
      free := RemoveAt(free, k);
    }

    /** Makes `n` a free block behind block `k`, which is at `p`. */
    method InsertBlock(p: int, n: int, ghost k: nat, ghost items: set<int>)
      requires LinkedWith(items) && k < |blocks| && blocks[k] == p && n in items && n !in blocks && n != header
               && n !in free
      modifies mem, `blocks, `flags
      ensures blocks == InsertAt(old(blocks), k + 1, n) && flags == old(flags) + {n}
      ensures LinkedWith(items) && SamePayload(old(mem[..]), mem[..], items, HDR)
    {
      Put(mem, n, MAGIC_WORD, MAGIC, items, HDR);
      Put(mem, n, POOL, header, items, HDR);
      RingKept(old(mem[..]), mem[..], NEXT, blocks);
      LinkAfter(mem, NEXT, p, n, items, HDR, blocks, k);
      RingKept(old(mem[..]), mem[..], NEXT_FREE, [header] + free);
      MembersInsert(blocks, k + 1, n);
      MarkedKept(old(mem[..]), mem[..], header, blocks, flags, InsertAt(blocks, k + 1, n), flags + {n}, n);
      blocks := InsertAt(blocks, k + 1, n);
      flags := flags + {n};
    }

    /** Takes block `k`, which is at `x`, out of the item ring. */
    method RemoveBlock(x: int, ghost k: nat, ghost items: set<int>)
      requires LinkedWith(items) && k < |blocks| && blocks[k] == x && |blocks| >= 2
      modifies mem, `blocks, `flags
      ensures blocks == RemoveAt(old(blocks), k) && flags == old(flags) - {x}
      ensures LinkedWith(items) && SamePayload(old(mem[..]), mem[..], items, HDR)
    {
      RemoveElem(blocks, k);
      Unlink(mem, NEXT, x, items, HDR, blocks, k);
      RingKept(old(mem[..]), mem[..], NEXT_FREE, [header] + free);
      MarkedKept(old(mem[..]), mem[..], header, blocks, flags, RemoveAt(blocks, k), flags - {x}, x);
      blocks := RemoveAt(blocks, k);
      flags := flags - {x};
    }

    method SetUsed(x: int, used: bool, ghost items: set<int>)
      requires LinkedWith(items) && x in blocks
      modifies mem, `flags
      ensures flags == if used then old(flags) - {x} else old(flags) + {x}
      ensures LinkedWith(items) && SamePayload(old(mem[..]), mem[..], items, HDR)
    {
      Put(mem, x, MAGIC_WORD, if used then MAGIC + USED else MAGIC, items, HDR);
      RingKept(old(mem[..]), mem[..], NEXT, blocks);
      RingKept(old(mem[..]), mem[..], NEXT_FREE, [header] + free);
      assert MarkedAt(old(mem[..]), header, flags, x);
      MarkedKept(old(mem[..]), mem[..], header, blocks, flags, blocks, if used then flags - {x} else flags + {x}, x);
      flags := if used then flags - {x} else flags + {x};
    }

    /** Clears the free links of an item that is in no free list. */
    method ClearFreeLinks(x: int, ghost items: set<int>)
      requires LinkedWith(items) && x in items && x !in free && x != header
      modifies mem
      ensures LinkedWith(items) && SamePayload(old(mem[..]), mem[..], items, HDR)
    {
      Put(mem, x, NEXT_FREE, NULL, items, HDR);
      Put(mem, x, PREV_FREE, NULL, items, HDR);
      MarkedKept(old(mem[..]), mem[..], header, blocks, flags, blocks, flags, header);
      RingKept(old(mem[..]), mem[..], NEXT, blocks);
      RingKept(old(mem[..]), mem[..], NEXT_FREE, [header] + free);
    }

    /** Block `k` sits at `x` and its size is what the item header says. */
    lemma BlockSize(x: int) returns (k: nat)
      requires Valid() && x in blocks && x != startAddr + poolSize - HDR
      ensures k + 1 < |blocks| && blocks[k] == x && Field(mem[..], x, NEXT) == blocks[k + 1]
      ensures Field(mem[..], x, PREV) == Pred(blocks, k)
    {
      k :| 0 <= k < |blocks| && blocks[k] == x;
      assert LinkedAt(mem[..], NEXT, blocks, k);
    }

    lemma NullNotLive()
      requires Valid()
      ensures NULL !in live
    {
      if NULL in live {
        PayloadClear(blocks, {header}, startAddr, startAddr + poolSize - HDR, HDR, flags, NULL);
      }
    }

    /** The block of a live payload and what its header says. */
    lemma LiveItem(ptr: int) returns (k: nat)
      requires Valid() && ptr in live
      ensures k + 1 < |blocks| && blocks[k] == ptr - HDR && blocks[k] !in flags
      ensures 0 <= ptr - HDR && 0 <= live[ptr] == blocks[k + 1] - ptr && blocks[k + 1] + HDR <= mem.Length
      ensures Field(mem[..], ptr - HDR, NEXT) == blocks[k + 1]
    {
      k := LiveBlock(blocks, HDR, flags, ptr);
      assert LinkedAt(mem[..], NEXT, blocks, k) && blocks[k] in Members(blocks) && blocks[k + 1] in Members(blocks);
      assert Before(blocks, HDR, k, k + 1);
    }

    /** Walks the free list for an item of at least `n` bytes. */
    method Search(n: int) returns (h: int, freeSize: int, ghost k: nat)
      requires Valid() && n > 0
      ensures freeSize >= n ==> FirstFit(mem[..], free, n, k) && h == free[k] && freeSize == ItemSize(mem[..], h)
      ensures freeSize < n ==> NoFit(mem[..], free, n)
    {
      ghost var ring := [header] + free;
      freeSize, k := 0, 0;
      assert LinkedAt(mem[..], NEXT_FREE, ring, 0);
      h := mem[header + NEXT_FREE];
      while h != header && freeSize < n
        invariant k <= |free| && h == if k < |free| then free[k] else header
        invariant freeSize >= n ==> k < |free| && freeSize == ItemSize(mem[..], h)
        invariant forall j | 0 <= j < k :: ItemSize(mem[..], free[j]) < n
        decreases |free| - k, if freeSize < n then 1 else 0
      {
        assert h in free && h in blocks;
        freeSize := mem[h + NEXT] - h - HDR;
        if freeSize < n {
          assert LinkedAt(mem[..], NEXT_FREE, ring, k + 1);
          h := mem[h + NEXT_FREE];
          k := k + 1;
        }
      }
    }

    /** Accounts for `bytes` leaving the free space. */
    method Charge(bytes: int)
      requires Recorded(history, poolSize - availableSize, maxUsedSize)
      requires maxUsedSize <= poolSize && bytes <= availableSize
      modifies `availableSize, `maxUsedSize, `history
      ensures availableSize == old(availableSize) - bytes
      ensures maxUsedSize == Max(old(maxUsedSize), poolSize - availableSize)
      ensures history == old(history) + [poolSize - availableSize]
      ensures Recorded(history, poolSize - availableSize, maxUsedSize) && maxUsedSize <= poolSize
    {
      availableSize := availableSize - bytes;
      Records(history, poolSize - old(availableSize), maxUsedSize, poolSize - availableSize);
      history := history + [poolSize - availableSize];
      if poolSize - availableSize > maxUsedSize {
        maxUsedSize := poolSize - availableSize;
      }
    }

    /** Takes item `h` out of the free list and marks it used. */
    method DetachFree(h: int, ghost k: nat, ghost items: set<int>)
      requires LinkedWith(items) && k < |free| && free[k] == h && h in blocks
      modifies mem, `free, `flags
      ensures free == RemoveAt(old(free), k) && flags == old(flags) - {h}
      ensures Members(free) == Members(old(free)) - {h}
      ensures LinkedWith(items) && SamePayload(old(mem[..]), mem[..], items, HDR)
    {
      FreeDistinct(mem[..], header, items, blocks, free, flags);
      RemoveElem(free, k);
      DropFree(h, k, items);
      ClearFreeLinks(h, items);
      SetUsed(h, true, items);
    }

    /** Takes the whole free item `h`. */
    method TakeWhole(h: int, freeSize: int, ghost k: nat)
      requires Valid() && k < |free| && free[k] == h && freeSize == ItemSize(mem[..], h)
      modifies this, mem
      ensures Valid() && startAddr == old(startAddr) && poolSize == old(poolSize)
      ensures blocks == old(blocks) && free == RemoveAt(old(free), k)
      ensures h + HDR !in old(live) && live == old(live)[h + HDR := freeSize]
      ensures availableSize == old(availableSize) - freeSize
      ensures history == old(history) + [poolSize - availableSize]
      ensures maxUsedSize == Max(old(maxUsedSize), poolSize - availableSize)
      ensures SameBytes(old(mem[..]), mem[..], old(live))
    {
      ghost var i := BlockSize(h);
      ShapeTake(blocks, free, flags, startAddr, poolSize, k, i);
      AccountTake(blocks, flags, live, availableSize, i, freeSize);
      BytesCount(blocks, HDR, flags - {h});
      Charge(freeSize);
      live := live[h + HDR := freeSize];
      DetachFree(h, k, Items(blocks, header));
      Isolated(old(mem[..]), mem[..], blocks, {header}, startAddr, startAddr + poolSize - HDR, HDR, old(flags),
          old(live), {}, 0);
    }

    /** Cuts the free item `h` at `n`: the front is taken, the rest becomes a free item. */
    method SplitItem(h: int, n: int, ghost k: nat, ghost i: nat, ghost items: set<int>)
      requires LinkedWith(items) && k < |free| && free[k] == h && i < |blocks| && blocks[i] == h
      requires n in items && n !in blocks && n != header && n !in free
      modifies mem, `blocks, `free, `flags
      ensures blocks == InsertAt(old(blocks), i + 1, n) && free == [n] + RemoveAt(old(free), k)
      ensures flags == old(flags) + {n} - {h}
      ensures LinkedWith(items) && SamePayload(old(mem[..]), mem[..], items, HDR)
    {
      InsertBlock(h, n, i, items);
      FreeDistinct(mem[..], header, items, blocks, free, flags);
      RemoveElem(free, k);
      DropFree(h, k, items);
      ClearFreeLinks(h, items);
      PushFree(n, items);
      assert blocks[i] == h;
      SetUsed(h, true, items);
    }

    /** `SplitItem` inside a well-formed heap: the links stay right and no live byte changes. */
    method SplitInPlace(h: int, n: int, ghost k: nat, ghost i: nat)
      requires Valid() && k < |free| && free[k] == h && i + 1 < |blocks| && blocks[i] == h
      requires h + HDR <= n && n + HDR <= blocks[i + 1] && n !in blocks
      modifies mem, `blocks, `free, `flags
      ensures blocks == InsertAt(old(blocks), i + 1, n) && free == [n] + RemoveAt(old(free), k)
      ensures flags == old(flags) + {n} - {h}
      ensures LinkedWith(Items(blocks, header)) && SameBytes(old(mem[..]), mem[..], live)
    {
      ghost var items := Items(blocks, header) + {n};
      ApartInsert(blocks, {header}, startAddr, startAddr + poolSize - HDR, HDR, mem.Length, i, n);
      SplitItem(h, n, k, i, items);
      assert Items(blocks, header) == items;
      Isolated(old(mem[..]), mem[..], old(blocks), {header}, startAddr, startAddr + poolSize - HDR, HDR, old(flags),
          live, {n}, i);
    }

    /** Takes the first `size` bytes of the free item `h`. */
    method TakeSplit(h: int, size: int, ghost k: nat)
      requires Valid() && k < |free| && free[k] == h
      requires size >= 0 && size % ALIGN == 0 && ItemSize(mem[..], h) >= size + HDR
      modifies this, mem
      ensures Valid() && startAddr == old(startAddr) && poolSize == old(poolSize)
      ensures free == [h + HDR + size] + RemoveAt(old(free), k)
      ensures h + HDR !in old(live) && live == old(live)[h + HDR := size]
      ensures availableSize == old(availableSize) - size - HDR
      ensures history == old(history) + [poolSize - availableSize]
      ensures maxUsedSize == Max(old(maxUsedSize), poolSize - availableSize)
      ensures SameBytes(old(mem[..]), mem[..], old(live))
    {
      ghost var i := BlockSize(h);
      var n := h + HDR + size;
      assert Aligned(blocks, startAddr, i);
      ShapeSplit(blocks, free, flags, startAddr, poolSize, k, i, n);
      AccountSplit(blocks, flags, live, availableSize, i, size);
      BytesCount(InsertAt(blocks, i + 1, n), HDR, flags + {n} - {h});
      SplitInPlace(h, n, k, i);
      Charge(size + HDR);
      live := live[h + HDR := size];
    }

    /** Serves `n` bytes from the free item `h`, split if the rest can hold a block. */
    method Serve(h: int, freeSize: int, n: int, ghost k: nat) returns (r: int)
      requires Valid() && FirstFit(mem[..], free, n, k) && h == free[k] && freeSize == ItemSize(mem[..], h)
      requires n >= 0 && n % ALIGN == 0
      modifies this, mem
      ensures Valid() && startAddr == old(startAddr) && poolSize == old(poolSize)
      ensures r != NULL && Allocated(old(mem[..]), old(Abs()), Abs(), r, n, k, poolSize)
      ensures maxUsedSize == Max(old(maxUsedSize), poolSize - availableSize)
      ensures SameBytes(old(mem[..]), mem[..], old(live))
    {
      r := h + HDR;
      assert h in free;
      if freeSize > n + HDR + MINI {
        TakeSplit(h, n, k);
      } else {
        TakeWhole(h, freeSize, k);
      }
    }

    /** The part of rt_memheap_alloc under the lock, for `n` bytes. The test before it may be out of date by now:
        it is not needed. */
    method AllocFit(n: int) returns (r: int, ghost k: nat)
      requires Valid() && n > 0 && n % ALIGN == 0
      modifies this, mem
      ensures Valid() && startAddr == old(startAddr) && poolSize == old(poolSize)
      ensures r == NULL <==> NoFit(old(mem[..]), old(free), n)
      ensures r == NULL ==> mem[..] == old(mem[..]) && Abs() == old(Abs())
      ensures r != NULL ==> Allocated(old(mem[..]), old(Abs()), Abs(), r, n, k, poolSize)
      ensures r != NULL ==>
                && r in live && live[r] == (if ItemSize(old(mem[..]), r - HDR) > n + HDR + MINI then n
                                            else ItemSize(old(mem[..]), r - HDR))
                && n <= live[r] <= n + HDR + MINI
      ensures maxUsedSize == Max(old(maxUsedSize), poolSize - availableSize)
      ensures SameBytes(old(mem[..]), mem[..], old(live))
    {
      Records(history, poolSize - availableSize, maxUsedSize, 0);
      r := NULL;
      var h, freeSize;
      h, freeSize, k := Search(n);
      if freeSize >= n {
        r := Serve(h, freeSize, n, k);
      }
    }

    /** rt_memheap_alloc: NULL, or the first fit in free-list order. */
    method Alloc(size: nat) returns (r: int, ghost k: nat)
      requires Valid() && size < U32
      modifies this, mem
      ensures Valid() && startAddr == old(startAddr) && poolSize == old(poolSize)
      ensures AllocatedOrNot(old(mem[..]), old(Abs()), mem[..], Abs(), r, Request(size), k, poolSize)
      ensures r != NULL ==>
                && r in live
                && live[r] == (if ItemSize(old(mem[..]), r - HDR) > Request(size) + HDR + MINI then Request(size)
                               else ItemSize(old(mem[..]), r - HDR))
                && Request(size) <= live[r] <= Request(size) + HDR + MINI
      ensures maxUsedSize == Max(old(maxUsedSize), poolSize - availableSize)
    {
      Records(history, poolSize - availableSize, maxUsedSize, 0);
      var n := Request(size);
      r, k := NULL, 0;
      if n < availableSize {
        r, k := AllocFit(n);
      }
    }

    /** Block `k` at `h` is being freed: the lists are right except around it. */
    ghost predicate Freeing(items: set<int>, h: int, k: int, queued: bool)
      reads this, mem
    {
      && LinkedWith(items) && 0 <= k < |blocks| && blocks[k] == h
      && Loose(blocks, free, flags, startAddr, poolSize, h, queued)
      && Accounts(blocks, flags, live, availableSize)
    }

    /** Merges the block being freed into a free left neighbour. */
    method JoinLeft(h: int, ghost k: nat, ghost items: set<int>) returns (x: int, ghost kx: nat, merged: bool)
      requires Freeing(items, h, k, false)
      modifies mem, `blocks, `flags, `availableSize
      ensures Freeing(items, x, kx, merged) && LeftClosed(blocks, flags, kx)
      ensures merged <==> Pred(old(blocks), k) in old(flags)
      ensures !merged ==> x == h
      ensures Succ(blocks, kx) == Succ(old(blocks), k)
      ensures Succ(blocks, kx) in flags <==> Succ(old(blocks), k) in old(flags)
      ensures availableSize == old(availableSize) + if merged then HDR else 0
      ensures SamePayload(old(mem[..]), mem[..], items, HDR)
    {
      assert LinkedAt(mem[..], NEXT, blocks, k) && h in Members(blocks);
      assert k + 1 < |blocks| && Before(blocks, HDR, k, k + 1);
      var prev := mem[h + PREV];
      x, kx, merged := h, k, false;
      assert prev in Members(blocks) && MarkedAt(mem[..], header, flags, prev);
      if mem[prev + MAGIC_WORD] % 2 != USED {
        LooseLeft(blocks, free, flags, startAddr, poolSize, k);
        AccountJoin(blocks, flags, live, availableSize, k - 1);
        availableSize := availableSize + HDR;
        RemoveBlock(h, k, items);
        x, kx, merged := prev, k - 1, true;
      }
    }

    /** Takes the free right neighbour `next` of the block at `h` out of both lists. */
    method DropRight(h: int, next: int, ghost k: nat, ghost queued: bool, ghost items: set<int>)
      requires LinkedWith(items) && k < |blocks| && blocks[k] == h && next == Succ(blocks, k) && next in flags
      requires Loose(blocks, free, flags, startAddr, poolSize, h, queued) && LeftClosed(blocks, flags, k)
      modifies mem, `blocks, `free, `flags
      ensures k + 2 <= |blocks| && LinkedWith(items) && blocks[k] == h
      ensures Loose(blocks, free, flags, startAddr, poolSize, h, queued)
      ensures LeftClosed(blocks, flags, k) && RightClosed(blocks, flags, k)
      ensures k + 2 < |old(blocks)| && blocks == RemoveAt(old(blocks), k + 1)
      ensures free == Without(old(free), next) && flags == old(flags) - {next}
      ensures SamePayload(old(mem[..]), mem[..], items, HDR)
    {
      ghost var j := RightInList(blocks, free, flags, startAddr, poolSize, k, queued);
      LooseRight(blocks, free, flags, startAddr, poolSize, k, queued, j);
      WithoutAt(free, j);
      RemoveBlock(next, k + 1, items);
      DropFree(next, j, items);
    }

    /** Merges a free right neighbour into the block being freed. */
    method JoinRight(h: int, ghost k: nat, ghost queued: bool, ghost items: set<int>)
      requires Freeing(items, h, k, queued) && LeftClosed(blocks, flags, k)
      modifies mem, `blocks, `free, `flags, `availableSize
      ensures Freeing(items, h, k, queued) && LeftClosed(blocks, flags, k) && RightClosed(blocks, flags, k)
      ensures free == Without(old(free), Succ(old(blocks), k))
      ensures availableSize == old(availableSize) + if Succ(old(blocks), k) in old(flags) then HDR else 0
      ensures SamePayload(old(mem[..]), mem[..], items, HDR)
    {
      assert LinkedAt(mem[..], NEXT, blocks, k) && h in Members(blocks);
      var next := mem[h + NEXT];
      assert next in Members(blocks) && MarkedAt(mem[..], header, flags, next);
      if mem[next + MAGIC_WORD] % 2 != USED {
        ghost var blocks0, flags0, available0 := blocks, flags, availableSize;
        availableSize := availableSize + HDR;
        DropRight(h, next, k, queued, items);
        AccountJoin(blocks0, flags0, live, available0, k);
      } else {
        WithoutNone(free, next);
      }
    }

    /** Marks the live block at `h` free and counts its bytes. */
    method BeginFree(h: int) returns (ghost k: nat)
      requires Valid() && h + HDR in live
      modifies mem, `flags, `live, `availableSize
      ensures Freeing(Items(blocks, header), h, k, false)
      ensures Pred(blocks, k) == Field(old(mem[..]), h, PREV) && Succ(blocks, k) == Field(old(mem[..]), h, NEXT)
      ensures Pred(blocks, k) != h && Succ(blocks, k) != h && flags == Members(free) + {h}
      ensures live == old(live) - {h + HDR} && availableSize == old(availableSize) + old(live)[h + HDR]
      ensures availableSize >= old(availableSize)
      ensures SamePayload(old(mem[..]), mem[..], Items(blocks, header), HDR)
    {
      k := LiveBlock(blocks, HDR, flags, h + HDR);
      LooseRelease(blocks, free, flags, startAddr, poolSize, k);
      AccountRelease(blocks, flags, live, availableSize, k, live[h + HDR]);
      assert LinkedAt(mem[..], NEXT, blocks, k) && h in Members(blocks);
      availableSize := availableSize + (mem[h + NEXT] - h - HDR);
      assert Before(blocks, HDR, k, k + 1);
      assert Before(blocks, HDR, if k == 0 then 0 else k - 1, if k == 0 then |blocks| - 1 else k);
      live := live - {h + HDR};
      SetUsed(h, false, Items(blocks, header));
    }

    /** Puts the freed block at the front of the free list, unless its left neighbour is there. */
    method Enqueue(h: int, ghost k: nat, merged: bool, ghost items: set<int>)
      requires LinkedWith(items) && k < |blocks| && blocks[k] == h
      requires Loose(blocks, free, flags, startAddr, poolSize, h, merged)
      requires LeftClosed(blocks, flags, k) && RightClosed(blocks, flags, k)
      modifies mem, `free
      ensures LinkedWith(items) && Shape(blocks, free, flags, startAddr, poolSize)
      ensures free == (if merged then [] else [h]) + old(free)
      ensures SamePayload(old(mem[..]), mem[..], items, HDR)
    {
      if !merged {
        assert h in flags && h !in Members(free) && h in Members(blocks);
        PushFree(h, items);
        assert Members(free) == flags;
        FreeDistinct(mem[..], header, items, blocks, free, flags);
      }
      LooseDone(blocks, free, flags, startAddr, poolSize, k);
    }

    /** Merges the block being freed with its free neighbours and queues it. */
    method Coalesce(h: int, ghost k: nat, ghost items: set<int>)
      requires Freeing(items, h, k, false)
      modifies mem, `blocks, `free, `flags, `availableSize
      ensures LinkedWith(items) && Shape(blocks, free, flags, startAddr, poolSize)
      ensures Accounts(blocks, flags, live, availableSize)
      ensures var left, right := Pred(old(blocks), k), Succ(old(blocks), k);
              && free == (if left in old(flags) then [] else [h]) + Without(old(free), right)
              && availableSize == old(availableSize) + (if left in old(flags) then HDR else 0)
                                                     + (if right in old(flags) then HDR else 0)
      ensures SamePayload(old(mem[..]), mem[..], items, HDR)
    {
      var x, merged;
      ghost var kx;
      x, kx, merged := JoinLeft(h, k, items);
      JoinRight(x, kx, merged, items);
      Enqueue(x, kx, merged, items);
    }

    /** Frees the live block at `ptr`. */
    method FreeBlock(ptr: int)
      requires Valid() && ptr in live
      modifies mem, `blocks, `free, `flags, `live, `availableSize
      ensures Sound() && live == old(live) - {ptr} && availableSize >= old(availableSize)
      ensures Freed(old(mem[..]), ptr, old(live)[ptr], old(free), free, old(availableSize), availableSize)
      ensures SameBytes(old(mem[..]), mem[..], old(live))
    {
      ghost var items, blocks0, flags0 := Items(blocks, header), blocks, flags;
      ghost var k := BeginFree(ptr - HDR);
      Coalesce(ptr - HDR, k, items);
      Narrow(mem[..], header, items, blocks, free, flags);
      Isolated(old(mem[..]), mem[..], blocks0, {header}, startAddr, startAddr + poolSize - HDR, HDR, flags0,
          old(live), {}, 0);
    }

    /** Records that bytes were given back. */
    ghost method Record(available: int)
      requires Sound() && Recorded(history, poolSize - available, maxUsedSize)
      requires available <= availableSize && maxUsedSize <= poolSize
      modifies `history
      ensures Valid() && history == old(history) + [poolSize - availableSize]
    {
      Records(history, poolSize - available, maxUsedSize, poolSize - availableSize);
      history := history + [poolSize - availableSize];
    }

    /** rt_memheap_free. */
    method Free(ptr: int)
      requires Valid() && (ptr == NULL || ptr in live)
      modifies this, mem
      ensures Valid() && startAddr == old(startAddr) && poolSize == old(poolSize)
      ensures live == (if ptr == NULL then old(live) else old(live) - {ptr}) && maxUsedSize == old(maxUsedSize)
      ensures ptr == NULL ==> mem[..] == old(mem[..]) && Abs() == old(Abs())
      ensures ptr != NULL ==> Released(old(mem[..]), old(Abs()), Abs(), ptr, poolSize)
      ensures SameBytes(old(mem[..]), mem[..], old(live))
    {
      if ptr != NULL {
        FreeBlock(ptr);
        Record(old(availableSize));
      }
    }

    /** Takes the free item `next`, block `k`, out of both lists. */
    method DropItem(next: int, ghost k: nat, ghost j: nat)
      requires LinkedWith(Items(blocks, header)) && Shape(blocks, free, flags, startAddr, poolSize)
      requires k < |blocks| && blocks[k] == next && |blocks| >= 2 && j < |free| && free[j] == next
      modifies mem, `blocks, `free, `flags
      ensures blocks == RemoveAt(old(blocks), k) && free == RemoveAt(old(free), j) && flags == old(flags) - {next}
      ensures LinkedWith(Items(blocks, header)) && Members(free) == flags && flags <= Members(blocks)
      ensures SamePayload(old(mem[..]), mem[..], Items(old(blocks), header), HDR)
    {
      ghost var items := Items(blocks, header);
      RemoveElem(free, j);
      RemoveElem(blocks, k);
      DropFree(next, j, items);
      RemoveBlock(next, k, items);
      Narrow(mem[..], header, items, blocks, free, flags);
    }

    /** Makes `n` a free item behind block `k`, which is at `p`. */
    method AddItem(p: int, n: int, ghost k: nat)
      requires Placed() && LinkedWith(Items(blocks, header)) && Tiles(blocks, startAddr, poolSize)
      requires Members(free) <= Members(blocks) && n !in Members(blocks)
      requires k + 1 < |blocks| && blocks[k] == p && p + HDR <= n && n + HDR <= blocks[k + 1]
      modifies mem, `blocks, `free, `flags
      ensures blocks == InsertAt(old(blocks), k + 1, n) && free == [n] + old(free) && flags == old(flags) + {n}
      ensures LinkedWith(Items(blocks, header))
      ensures SamePayload(old(mem[..]), mem[..], Items(old(blocks), header) + {n}, HDR)
    {
      ghost var items := Items(blocks, header) + {n};
      ApartInsert(blocks, {header}, startAddr, startAddr + poolSize - HDR, HDR, mem.Length, k, n);
      MembersInsert(blocks, k + 1, n);
      InsertBlock(p, n, k, items);
      PushFree(n, items);
      assert Items(blocks, header) == items;
    }

    /** Replaces the free item `next` behind block `k` by a free item at `n`, further up. */
    method MoveItem(p: int, next: int, n: int, ghost k: nat, ghost j: nat)
      requires Placed() && LinkedWith(Items(blocks, header)) && Shape(blocks, free, flags, startAddr, poolSize)
      requires live == Live(blocks, HDR, flags)
      requires k + 2 < |blocks| && blocks[k] == p && blocks[k + 1] == next && j < |free| && free[j] == next
      requires next < n && n + HDR <= blocks[k + 2]
      modifies mem, `blocks, `free, `flags
      ensures blocks == old(blocks)[k + 1 := n] && free == [n] + RemoveAt(old(free), j)
      ensures flags == old(flags) - {next} + {n}
      ensures LinkedWith(Items(blocks, header)) && SameBytes(old(mem[..]), mem[..], live)
    {
      InsideNext(blocks, startAddr, poolSize, k, n);
      DropItem(next, k + 1, j);
      AddItem(p, n, k);
      Replaced(old(blocks), k + 1, n);
      Isolated(old(mem[..]), mem[..], old(blocks), {header}, startAddr, startAddr + poolSize - HDR, HDR, old(flags),
          live, {n}, k + 1);
    }

    /** The items when the live block at `ptr` grows to `n` bytes, which are charged already. */
    method GrowItems(ptr: int, n: int, next: int, ghost k: nat, ghost j: nat)
      requires Placed() && LinkedWith(Items(blocks, header)) && Shape(blocks, free, flags, startAddr, poolSize)
      requires live == Live(blocks, HDR, flags)
      requires k + 2 < |blocks| && blocks[k] == ptr - HDR && blocks[k] !in flags
      requires blocks[k + 1] == next && j < |free| && free[j] == next
      requires next < ptr + n && ptr + n + HDR <= blocks[k + 2] && n % ALIGN == 0
      requires Accounts(blocks[k + 1 := ptr + n], flags - {next} + {ptr + n}, live[ptr := n], availableSize)
      modifies mem, `blocks, `free, `flags, `live
      ensures Sound() && live == old(live)[ptr := n] && free == [ptr + n] + RemoveAt(old(free), j)
      ensures SameBytes(old(mem[..]), mem[..], old(live))
    {
      ShapeGrow(blocks, free, flags, startAddr, poolSize, k, j, ptr + n);
      MoveItem(ptr - HDR, next, ptr + n, k, j);
      live := live[ptr := n];
    }

    /** Grows the live block at `ptr` to `n` bytes into its free right neighbour. */
    method Grow(ptr: int, n: int, next: int, ghost k: nat, ghost j: nat)
      requires Valid() && k + 2 < |blocks| && blocks[k] == ptr - HDR && blocks[k] !in flags
      requires blocks[k + 1] == next && j < |free| && free[j] == next
      requires next < ptr + n && ptr + n + HDR <= blocks[k + 2] && n % ALIGN == 0
      modifies this, mem
      ensures Valid() && startAddr == old(startAddr) && poolSize == old(poolSize)
      ensures live == old(live)[ptr := n] && free == [ptr + n] + RemoveAt(old(free), j)
      ensures availableSize == old(availableSize) - (ptr + n - next)
      ensures history == old(history) + [poolSize - availableSize]
      ensures maxUsedSize == Max(old(maxUsedSize), poolSize - availableSize)
      ensures SameBytes(old(mem[..]), mem[..], old(live))
    {
      AccountGrow(blocks, flags, live, availableSize, startAddr, poolSize, k, ptr + n);
      GrowthCharged(blocks, flags - {next} + {ptr + n}, live[ptr := n], availableSize - (ptr + n - next), startAddr,
                    poolSize, k, ptr + n);
      Charge(ptr + n - next);
      GrowItems(ptr, n, next, k, j);
    }

    /** While the tail cut off at `x` is not yet counted as available. */
    ghost predicate Shrinking(items: set<int>, x: int, k: int)
      reads this, mem
    {
      && LinkedWith(items) && 0 <= k < |blocks| && blocks[k] == x
      && Loose(blocks, free, flags, startAddr, poolSize, x, false)
      && LeftClosed(blocks, flags, k)
      && Accounts(blocks, flags, live, availableSize + (Succ(blocks, k) - x - HDR))
    }

    /** Cuts the tail from `n` off the live block at `ptr`. */
    method CutTail(ptr: int, n: int, ghost k: nat)
      requires Valid() && k + 1 < |blocks| && blocks[k] == ptr - HDR && blocks[k] !in flags
      requires ptr <= n && n + HDR <= blocks[k + 1] && (n - startAddr) % ALIGN == 0
      modifies mem, `blocks, `flags, `live
      ensures live == old(live)[ptr := n - ptr]
      ensures Shrinking(Items(blocks, header), n, k + 1)
      ensures SamePayload(old(mem[..]), mem[..], Items(blocks, header), HDR)
      ensures blocks == InsertAt(old(blocks), k + 1, n) && flags == old(flags) + {n}
    {
      LooseCut(blocks, free, flags, startAddr, poolSize, k, n);
      AccountCut(blocks, flags, live, availableSize, k, n);
      ApartInsert(blocks, {header}, startAddr, startAddr + poolSize - HDR, HDR, mem.Length, k, n);
      MembersInsert(blocks, k + 1, n);
      InsertBlock(ptr - HDR, n, k, Items(blocks, header) + {n});
      live := live[ptr := n - ptr];
      assert Items(blocks, header) == Items(old(blocks), header) + {n};
    }

    /** Merges the cut-off tail at `x` with a free right neighbour. */
    method MergeTail(x: int, ghost k: nat, ghost items: set<int>)
      requires Shrinking(items, x, k)
      modifies mem, `blocks, `free, `flags, `availableSize
      ensures Shrinking(items, x, k) && RightClosed(blocks, flags, k) && k + 1 < |blocks|
      ensures free == Without(old(free), Succ(old(blocks), k))
      ensures availableSize + (Succ(blocks, k) - x - HDR)
           == old(availableSize) + (Succ(old(blocks), k) - x - HDR)
               + if Succ(old(blocks), k) in old(flags) then HDR else 0
      ensures SamePayload(old(mem[..]), mem[..], items, HDR)
    {
      assert LinkedAt(mem[..], NEXT, blocks, k) && x in Members(blocks);
      var next := mem[x + NEXT];
      assert next in Members(blocks) && MarkedAt(mem[..], header, flags, next);
      if mem[next + MAGIC_WORD] % 2 != USED {
        assert k + 1 < |blocks| && LinkedAt(mem[..], NEXT, blocks, k + 1);
        ghost var blocks0, flags0, available0 := blocks, flags, availableSize;
        availableSize := availableSize - (mem[next + NEXT] - next - HDR);
        DropRight(x, next, k, false, items);
        AccountJoin(blocks0, flags0, live, available0 + (next - x - HDR), k);
      } else {
        WithoutNone(free, next);
      }
    }

    /** Makes the cut-off tail at `x` a counted free item. */
    method ReturnTail(x: int, ghost k: nat, ghost items: set<int>)
      requires Shrinking(items, x, k)
      modifies mem, `blocks, `free, `flags, `availableSize
      ensures LinkedWith(items) && Shape(blocks, free, flags, startAddr, poolSize)
      ensures Accounts(blocks, flags, live, availableSize)
      ensures free == [x] + Without(old(free), Succ(old(blocks), k))
      ensures availableSize == old(availableSize) + (Succ(old(blocks), k) - x - HDR)
              + if Succ(old(blocks), k) in old(flags) then HDR else 0
      ensures SamePayload(old(mem[..]), mem[..], items, HDR)
    {
      MergeTail(x, k, items);
      Enqueue(x, k, false, items);
      assert LinkedAt(mem[..], NEXT, blocks, k);
      availableSize := availableSize + (mem[x + NEXT] - x - HDR);
    }

    /** Shrinks the live block at `ptr` to `n` bytes; only the items change. */
    method ShrinkItems(ptr: int, n: int, ghost k: nat) returns (ghost blocks1: seq<int>, ghost flags1: set<int>)
      requires Valid() && k + 1 < |blocks| && blocks[k] == ptr - HDR && blocks[k] !in flags
      requires 0 <= n && n % ALIGN == 0 && ptr + n + HDR <= blocks[k + 1]
      modifies this, mem
      ensures Valid() && startAddr == old(startAddr) && poolSize == old(poolSize)
      ensures live == old(live)[ptr := n] && maxUsedSize == old(maxUsedSize)
      ensures history == old(history) + [poolSize - availableSize]
      ensures free == [ptr + n] + Without(old(free), old(blocks)[k + 1])
      ensures availableSize == old(availableSize) + (old(blocks)[k + 1] - (ptr + n) - HDR)
              + if old(blocks)[k + 1] in old(flags) then HDR else 0
      ensures live == Live(blocks1, HDR, flags1) && Tiles(blocks1, startAddr, poolSize)
      ensures SamePayload(old(mem[..]), mem[..], Items(blocks1, header), HDR)
    {
      assert Aligned(blocks, startAddr, k);
      CutTail(ptr, ptr + n, k);
      blocks1, flags1 := blocks, flags;
      ghost var items := Items(blocks, header);
      ReturnTail(ptr + n, k + 1, items);
      Narrow(mem[..], header, items, blocks, free, flags);
      Record(old(availableSize));
    }

    /** Shrinks the live block at `ptr` to `n` bytes. */
    method Shrink(ptr: int, n: int, ghost k: nat)
      requires Valid() && k + 1 < |blocks| && blocks[k] == ptr - HDR && blocks[k] !in flags
      requires 0 <= n && n % ALIGN == 0 && ptr + n + HDR <= blocks[k + 1]
      modifies this, mem
      ensures Valid() && startAddr == old(startAddr) && poolSize == old(poolSize)
      ensures live == old(live)[ptr := n] && maxUsedSize == old(maxUsedSize)
      ensures history == old(history) + [poolSize - availableSize]
      ensures free == [ptr + n] + Without(old(free), old(blocks)[k + 1])
      ensures availableSize == old(availableSize) + (old(blocks)[k + 1] - (ptr + n) - HDR)
              + if old(blocks)[k + 1] in old(flags) then HDR else 0
      ensures SameBytes(old(mem[..]), mem[..], live)
    {
      ghost var blocks1, flags1 := ShrinkItems(ptr, n, k);
      Isolated(old(mem[..]), mem[..], blocks1, {header}, startAddr, startAddr + poolSize - HDR, HDR, flags1, live, {},
          0);
    }

    /** rt_memcpy of `count` bytes into the live payload at `dst` from the live payload at `src`. */
    method Copy(dst: int, src: int, count: int)
      requires Valid() && dst in live && src in live && dst != src && 0 <= count <= live[dst] && count <= live[src]
      modifies mem
      ensures Valid()
      ensures SamePrefix(old(mem[..]), src, mem[..], dst, count)
      ensures SameBytes(old(mem[..]), mem[..], live - {dst})
    {
      PayloadClear(blocks, {header}, startAddr, startAddr + poolSize - HDR, HDR, flags, dst);
      PayloadClear(blocks, {header}, startAddr, startAddr + poolSize - HDR, HDR, flags, src);
      CopyCells(mem, dst, src, count);
      assert mem[..][dst..dst + count] == mem[dst..dst + count]
          && old(mem[..])[src..src + count] == old(mem[src..src + count]);
      LinkedKept(old(mem[..]), mem[..], header, blocks, free, flags);
    }

    /** Whether a request of `n` bytes for the live block at `ptr` needs no other block. */
    ghost predicate StaysInPlace(ptr: int, n: int)
      reads this, mem
    {
      var next := Field(mem[..], ptr - HDR, NEXT);
      ptr in live && (n <= live[ptr] || (next in free && ItemSize(mem[..], next) + live[ptr] > n + MINI))
    }

    /** If the growth test is made, it means what it says. */
    ghost predicate GrowsSafely(ptr: int, n: int)
      requires ptr in live
      reads this, mem
    {
      var next := Field(mem[..], ptr - HDR, NEXT);
      n > live[ptr] && next in free ==> TestIsRight(ItemSize(mem[..], next), live[ptr], n)
    }

    /** rt_memheap_alloc of `n` bytes, which are a request already. */
    method AllocRequest(n: nat) returns (r: int, ghost k: nat)
      requires Valid() && n < U32 && Request(n) == n
      modifies this, mem
      ensures Valid() && startAddr == old(startAddr) && poolSize == old(poolSize)
      ensures AllocatedOrNot(old(mem[..]), old(Abs()), mem[..], Abs(), r, n, k, poolSize)
      ensures r != NULL ==> r !in old(live) && r in live && live == old(live)[r := live[r]]
      ensures r != NULL ==>
                && r in live && live[r] == (if ItemSize(old(mem[..]), r - HDR) > n + HDR + MINI then n
                                            else ItemSize(old(mem[..]), r - HDR))
                && n <= live[r] <= n + HDR + MINI
      ensures maxUsedSize == Max(old(maxUsedSize), poolSize - availableSize)
    {
      r, k := Alloc(n);
    }

    /** A reallocation that has to move: allocate, copy the old payload, free the old block. */
    method Move(ptr: int, oldsize: int, n: nat) returns (r: int, ghost half: Half)
      requires Valid() && ptr in live && n == Request(n) && 0 <= oldsize == live[ptr] < n < U32
      modifies this, mem
      ensures Valid() && startAddr == old(startAddr) && poolSize == old(poolSize)
      ensures HalfSound(half, header, startAddr, poolSize)
      ensures r == NULL <==> n >= old(availableSize) || NoFit(old(mem[..]), old(free), n)
      ensures r == NULL ==> mem[..] == old(mem[..]) && Abs() == old(Abs())
      ensures r != NULL ==> MovedBooks(old(mem[..]), old(Abs()), half, Abs(), ptr, r, n, poolSize)
      ensures r !in old(live)
      ensures r != NULL ==> r in live && live - {r} == old(live) - {ptr}
      ensures r != NULL ==>
                && r in live && live[r] == (if ItemSize(old(mem[..]), r - HDR) > n + HDR + MINI then n
                                            else ItemSize(old(mem[..]), r - HDR))
                && n <= live[r] <= n + HDR + MINI
      ensures r != NULL ==> SamePrefix(old(mem[..]), ptr, mem[..], r, old(live)[ptr])
      ensures SameBytes(old(mem[..]), mem[..], old(live) - {ptr})
    {
      ghost var m0, live0 := mem[..], live;
      ghost var k;
      NullNotLive();
      r, k := AllocRequest(n);
      half := Half(k, mem[..], Abs(), blocks, flags);
      if r != NULL {
        ghost var m1, live1 := mem[..], live;
        assert live1 - {r} == live0 && live1[ptr] == oldsize && oldsize <= live1[r];
        Copy(r, ptr, oldsize);
        ghost var m2 := mem[..];
        half := half.(m := m2);
        Free(ptr);
        MovedBytes(m0, m1, m2, mem[..], live0, live1, ptr, r, oldsize);
      }
    }

    /** `Grow`, for a neighbour somewhere in the free list. */
    method GrowInto(ptr: int, n: int, next: int, ghost k: nat)
      requires Valid() && k + 2 < |blocks| && blocks[k] == ptr - HDR && blocks[k] !in flags && ptr in live
      requires blocks[k + 1] == next && next in free && next == Field(mem[..], ptr - HDR, NEXT)
               && live[ptr] == next - ptr
      requires next < ptr + n && ptr + n + HDR <= blocks[k + 2] && n % ALIGN == 0
      modifies this, mem
      ensures Valid() && startAddr == old(startAddr) && poolSize == old(poolSize)
      ensures live == old(live)[ptr := n] && SameBytes(old(mem[..]), mem[..], old(live))
      ensures Grown(old(mem[..]), old(Abs()), Abs(), ptr, n, poolSize)
    {
      ghost var j :| 0 <= j < |free| && free[j] == next;
      WithoutAt(free, j);
      Grow(ptr, n, next, k, j);
    }

    /** The test of rt_memheap_realloc for growth in place. */
    static method HasRoom(nextsize: nat, oldsize: nat, n: nat) returns (room: bool)
      requires nextsize + oldsize < U32 - HDR && n < U32 && TestIsRight(nextsize, oldsize, n)
      ensures room <==> nextsize + oldsize > n + MINI
    {
      RoomToGrowExact(nextsize, oldsize, n);
      room := RoomToGrow(nextsize, oldsize, n);
    }

    /** Grows the live block at `ptr` in place when its right neighbour is free and large enough. */
    method TryGrow(ptr: int, oldsize: int, n: nat) returns (ok: bool)
      requires Valid() && ptr in live && n == Request(n) && 0 <= oldsize == live[ptr] < n < U32
      requires GrowsSafely(ptr, n)
      modifies this, mem
      ensures Valid() && startAddr == old(startAddr) && poolSize == old(poolSize)
      ensures ok <==> old(StaysInPlace(ptr, n))
      ensures ok ==> live == old(live)[ptr := n] && SameBytes(old(mem[..]), mem[..], old(live))
      ensures ok ==> Grown(old(mem[..]), old(Abs()), Abs(), ptr, n, poolSize)
      ensures !ok ==> mem[..] == old(mem[..]) && Abs() == old(Abs())
    {
      ghost var k := LiveItem(ptr);
      var next := mem[ptr - HDR + NEXT];
      assert MarkedAt(mem[..], header, flags, next);
      ghost var stays := StaysInPlace(ptr, n);
      assert next in free <==> next in flags;
      assert stays <==> next in flags && ItemSize(mem[..], next) + oldsize > n + MINI;
      ok := false;
      if mem[next + MAGIC_WORD] % 2 != USED {
        assert k + 2 < |blocks| && LinkedAt(mem[..], NEXT, blocks, k + 1);
        GrowFits(blocks, startAddr, poolSize, k);
        var nextsize := mem[next + NEXT] - next - HDR;
        var room := HasRoom(nextsize, oldsize, n);
        if room {
          GrowInto(ptr, n, next, k);
          ok := true;
        }
      }
    }

    /** A reallocation to more than the block holds. */
    method Enlarge(ptr: int, oldsize: int, n: nat) returns (r: int, ghost half: Half)
      requires Valid() && ptr in live && n == Request(n) && 0 <= oldsize == live[ptr] < n < U32
      requires GrowsSafely(ptr, n)
      modifies this, mem
      ensures Valid() && startAddr == old(startAddr) && poolSize == old(poolSize)
      ensures HalfSound(half, header, startAddr, poolSize)
      ensures ResizedTo(old(mem[..]), old(Abs()), mem[..], half, Abs(), ptr, r, n, poolSize, old(StaysInPlace(ptr, n)))
    {
      ghost var k := LiveItem(ptr);
      NullNotLive();
      half := Half(0, mem[..], Abs(), blocks, flags);
      var ok := TryGrow(ptr, oldsize, n);
      if ok {
        r := ptr;
      } else {
        r, half := Move(ptr, oldsize, n);
      }
    }

    /** A reallocation to `n` bytes, which are a request already. */
    method ResizeTo(ptr: int, n: nat) returns (r: int, ghost half: Half)
      requires Valid() && ptr in live && n < U32 && n == Request(n) && n % ALIGN == 0
      requires GrowsSafely(ptr, n)
      modifies this, mem
      ensures Valid() && startAddr == old(startAddr) && poolSize == old(poolSize)
      ensures HalfSound(half, header, startAddr, poolSize)
      ensures ResizedTo(old(mem[..]), old(Abs()), mem[..], half, Abs(), ptr, r, n, poolSize, old(StaysInPlace(ptr, n)))
    {
      ghost var k := LiveItem(ptr);
      NullNotLive();
      half := Half(0, mem[..], Abs(), blocks, flags);
      var oldsize := mem[ptr - HDR + NEXT] - ptr;
      if n > oldsize {
        r, half := Enlarge(ptr, oldsize, n);
      } else {
        r := ptr;
        if n + HDR + MINI < oldsize {
          Shrink(ptr, n, k);
        }
      }
    }

    /** The same, with the peak. */
    method ResizeRequest(ptr: int, n: nat) returns (r: int, ghost half: Half)
      requires Valid() && ptr in live && n < U32 && n == Request(n) && n % ALIGN == 0
      requires GrowsSafely(ptr, n)
      modifies this, mem
      ensures Valid() && startAddr == old(startAddr) && poolSize == old(poolSize)
      ensures HalfSound(half, header, startAddr, poolSize)
      ensures ResizedTo(old(mem[..]), old(Abs()), mem[..], half, Abs(), ptr, r, n, poolSize, old(StaysInPlace(ptr, n)))
      ensures maxUsedSize == MovedPeak(old(maxUsedSize), ptr, r, old(StaysInPlace(ptr, n)), half, Abs(), poolSize)
    {
      NullNotLive();
      r, half := ResizeTo(ptr, n);
      ResizedPeak(old(mem[..]), old(Abs()), mem[..], half, Abs(), ptr, r, n, poolSize, old(StaysInPlace(ptr, n)),
                  old(maxUsedSize), maxUsedSize);
    }

    /** rt_memheap_realloc of a live block to `newsize > 0` bytes. */
    method Resize(ptr: int, newsize: nat) returns (r: int, ghost half: Half)
      requires Valid() && ptr in live && newsize < U32 && GrowsSafely(ptr, Request(newsize))
      modifies this, mem
      ensures Valid() && startAddr == old(startAddr) && poolSize == old(poolSize)
      ensures HalfSound(half, header, startAddr, poolSize)
      ensures ResizedTo(old(mem[..]), old(Abs()), mem[..], half, Abs(), ptr, r, Request(newsize), poolSize,
                        old(StaysInPlace(ptr, Request(newsize))))
      ensures var next := old(Field(mem[..], ptr - HDR, NEXT));
              r == ptr <==> Request(newsize) <= old(live[ptr])
                            || (next in old(free)
                                && ItemSize(old(mem[..]), next) + old(live[ptr]) > Request(newsize) + MINI)
      ensures maxUsedSize == MovedPeak(old(maxUsedSize), ptr, r, old(StaysInPlace(ptr, Request(newsize))), half, Abs(),
                                       poolSize)
    {
      RequestCovers(newsize);
      r, half := ResizeRequest(ptr, Request(newsize));
    }

    /** rt_memheap_realloc. */
    method Realloc(ptr: int, newsize: nat) returns (r: int, ghost half: Half)
      requires Valid() && (ptr == NULL || ptr in live) && newsize < U32
      requires newsize > 0 && ptr != NULL ==> GrowsSafely(ptr, Request(newsize))
      modifies this, mem
      ensures Valid() && startAddr == old(startAddr) && poolSize == old(poolSize)
      ensures HalfSound(half, header, startAddr, poolSize)
      ensures Reallocated(old(mem[..]), old(Abs()), mem[..], half, Abs(), ptr, r, newsize, poolSize,
                          old(StaysInPlace(ptr, Request(newsize))))
      ensures newsize > 0 && ptr != NULL ==>
                var next := old(Field(mem[..], ptr - HDR, NEXT));
                r == ptr <==> Request(newsize) <= old(live[ptr])
                              || (next in old(free)
                                  && ItemSize(old(mem[..]), next) + old(live[ptr]) > Request(newsize) + MINI)
      ensures r != NULL ==> r in live && Request(newsize) <= live[r] <= Request(newsize) + HDR + MINI
      ensures maxUsedSize == MovedPeak(old(maxUsedSize), ptr, r, old(StaysInPlace(ptr, Request(newsize))), half, Abs(),
                                       poolSize)
    {
      half := Half(0, mem[..], Abs(), blocks, flags);
      if newsize == 0 {
        Free(ptr);
        r := NULL;
      } else if ptr == NULL {
        RequestCovers(newsize);
        ghost var k;
        r, k := AllocRequest(Request(newsize));
        half := half.(k := k);
      } else {
        r, half := Resize(ptr, newsize);
      }
      ReallocatedPeak(old(mem[..]), old(Abs()), mem[..], half, Abs(), ptr, r, newsize, poolSize,
                      old(StaysInPlace(ptr, Request(newsize))), old(maxUsedSize), maxUsedSize);
    }

    /** Releasing every live block, in any order, gives back the pool that initialization made. */
    method ReleaseAll(ptrs: seq<int>)
      requires Valid() && NoDuplicates(ptrs) && Members(ptrs) == live.Keys
      modifies this, mem
      ensures Valid() && live == map[]
      ensures blocks == [startAddr, startAddr + poolSize - HDR] && free == [startAddr]
      ensures availableSize == poolSize - 2 * HDR && maxUsedSize == old(maxUsedSize)
    {
      var i := 0;
      while i < |ptrs|
        invariant 0 <= i <= |ptrs| && Valid() && maxUsedSize == old(maxUsedSize)
        invariant live.Keys == Members(ptrs[i..])
      {
        ToDistinct(ptrs);
        assert Members(ptrs[i + 1..]) == Members(ptrs[i..]) - {ptrs[i]} by {
          assert ptrs[i..] == [ptrs[i]] + ptrs[i + 1..];
        }
        NullNotLive();
        assert ptrs[i] in Members(ptrs[i..]);
        Free(ptrs[i]);
        i := i + 1;
      }
      assert live == map[];
      AllFreeIsOneBlock(blocks, free, flags, live, availableSize, startAddr, poolSize);
    }
  }

  // Consequences of the heap invariant.

  /** With nothing allocated the heap is one free block. */
  lemma AllFreeIsOneBlock(bs: seq<int>, fr: seq<int>, flags: set<int>, live: map<int, int>, available: int,
                          start: int, pool: int)
    requires Shape(bs, fr, flags, start, pool) && Accounts(bs, flags, live, available) && live == map[]
    ensures bs == [start, start + pool - HDR] && fr == [start] && available == pool - 2 * HDR
  {
    SpacedDistinct(bs, HDR);
    forall i | 0 <= i < |bs| - 1 ensures bs[i] in flags {
      if bs[i] !in flags {
        BlockLive(bs, HDR, flags, i);
        assert false;
      }
    }
    assert NotBoth(bs, flags, 0) || |bs| == 2;
    assert flags == {start};
    ToDistinct(fr);
    MembersCount(fr);
    assert fr[0] in Members(fr);
    assert Bytes(bs[1..], HDR, flags) == 0;
  }

  /** Every byte of the pool is free, allocated, or part of an item header. */
  lemma Conservation(bs: seq<int>, fr: seq<int>, flags: set<int>, live: map<int, int>, available: int, start: int,
                     pool: int)
    requires Shape(bs, fr, flags, start, pool) && Accounts(bs, flags, live, available)
    ensures pool == available + Sum(live) + HDR * (|live| + |fr| + 1)
  {
    SpacedDistinct(bs, HDR);
    BytesTile(bs, HDR, flags);
    LiveSum(bs, HDR, flags);
    LiveCount(bs, HDR, flags);
    ToDistinct(fr);
    MembersCount(fr);
  }

  /** A live payload is aligned with the pool, inside it, and meets no header and no other live payload. */
  lemma Isolation(bs: seq<int>, header: int, fr: seq<int>, flags: set<int>, live: map<int, int>, available: int,
                  start: int, pool: int, p: int)
    requires Shape(bs, fr, flags, start, pool) && Accounts(bs, flags, live, available)
    requires header + HDR <= start || start + pool <= header
    requires p in live
    ensures (p - start) % ALIGN == 0 && start < p && 0 <= live[p] && p + live[p] <= start + pool - HDR
    ensures forall x | x in Items(bs, header) :: x + HDR <= p || p + live[p] <= x
    ensures forall q | q in live && q != p :: q + live[q] <= p || p + live[p] <= q
  {
    PayloadClear(bs, {header}, start, start + pool - HDR, HDR, flags, p);
    var i := LiveBlock(bs, HDR, flags, p);
    assert Aligned(bs, start, i);
  }

  /** A served block is at least as long as the request exactly when rounding up does not wrap. */
  lemma RequestCovers(size: nat)
    requires size < U32
    ensures Request(size) >= size <==> size <= U32 - ALIGN
    ensures Request(size) % ALIGN == 0 && MINI <= Request(size) < U32
    ensures Request(Request(size)) == Request(size)
  {
    if size > U32 - ALIGN {
      assert (size + ALIGN - 1) % U32 == size + ALIGN - 1 - U32;
    }
  }

  /** It is the least aligned number that covers the size and the minimum block. */
  lemma RequestIsLeast(size: nat, n: nat)
    requires size <= U32 - ALIGN
    ensures n >= size && n >= MINI && n % ALIGN == 0 ==> Request(size) <= n
    ensures Request(size) >= size && Request(size) >= MINI && Request(size) % ALIGN == 0
  {
    assert (size + ALIGN - 1) % U32 == size + ALIGN - 1;
    assert n % ALIGN == 0 ==> n == ALIGN * (n / ALIGN);
  }

  /** A request just below 4 GiB is rounded to the minimum block. */
  lemma RequestWraps()
    ensures Request(U32 - 1) == MINI < U32 - 1
  {
    assert (U32 - 1 + ALIGN - 1) % U32 == 2;
  }

  /** The growth test in 32-bit arithmetic means there is room exactly when adding the minimum
      size does not wrap, or the neighbour is smaller than the wrapped sum. */
  lemma RoomToGrowExact(nextsize: nat, oldsize: nat, n: nat)
    requires nextsize + oldsize < U32 - HDR && n < U32
    ensures (RoomToGrow(nextsize, oldsize, n) <==> nextsize + oldsize > n + MINI) <==> TestIsRight(nextsize, oldsize, n)
  {
    if n + MINI >= U32 {
      assert (n + MINI) % U32 == n + MINI - U32;
    }
  }

  /** Where the test is wrong it says that there is room, and the header of the rest would be written
      past the end of the neighbour. */
  lemma GrowsTooFar(nextsize: nat, oldsize: nat, n: nat, ptr: int)
    requires nextsize + oldsize < U32 - HDR && n < U32 && !TestIsRight(nextsize, oldsize, n)
    ensures RoomToGrow(nextsize, oldsize, n) && ptr + n + HDR > ptr + oldsize + HDR + nextsize
  {
    assert (n + MINI) % U32 == n + MINI - U32;
  }

  /** It is wrong for a block and a neighbour of 100 bytes each, and a request just below 4 GiB. */
  lemma RoomToGrowFails()
    ensures Request(U32 - 4) == U32 - 4 && RoomToGrow(100, 100, U32 - 4) && !(100 + 100 > U32 - 4 + MINI)
  {
    assert (U32 - 4 + MINI) % U32 == 8;
  }
}
