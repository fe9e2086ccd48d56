/** The word operations of the scheduler on unsigned words as numbers, and __rt_ffs with its
    lookup table. */
module Bits {
  import opened Words


  /** Bit i of w. */
  predicate Has(w: nat, i: nat)
    decreases i
  {
    if i == 0 then w % 2 == 1 else Has(w / 2, i - 1)
  }

  /** a | b */
  function Or(a: nat, b: nat): nat
    decreases a + b
  {
    if a == 0 then b else if b == 0 then a
    else 2 * Or(a / 2, b / 2) + if a % 2 == 1 || b % 2 == 1 then 1 else 0
  }

  /** a & ~b */
  function AndNot(a: nat, b: nat): nat {
    if a == 0 then 0
    else 2 * AndNot(a / 2, b / 2) + if a % 2 == 1 && b % 2 == 0 then 1 else 0
  }

  /** 1 << i */
  function Mask(i: nat): nat {
    if i == 0 then 1 else 2 * Mask(i - 1)
  }

  lemma Split2(m: nat, b: nat)
    requires b < 2
    ensures (2 * m + b) % 2 == b && (2 * m + b) / 2 == m
  {}

  lemma Split4(m: nat, b: nat)
    requires b < 4
    ensures (4 * m + b) % 4 == b && (4 * m + b) / 4 == m
  {}

  lemma Split8(m: nat, b: nat)
    requires b < 8
    ensures (8 * m + b) % 8 == b && (8 * m + b) / 8 == m
  {}

  lemma Split16(m: nat, b: nat)
    requires b < 16
    ensures (16 * m + b) % 16 == b && (16 * m + b) / 16 == m
  {}

  lemma {:induction false} HasZero(i: nat)
    ensures !Has(0, i)
  {
    if i > 0 {
      HasZero(i - 1);
    }
  }

  lemma {:induction false} HasOr(a: nat, b: nat, i: nat)
    ensures Has(Or(a, b), i) <==> Has(a, i) || Has(b, i)
    decreases i
  {
    HasZero(i);
    if a != 0 && b != 0 {
      Split2(Or(a / 2, b / 2), if a % 2 == 1 || b % 2 == 1 then 1 else 0);
    }
    if i > 0 {
      HasOr(a / 2, b / 2, i - 1);
    }
  }

  lemma {:induction false} HasAndNot(a: nat, b: nat, i: nat)
    ensures Has(AndNot(a, b), i) <==> Has(a, i) && !Has(b, i)
    decreases i
  {
    HasZero(i);
    if a != 0 {
      Split2(AndNot(a / 2, b / 2), if a % 2 == 1 && b % 2 == 0 then 1 else 0);
    }
    if i > 0 {
      HasAndNot(a / 2, b / 2, i - 1);
    }
  }

  lemma {:induction false} HasMask(k: nat, i: nat)
    ensures Has(Mask(k), i) <==> i == k
    decreases k
  {
    if k == 0 {
      if i > 0 {
        HasZero(i - 1);
      }
    } else if i > 0 {
      HasMask(k - 1, i - 1);
    }
  }

  lemma {:induction false} OrBelow(a: nat, b: nat, k: nat)
    requires a < Mask(k) && b < Mask(k)
    ensures Or(a, b) < Mask(k)
    decreases k
  {
    if k > 0 {
      OrBelow(a / 2, b / 2, k - 1);
    }
  }

  lemma {:induction false} AndNotBelow(a: nat, b: nat)
    ensures AndNot(a, b) <= a
  {
    if a > 0 {
      AndNotBelow(a / 2, b / 2);
    }
  }

  lemma {:induction false} MaskMonotone(i: nat, k: nat)
    requires i < k
    ensures 0 < Mask(i) < Mask(k)
    decreases k
  {
    if i > 0 {
      MaskMonotone(i - 1, k - 1);
    } else if k > 1 {
      MaskMonotone(0, k - 1);
    }
  }

  /** Row r, column c of __lowest_bit_bitmap: all rows agree but for their first entry. */
  const ROW: seq<nat> := [0, 0, 1, 0, 2, 0, 1, 0, 3, 0, 1, 0, 2, 0, 1, 0]
  const FIRST: seq<nat> := [0, 4, 5, 4, 6, 4, 5, 4, 7, 4, 5, 4, 6, 4, 5, 4]

  function LowestBit(b: nat): (k: nat)
    requires b < 256
    ensures k < 8
  {
    if b % 16 == 0 then FIRST[b / 16] else ROW[b % 16]
  }

  /** __rt_ffs */
  function Ffs(v: nat): nat {
    if v == 0 then 0
    else if v % 0x100 != 0 then LowestBit(v % 0x100) + 1
    else if v / 0x100 % 0x100 != 0 then LowestBit(v / 0x100 % 0x100) + 9
    else if v / 0x1_0000 % 0x100 != 0 then LowestBit(v / 0x1_0000 % 0x100) + 17
    else LowestBit(v / 0x100_0000 % 0x100) + 25
  }

  /** k is the lowest set bit of w. */
  ghost predicate Lowest(w: nat, k: nat) {
    Has(w, k) && forall i | 0 <= i < k :: !Has(w, i)
  }

  /** m << k */
  function Shift(m: nat, k: nat): nat {
    if k == 0 then m else 2 * Shift(m, k - 1)
  }

  lemma {:induction false} LowestShift(w: nat, n: nat, k: nat)
    requires Lowest(w, n)
    ensures Lowest(Shift(w, k), n + k)
  {
    if k > 0 {
      LowestShift(w, n, k - 1);
      var u := Shift(w, k - 1);
      assert 2 * u / 2 == u;
      forall i | 0 <= i < n + k ensures !Has(2 * u, i) {
        assert i > 0 ==> !Has(u, i - 1);
      }
    }
  }

  lemma ShiftUpTo8(m: nat)
    ensures Shift(m, 0) == m && Shift(m, 1) == 2 * m && Shift(m, 2) == 4 * m && Shift(m, 3) == 8 * m
            && Shift(m, 4) == 16 * m
    ensures Shift(m, 5) == 32 * m && Shift(m, 6) == 64 * m && Shift(m, 7) == 128 * m && Shift(m, 8) == 256 * m
  {
    assert Shift(m, 1) == 2 * Shift(m, 0) && Shift(m, 2) == 2 * Shift(m, 1);
    assert Shift(m, 3) == 2 * Shift(m, 2) && Shift(m, 4) == 2 * Shift(m, 3);
    assert Shift(m, 5) == 2 * Shift(m, 4) && Shift(m, 6) == 2 * Shift(m, 5);
    assert Shift(m, 7) == 2 * Shift(m, 6) && Shift(m, 8) == 2 * Shift(m, 7);
  }

  /** An odd multiple of 2^k has k as its lowest bit. */
  lemma LowestOfOdd(m: nat, k: nat)
    requires m % 2 == 1
    ensures Lowest(Shift(m, k), k)
  {
    LowestShift(m, 0, k);
  }

  lemma TableRow(c: nat)
    requires 0 < c < 16
    ensures ROW[c] == if c % 2 == 1 then 0 else if c % 4 == 2 then 1 else if c % 8 == 4 then 2 else 3
  {}

  lemma TableFirst(r: nat)
    requires 0 < r < 16
    ensures FIRST[r] == ROW[r] + 4
  {}

  lemma OddParts(v: nat)
    ensures v % 4 == 2 ==> v / 2 % 2 == 1 && v == 2 * (v / 2)
    ensures v % 8 == 4 ==> v / 4 % 2 == 1 && v == 4 * (v / 4)
    ensures v % 16 == 8 ==> v / 8 % 2 == 1 && v == 8 * (v / 8)
  {
    Split4(v / 4, v % 4);
    Split2(v / 4, 1);
    Split2(v / 8, 1);
    Split2(v / 16, 1);
  }

  lemma LowestBelow4(v: nat)
    ensures v % 2 == 1 ==> Lowest(v, 0)
    ensures v % 4 == 2 ==> Lowest(v, 1)
    ensures v % 8 == 4 ==> Lowest(v, 2)
    ensures v % 16 == 8 ==> Lowest(v, 3)
  {
    OddParts(v);
    if v % 2 == 1 {
      LowestOfOdd(v, 0);
    } else if v % 4 == 2 {
      ShiftUpTo8(v / 2);
      LowestOfOdd(v / 2, 1);
    } else if v % 8 == 4 {
      ShiftUpTo8(v / 4);
      LowestOfOdd(v / 4, 2);
    } else if v % 16 == 8 {
      ShiftUpTo8(v / 8);
      LowestOfOdd(v / 8, 3);
    }
  }

  lemma NextNibble(v: nat, k: nat)
    requires v % 16 == 0 && Lowest(v / 16, k)
    ensures Lowest(v, k + 4)
  {
    ShiftUpTo8(v / 16);
    LowestShift(v / 16, k, 4);
  }

  lemma Residues(u: nat)
    ensures u % 2 == u % 16 % 2 && u % 4 == u % 16 % 4 && u % 8 == u % 16 % 8
  {
    var q, r := u / 16, u % 16;
    assert u == 16 * q + r;
    Split2(8 * q + r / 2, r % 2);
    Split4(4 * q + r / 4, r % 4);
    Split8(2 * q + r / 8, r % 8);
  }

  lemma LowestInNibble(u: nat)
    requires u % 16 != 0
    ensures Lowest(u, ROW[u % 16])
  {
    Residues(u);
    TableRow(u % 16);
    LowestBelow4(u);
  }

  lemma Nibbles(v: nat)
    ensures v % 0x100 % 16 == v % 16 && v % 0x100 / 16 == v / 16 % 16
  {
    var q, r := v / 256, v % 256;
    var a, b := r / 16, r % 16;
    assert v == 16 * (16 * q + a) + b;
    Split16(16 * q + a, b);
    Split16(q, a);
  }

  /** The table gives the lowest bit of the low byte. */
  lemma LowestInByte(v: nat)
    requires v % 0x100 != 0
    ensures Lowest(v, LowestBit(v % 0x100))
  {
    Nibbles(v);
    if v % 16 != 0 {
      LowestInNibble(v);
    } else {
      TableFirst(v / 16 % 16);
      LowestInNibble(v / 16);
      NextNibble(v, ROW[v / 16 % 16]);
    }
  }

  lemma NextByte(v: nat, k: nat)
    requires v % 0x100 == 0 && Lowest(v / 0x100, k)
    ensures Lowest(v, k + 8)
  {
    ShiftUpTo8(v / 0x100);
    LowestShift(v / 0x100, k, 8);
  }

  /** __rt_ffs numbers the lowest set bit from 1, and gives 0 for 0 only. */
  lemma FfsIsLowest(v: nat)
    requires v < U32
    ensures v == 0 <==> Ffs(v) == 0
    ensures v != 0 ==> Ffs(v) <= 32 && Lowest(v, Ffs(v) - 1)
  {
    var v1, v2, v3 := v / 0x100, v / 0x1_0000, v / 0x100_0000;
    assert v1 / 0x100 == v2 && v2 / 0x100 == v3;
    if v != 0 {
      if v % 0x100 != 0 {
        LowestInByte(v);
      } else if v1 % 0x100 != 0 {
        LowestInByte(v1);
        NextByte(v, LowestBit(v1 % 0x100));
      } else if v2 % 0x100 != 0 {
        LowestInByte(v2);
        NextByte(v1, LowestBit(v2 % 0x100));
        NextByte(v, LowestBit(v2 % 0x100) + 8);
      } else {
        LowestInByte(v3);
        NextByte(v2, LowestBit(v3 % 0x100));
        NextByte(v1, LowestBit(v3 % 0x100) + 8);
        NextByte(v, LowestBit(v3 % 0x100) + 16);
      }
    }
  }
}
