/** Size classes and the slot bitmap (memory/ummalloc_data.h).  64-bit words are numbers
    below 2^64, and their operations are defined bit by bit. */
module SlotIndex {
  import opened Blocks

  const WORD := 0x1_0000_0000_0000_0000

  lemma WordIs()
    ensures Two(64) == WORD
  {
    assert Two(8) == 256;
    Doubles(8, 8);
    Doubles(16, 16);
    Doubles(32, 32);
  }

  lemma {:induction false} Doubles(a: nat, b: nat)
    ensures Two(a + b) == Two(a) * Two(b)
  {
    if a > 0 {
      Doubles(a - 1, b);
    }
  }

  lemma {:induction false} TwoOrder(a: nat, b: nat)
    ensures 0 < Two(a) && 0 < Two(b) && (a < b <==> Two(a) < Two(b))
  {
    if a > 0 && b > 0 {
      TwoOrder(a - 1, b - 1);
    } else if a > 0 {
      TwoOrder(a - 1, b);
    } else if b > 0 {
      TwoOrder(a, b - 1);
    }
  }

  // ---------- log2 ----------

  /** x >> k */
  function Shr(x: nat, k: nat): nat {
    if k == 0 then x else Shr(x / 2, k - 1)
  }

  /** How many binary digits y has. */
  function BitLength(y: nat): nat {
    if y == 0 then 0 else 1 + BitLength(y / 2)
  }

  lemma {:induction false} BitLengthBounds(y: nat)
    ensures y < Two(BitLength(y)) && (y > 0 ==> Two(BitLength(y) - 1) <= y)
  {
    if y > 1 {
      BitLengthBounds(y / 2);
    }
  }

  lemma {:induction false} BitLengthShift(y: nat, k: nat)
    ensures BitLength(Shr(y, k)) == if BitLength(y) < k then 0 else BitLength(y) - k
  {
    if k > 0 {
      BitLengthShift(y / 2, k - 1);
    }
  }

  lemma BitLengthWord(y: nat)
    requires y < WORD
    ensures BitLength(y) <= 64
  {
    WordIs();
    BitLengthBounds(y);
    if y > 0 {
      TwoOrder(BitLength(y) - 1, 64);
    }
  }

  /** (x >> k != 0) << log2(k) */
  function Halve(x: nat, k: nat): (p: nat) {
    if Shr(x, k) != 0 then k else 0
  }

  function Log2Ceil(x: nat): (r: int)
    requires x < WORD
  {
    var x0 := (x + WORD - 1) % WORD;
    var p5 := Halve(x0, 32);
    var x1 := Shr(x0, p5);
    var p4 := Halve(x1, 16);
    var x2 := Shr(x1, p4);
    var p3 := Halve(x2, 8);
    var x3 := Shr(x2, p3);
    var p2 := Halve(x3, 4);
    var x4 := Shr(x3, p2);
    var p1 := Halve(x4, 2);
    var x5 := Shr(x4, p1);
    p5 + p4 + p3 + p2 + p1 + x5 + (if x5 < 3 then 1 else 0) - 1
  }

  lemma HalveStep(x: nat, k: nat)
    requires BitLength(x) <= 2 * k
    ensures var p := Halve(x, k); BitLength(Shr(x, p)) <= k && BitLength(x) == p + BitLength(Shr(x, p))
  {
    BitLengthShift(x, k);
    BitLengthBounds(Shr(x, k));
  }

  lemma TwoDigits(x: nat)
    requires BitLength(x) <= 2
    ensures x < 4 && BitLength(x) == x + (if x < 3 then 1 else 0) - 1
  {
    BitLengthBounds(x);
    assert x / 2 / 2 == 0;
  }

  /** log2_ceil64 is the bit length of x - 1, and of 2^64 - 1 for x = 0. */
  lemma Log2CeilIs(x: nat)
    requires x < WORD
    ensures Log2Ceil(x) == BitLength((x + WORD - 1) % WORD)
  {
    hide Halve; hide Shr; hide BitLength;
    var x0 := (x + WORD - 1) % WORD;
    BitLengthWord(x0);
    HalveStep(x0, 32);
    var x1 := Shr(x0, Halve(x0, 32));
    HalveStep(x1, 16);
    var x2 := Shr(x1, Halve(x1, 16));
    HalveStep(x2, 8);
    var x3 := Shr(x2, Halve(x2, 8));
    HalveStep(x3, 4);
    var x4 := Shr(x3, Halve(x3, 4));
    HalveStep(x4, 2);
    TwoDigits(Shr(x4, Halve(x4, 2)));
  }

  /** log2_floor64 */
  function Log2Floor(x: nat): (r: int)
    requires x < WORD
  {
    Log2Ceil((x + 1) % WORD) - 1
  }

  /** It is the position of the highest set bit. */
  lemma {:induction false} NoBitAbove(x: nat, j: nat)
    requires BitLength(x) <= j
    ensures !Bit(x, j)
  {
    if j > 0 {
      NoBitAbove(x / 2, j - 1);
    }
  }

  lemma Log2FloorIs(x: nat)
    requires 0 < x < WORD
    ensures 0 <= Log2Floor(x) < 64 && Log2Floor(x) == BitLength(x) - 1 && Bit(x, Log2Floor(x))
  {
    hide Log2Ceil; hide BitLength; hide Bit;
    Log2CeilIs((x + 1) % WORD);
    BitLengthWord(x);
    TopBit(x);
  }

  lemma {:induction false} TopBit(x: nat)
    requires x > 0
    ensures BitLength(x) > 0 && Bit(x, BitLength(x) - 1)
  {
    if x > 1 {
      TopBit(x / 2);
    }
  }

  // ---------- The lowest free slot ----------

  /** a & b */
  function And(a: nat, b: nat): nat {
    if a == 0 then 0 else a % 2 * (b % 2) + 2 * And(a / 2, b / 2)
  }

  /** m & (-1 << k) */
  function From(m: nat, k: nat): (r: nat) {
    if k == 0 then m else 2 * From(m / 2, k - 1)
  }

  /** next_free: the lowest set bit above i, alone.  A shift by 64 is undefined in C. */
  function NextFree(m: nat, i: nat): nat
    requires m < WORD && i < 63
  {
    var mask := From(m, i + 1);
    And(mask, (WORD - mask) % WORD)
  }

  lemma {:induction false} BitOfFrom(m: nat, k: nat, j: nat)
    ensures Bit(From(m, k), j) <==> j >= k && Bit(m, j)
    ensures From(m, k) <= m
  {
    if k > 0 {
      if j > 0 {
        BitOfFrom(m / 2, k - 1, j - 1);
      } else {
        BitOfFrom(m / 2, k - 1, 0);
      }
    }
  }

  /** The number of trailing zeros. */
  function Zeros(m: nat): nat
    requires m > 0
  {
    if m % 2 == 1 then 0 else 1 + Zeros(m / 2)
  }

  lemma {:induction false} ZerosBit(m: nat, j: nat)
    requires m > 0
    ensures Bit(m, Zeros(m)) && (j < Zeros(m) ==> !Bit(m, j)) && Two(Zeros(m)) <= m
  {
    if m % 2 == 0 {
      ZerosBit(m / 2, if j > 0 then j - 1 else 0);
    }
  }

  lemma {:induction false} ZeroBits(m: nat, j: nat)
    requires m == 0
    ensures !Bit(m, j)
  {
    if j > 0 {
      ZeroBits(m / 2, j - 1);
    }
  }

  lemma {:induction false} AndComplement(k: nat, n: nat)
    requires k < Two(n)
    ensures And(k, Two(n) - 1 - k) == 0
  {
    if k > 0 {
      AndComplement(k / 2, n - 1);
    }
  }

  /** m & -m */
  lemma {:induction false} LowestBit(m: nat, n: nat)
    requires 0 < m < Two(n)
    ensures And(m, Two(n) - m) == Two(Zeros(m))
  {
    if m % 2 == 0 {
      LowestBit(m / 2, n - 1);
    } else {
      AndComplement(m / 2, n - 1);
      assert (Two(n) - m) / 2 == Two(n - 1) - 1 - m / 2;
    }
  }

  lemma {:induction false} BitLengthOnes(p: nat)
    ensures Two(p) > 0 && BitLength(Two(p) - 1) == p
  {
    if p > 0 {
      BitLengthOnes(p - 1);
      assert (Two(p) - 1) / 2 == Two(p - 1) - 1;
    }
  }

  /** next_free finds the lowest nonempty slot above i, and log2_ceil64 its number. */
  lemma NextFreeIs(m: nat, i: nat, j: nat)
    requires m < WORD && i < 63
    ensures NextFree(m, i) < WORD
    ensures NextFree(m, i) == 0 ==> (i < j < 64 ==> !Bit(m, j))
    ensures NextFree(m, i) != 0 ==>
              var p := Log2Ceil(NextFree(m, i)); i < p < 64 && Bit(m, p) && (i < j < p ==> !Bit(m, j))
  {
    WordIs();
    hide Log2Ceil; hide BitLength; hide Bit; hide Two; hide And; hide From; hide Zeros;
    var mask := From(m, i + 1);
    BitOfFrom(m, i + 1, j);
    if mask == 0 {
      ZeroBits(mask, j);
      assert And(0, 0) == 0 by { AndZero(0); }
    } else {
      LowestBit(mask, 64);
      ZerosBit(mask, j);
      var p := Zeros(mask);
      BitOfFrom(m, i + 1, p);
      BelowWord(p);
      Log2CeilIs(Two(p));
      BitLengthOnes(p);
    }
  }

  lemma AndZero(b: nat)
    ensures And(0, b) == 0
  {
  }

  lemma BelowWord(p: nat)
    requires Two(p) < WORD
    ensures p < 64 && 0 < Two(p)
  {
    WordIs();
    TwoOrder(p, 64);
  }

  // ---------- Size classes ----------

  /** get_index, for sizes above 32. */
  function Index(size: nat): (i: nat)
    requires size > 32
  {
    if size <= 512 then (size - 1) / 16
    else if size > 4096 then (if size < 6144 then 48 else (size - 1) / 4096 + 48)
    else if size <= 640 then (size + 1535) / 64
    else 34 + (size - 513) / 256
  }

  /** Larger chunks are in no lower slots, and chunks up to 64 KiB have one of the 64. */
  lemma IndexMonotone(a: nat, b: nat)
    requires 32 < a <= b
    ensures Index(a) <= Index(b) && 2 <= Index(a) && (a <= 65536 <==> Index(a) < 64)
  {
  }

  /** A chunk in a higher slot than the request's is larger than the request. */
  lemma HigherFits(need: nat, size: nat)
    requires need > 32 && size > 32 && Index(need) < Index(size)
    ensures need < size
  {
    if size <= need {
      IndexMonotone(size, need);
    }
  }
}
