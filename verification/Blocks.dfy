/** What several modules share, and small facts about sequences, kept apart so that each is
    proved once in a small context. */
module Basics {

  datatype Option<T> = None | Some(value: T)

  predicate Distinct(s: seq<nat>) {
    forall i, j :: 0 <= i < j < |s| ==> s[i] != s[j]
  }

  lemma TakeNext<T>(s: seq<T>, k: nat)
    requires k < |s|
    ensures s[..k + 1] == s[..k] + [s[k]]
  {
  }

  lemma FourParts<T>(s: seq<T>, a: seq<T>, b: seq<T>, c: seq<T>, d: seq<T>)
    ensures (((s + a) + b) + c) + d == s + (a + b + c + d)
  {
  }

  lemma TakeAll<T>(s: seq<T>)
    ensures s[..|s|] == s
  {
  }
}

/** Disk blocks as the kernel sees them: 1024 bytes that are read as raw data, as
    little-endian 32-bit words (log header, indirect blocks, inodes) or as bits (the
    free map).  Shared by the log, the buffer cache and the file system. */
module Blocks {

  const BSIZE := 1024
  const WORDS := 256            // BSIZE / sizeof(uint)
  const UINT_MAX := 0xFFFF_FFFF

  type byte = x: int | 0 <= x < 256
  type uint = x: int | 0 <= x <= UINT_MAX

  datatype Bytes = Bytes(at: seq<byte>)

  type Block = b: Bytes | |b.at| == BSIZE ghost witness Bytes(seq(BSIZE, _ => 0))

  function ZeroBlock(): (b: Block)
    ensures forall i :: 0 <= i < BSIZE ==> b.at[i] == 0
  {
    Bytes(seq(BSIZE, _ => 0))
  }

  // ---------- 32-bit words ----------

  function Word(b: Block, i: nat): (w: uint)
    requires i < WORDS
  {
    var b0: int, b1: int, b2: int, b3: int := b.at[4 * i], b.at[4 * i + 1], b.at[4 * i + 2], b.at[4 * i + 3];
    b0 + 256 * b1 + 65536 * b2 + 16777216 * b3
  }

  function PutWord(b: Block, i: nat, w: uint): (r: Block)
    requires i < WORDS
  {
    Bytes(b.at[4 * i := w % 256][4 * i + 1 := w / 256 % 256][4 * i + 2 := w / 65536 % 256][4 * i + 3 := w / 16777216])
  }

  /** Storing a word changes that word and no other. */
  lemma WordOfPut(b: Block, i: nat, w: uint, j: nat)
    requires i < WORDS && j < WORDS
    ensures Word(PutWord(b, i, w), j) == if i == j then w else Word(b, j)
  {
    var r, b := PutWord(b, i, w).at, b.at;
    if i == j {
      Digits(w);
    } else {
      assert r[4 * j] == b[4 * j] && r[4 * j + 1] == b[4 * j + 1];
      assert r[4 * j + 2] == b[4 * j + 2] && r[4 * j + 3] == b[4 * j + 3];
    }
  }

  lemma Digits(w: uint)
    ensures w == w % 256 + 256 * (w / 256 % 256) + 65536 * (w / 65536 % 256) + 16777216 * (w / 16777216)
  {
    assert w / 256 == w / 65536 * 256 + w / 256 % 256;
    assert w / 65536 == w / 16777216 * 256 + w / 65536 % 256;
  }

  lemma ZeroWord(i: nat)
    requires i < WORDS
    ensures Word(ZeroBlock(), i) == 0
  {
  }

  // ---------- Bits ----------

  /** (v & (1 << k)) != 0 */
  predicate Bit(v: nat, k: nat) {
    if k == 0 then v % 2 == 1 else Bit(v / 2, k - 1)
  }

  /** v | (1 << k), bit by bit */
  function SetBit(v: nat, k: nat): (r: nat)
    ensures v <= r
  {
    if k == 0 then v - v % 2 + 1 else 2 * SetBit(v / 2, k - 1) + v % 2
  }

  /** v & ~(1 << k), bit by bit */
  function ClearBit(v: nat, k: nat): (r: nat)
    ensures r <= v
  {
    if k == 0 then v - v % 2 else 2 * ClearBit(v / 2, k - 1) + v % 2
  }

  function Two(n: nat): nat {
    if n == 0 then 1 else 2 * Two(n - 1)
  }

  lemma {:induction false} SetBitFits(v: nat, k: nat, n: nat)
    requires k < n && v < Two(n)
    ensures SetBit(v, k) < Two(n)
  {
    var half := Two(n - 1);
    if k == 0 {
      assert v / 2 < half;
    } else {
      SetBitFits(v / 2, k - 1, n - 1);
      hide Two; hide SetBit;
    }
  }

  lemma {:induction false} BitOfSet(v: nat, k: nat, j: nat)
    ensures Bit(SetBit(v, k), j) == (j == k || Bit(v, j))
  {
    var r := SetBit(v, k);
    if k == 0 {
      assert r % 2 == 1 && r / 2 == v / 2;
    } else {
      assert r % 2 == v % 2 && r / 2 == SetBit(v / 2, k - 1);
      if j > 0 {
        BitOfSet(v / 2, k - 1, j - 1);
      }
    }
  }

  lemma {:induction false} BitOfClear(v: nat, k: nat, j: nat)
    ensures Bit(ClearBit(v, k), j) == (j != k && Bit(v, j))
  {
    var r := ClearBit(v, k);
    if k == 0 {
      assert r % 2 == 0 && r / 2 == v / 2;
    } else {
      assert r % 2 == v % 2 && r / 2 == ClearBit(v / 2, k - 1);
      if j > 0 {
        BitOfClear(v / 2, k - 1, j - 1);
      }
    }
  }

  /** Bit i of a block: bit i % 8 of byte i / 8. */
  predicate BlockBit(b: Block, i: nat)
    requires i < 8 * BSIZE
  {
    Bit(b.at[i / 8], i % 8)
  }

  function SetBlockBit(b: Block, i: nat): (r: Block)
    requires i < 8 * BSIZE
  {
    assert Two(8) == 256;
    SetBitFits(b.at[i / 8], i % 8, 8);
    Bytes(b.at[i / 8 := SetBit(b.at[i / 8], i % 8)])
  }

  function ClearBlockBit(b: Block, i: nat): (r: Block)
    requires i < 8 * BSIZE
  {
    Bytes(b.at[i / 8 := ClearBit(b.at[i / 8], i % 8)])
  }

  /** Setting or clearing a bit of a block changes that bit and no other. */
  lemma BlockBitOfSet(b: Block, i: nat, j: nat)
    requires i < 8 * BSIZE && j < 8 * BSIZE
    ensures BlockBit(SetBlockBit(b, i), j) == (j == i || BlockBit(b, j))
    ensures BlockBit(ClearBlockBit(b, i), j) == (j != i && BlockBit(b, j))
  {
    BitOfSet(b.at[i / 8], i % 8, j % 8);
    BitOfClear(b.at[i / 8], i % 8, j % 8);
  }
}
