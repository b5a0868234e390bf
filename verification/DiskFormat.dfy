/** How kernel/fs.c lays out its bitmap and its indirect blocks in bytes. */
module DiskFormat {

  const BSIZE := 1024
  const BPB := 8192            // bitmap bits per block
  const NDIRECT := 12
  const NINDIRECT := 256
  const MAXFILE := 268         // blocks
  const MAXBYTES := 274432     // MAXFILE blocks, in bytes
  const BATCH := 3072          // three blocks, in bytes
  const U32 := 0x1_0000_0000

  type byte = b: int | 0 <= b < 256

  /** Byte e of a file is byte ByteIn(e) of its block BlockOf(e); block bn starts at byte
      StartOf(bn). Blocks have BSIZE bytes. */
  function BlockOf(e: nat): nat { e / 1024 }

  function ByteIn(e: nat): nat { e % 1024 }

  function StartOf(bn: nat): nat { bn * 1024 }

  lemma BlockAndByte(e: nat, bn: nat)
    ensures e == StartOf(BlockOf(e)) + ByteIn(e) && ByteIn(e) < BSIZE
    ensures bn == BlockOf(e) <==> StartOf(bn) <= e < StartOf(bn) + BSIZE
  {
  }

  // ----- the free map -----

  /** The bit of block b is bit MapBit(b) of bitmap block MapBlock(b); the bits of bitmap block
      q start with that of block MapStart(q). Bitmap blocks have BPB bits. */
  function MapBlock(b: nat): nat { b / 8192 }

  function MapBit(b: nat): nat { b % 8192 }

  function MapStart(q: nat): nat { q * 8192 }

  /** 1 << k, for the bits of one byte. */
  function Mask(k: nat): bv8
    requires k < 8
  {
    if k == 0 then 1 else if k == 1 then 2 else if k == 2 then 4 else if k == 3 then 8
    else if k == 4 then 16 else if k == 5 then 32 else if k == 6 then 64 else 128
  }

  lemma MaskShifts(k: nat)
    requires 0 < k < 8
    ensures Mask(0) == 1 && Mask(k) == Mask(k - 1) << 1
  {
  }

  /** data[bi/8] & m, data[bi/8] |= m and data[bi/8] &= ~m, where m is 1 << k. */
  predicate Tested(v: bv8, k: nat)
    requires k < 8
  { v & Mask(k) != 0 }

  function Marked(v: bv8, k: nat, on: bool): bv8
    requires k < 8
  { if on then v | Mask(k) else v & !Mask(k) }

  /** Different masks have no bit in common. */
  lemma MasksApart(k: nat, j: nat)
    requires k < 8 && j < 8
    ensures if j == k then Mask(k) & Mask(j) == Mask(j) != 0 else Mask(k) & Mask(j) == 0
  {
  }

  lemma OrBit(v: bv8, m: bv8, n: bv8)
    ensures m & n == 0 ==> (v | m) & n == v & n
    ensures m & n == n && n != 0 ==> (v | m) & n != 0
  {
  }

  lemma AndNotBit(v: bv8, m: bv8, n: bv8)
    ensures m & n == 0 ==> (v & !m) & n == v & n
    ensures m & n == n ==> (v & !m) & n == 0
  {
  }

  /** Setting or clearing a bit of a byte changes that bit and no other. */
  lemma MarkedAt(v: bv8, k: nat, on: bool, j: nat)
    requires k < 8 && j < 8
    ensures Tested(Marked(v, k, on), j) == if j == k then on else Tested(v, j)
  {
    MasksApart(k, j);
    OrBit(v, Mask(k), Mask(j));
    AndNotBit(v, Mask(k), Mask(j));
  }

  /** Bit bi of a bitmap block, tested as balloc and bfree do. */
  predicate BitOf(x: seq<bv8>, bi: nat)
    requires |x| == BSIZE && bi < BPB
  {
    Tested(x[bi / 8], bi % 8)
  }

  /** The block after balloc set bit bi, or bfree cleared it. */
  function WithBit(x: seq<bv8>, bi: nat, on: bool): (y: seq<bv8>)
    requires |x| == BSIZE && bi < BPB
    ensures |y| == BSIZE
  {
    x[bi / 8 := Marked(x[bi / 8], bi % 8, on)]
  }

  lemma WithBitAt(x: seq<bv8>, bi: nat, on: bool, bj: nat)
    requires |x| == BSIZE && bi < BPB && bj < BPB
    ensures BitOf(WithBit(x, bi, on), bj) == if bj == bi then on else BitOf(x, bj)
  {
    MarkedAt(x[bi / 8], bi % 8, on, bj % 8);
  }

  /** A bitmap: its blocks, each BSIZE bytes. */
  type Bitmap = seq<seq<bv8>>

  ghost predicate GoodBitmap(m: Bitmap, size: nat) {
    MapStart(|m|) >= size && forall i :: 0 <= i < |m| ==> |m[i]| == BSIZE
  }

  lemma InMap(n: nat, size: nat, b: nat)
    requires MapStart(n) >= size && b < size
    ensures MapBlock(b) < n
  {
  }

  /** The bit of block b. */
  predicate InUse(m: Bitmap, b: nat)
    requires MapBlock(b) < |m| && |m[MapBlock(b)]| == BSIZE
  { BitOf(m[MapBlock(b)], MapBit(b)) }

  /** The bitmap marks the blocks in used, and no others. */
  ghost predicate Shows(m: Bitmap, size: nat, used: set<nat>) {
    && GoodBitmap(m, size) && (forall b {:trigger b in used} :: b in used ==> b < size)
    && forall b: nat {:trigger InUse(m, b)} :: b < size ==> MapBlock(b) < |m| && (InUse(m, b) <==> b in used)
  }

  /** The bitmap after writing the bit of block b. */
  function PutBit(m: Bitmap, b: nat, on: bool): Bitmap
    requires MapBlock(b) < |m| && |m[MapBlock(b)]| == BSIZE
  { m[MapBlock(b) := WithBit(m[MapBlock(b)], MapBit(b), on)] }

  lemma PutBitAt(m: Bitmap, b: nat, on: bool, c: nat)
    requires MapBlock(b) < |m| && |m[MapBlock(b)]| == BSIZE && MapBlock(c) < |m| && |m[MapBlock(c)]| == BSIZE
    ensures InUse(PutBit(m, b, on), c) == if c == b then on else InUse(m, c)
  {
    assert b == MapStart(MapBlock(b)) + MapBit(b) && c == MapStart(MapBlock(c)) + MapBit(c);
    WithBitAt(m[MapBlock(b)], MapBit(b), on, MapBit(c));
  }

  lemma NoBits(k: nat)
    requires k < 8
    ensures (0 as bv8) & Mask(k) == 0
  {
  }

  /** A bitmap of zeros has no bit set. */
  lemma ZeroBits(m: Bitmap, size: nat)
    requires GoodBitmap(m, size) && forall i, j :: 0 <= i < |m| && 0 <= j < BSIZE ==> m[i][j] == 0
    ensures Shows(m, size, {})
  {
    forall b: nat | b < size ensures MapBlock(b) < |m| && !InUse(m, b) {
      InMap(|m|, size, b);
      assert m[MapBlock(b)][MapBit(b) / 8] == 0;
      NoBits(MapBit(b) % 8);
    }
  }

  lemma PutBitShows(m: Bitmap, size: nat, used: set<nat>, b: nat, on: bool)
    requires Shows(m, size, used) && b < size
    ensures MapBlock(b) < |m| && |m[MapBlock(b)]| == BSIZE
    ensures Shows(PutBit(m, b, on), size, if on then used + {b} else used - {b})
  {
    InMap(|m|, size, b);
    var m' := PutBit(m, b, on);
    forall c: nat | c < size ensures MapBlock(c) < |m'| && (InUse(m', c) <==> if c == b then on else c in used) {
      InMap(|m|, size, c);
      assert InUse(m, c) <==> c in used;
      PutBitAt(m, b, on, c);
    }
  }

  lemma BitOfBlock(q: nat, bi: nat)
    requires bi < BPB
    ensures MapBlock(MapStart(q) + bi) == q && MapBit(MapStart(q) + bi) == bi && MapBlock(MapStart(q)) == q
  {
  }

  /** Setting bit bi of bitmap block q marks block MapStart(q) + bi, and no other. */
  lemma SetInBlock(m: Bitmap, size: nat, used: set<nat>, q: nat, bi: nat)
    requires Shows(m, size, used) && bi < BPB && MapStart(q) + bi < size
    ensures q < |m| && |m[q]| == BSIZE
    ensures Shows(m[q := WithBit(m[q], bi, true)], size, used + {MapStart(q) + bi})
  {
    BitOfBlock(q, bi);
    PutBitShows(m, size, used, MapStart(q) + bi, true);
  }

  lemma BitInBlock(m: Bitmap, size: nat, used: set<nat>, q: nat, bi: nat)
    requires Shows(m, size, used) && bi < BPB && MapStart(q) + bi < size
    ensures q < |m| && |m[q]| == BSIZE && (BitOf(m[q], bi) <==> MapStart(q) + bi in used)
  {
    BitOfBlock(q, bi);
    InMap(|m|, size, MapStart(q) + bi);
    assert InUse(m, MapStart(q) + bi) <==> MapStart(q) + bi in used;
  }

  // ----- the words of an indirect block -----

  type Block = seq<byte>

  const ZERO: Block := seq(BSIZE, k => 0)

  /** a[j], where a is the block seen as little-endian unsigned ints. */
  function Word(x: Block, j: nat): (w: nat)
    requires |x| == BSIZE && j < NINDIRECT
    ensures w < U32
  {
    x[4 * j] as int + 0x100 * x[4 * j + 1] as int + 0x1_0000 * x[4 * j + 2] as int + 0x100_0000 * x[4 * j + 3] as int
  }

  /** a[j] = w. */
  function PutWord(x: Block, j: nat, w: nat): (y: Block)
    requires |x| == BSIZE && j < NINDIRECT && w < U32
    ensures |y| == BSIZE
  {
    x[4 * j := w % 0x100][4 * j + 1 := w / 0x100 % 0x100][4 * j + 2 := w / 0x1_0000 % 0x100]
     [4 * j + 3 := w / 0x100_0000]
  }

  /** The four bytes of a word. */
  lemma WordBytes(w: nat)
    requires w < U32
    ensures w == w % 0x100 + 0x100 * (w / 0x100 % 0x100) + 0x1_0000 * (w / 0x1_0000 % 0x100)
        + 0x100_0000 * (w / 0x100_0000)
  {
    assert w / 0x1_0000 == w / 0x100 / 0x100 && w / 0x100_0000 == w / 0x1_0000 / 0x100;
  }

  lemma PutThenGet(x: Block, j: nat, w: nat, k: nat)
    requires |x| == BSIZE && j < NINDIRECT && k < NINDIRECT && w < U32
    ensures Word(PutWord(x, j, w), k) == if k == j then w else Word(x, k)
  {
    WordBytes(w);
    var b0, b1, b2, b3 := w % 0x100, w / 0x100 % 0x100, w / 0x1_0000 % 0x100, w / 0x100_0000;
    var y := x[4 * j := b0][4 * j + 1 := b1][4 * j + 2 := b2][4 * j + 3 := b3];
    assert PutWord(x, j, w) == y;
    assert y[4 * j] == b0 && y[4 * j + 1] == b1 && y[4 * j + 2] == b2 && y[4 * j + 3] == b3;
  }

  lemma ZeroWords(j: nat)
    requires j < NINDIRECT
    ensures Word(ZERO, j) == 0
  {
  }
}
