/** How many free blocks a write takes (balloc and bmap in kernel/fs.c). */
module BlockCost {
  import opened DiskFormat
  import opened FileBlocks

  ghost function FreeSet(used: set<nat>, size: nat): set<nat> {
    set b: nat | b < size && b !in used
  }

  /** Marking a free block leaves one less. */
  lemma OneTaken(used: set<nat>, size: nat, b: nat)
    requires b < size && b !in used
    ensures |FreeSet(used, size)| == |FreeSet(used + {b}, size)| + 1
  {
    assert FreeSet(used, size) == FreeSet(used + {b}, size) + {b};
  }

  /** What bmap allocates for block bn: the block and, before it, the indirect block. */
  ghost function Cost(g: Geometry, ip: Inode, blocks: seq<Block>, bn: nat): nat
    requires GoodBlocks(g, blocks) && GoodInode(g, ip)
  {
    if Mapped(g, ip, blocks, bn) then 0 else if bn >= NDIRECT && ip.addrs[INDIRECT] == 0 then 2 else 1
  }

  /** Only blocks from..to were mapped since. */
  ghost predicate OnlyMaps(g: Geometry, ip0: Inode, b0: seq<Block>, ip: Inode, b: seq<Block>, from: nat, to: nat)
    requires GoodBlocks(g, b0) && GoodInode(g, ip0) && GoodBlocks(g, b) && GoodInode(g, ip)
  {
    forall bn: nat {:trigger Mapped(g, ip, b, bn)} ::
      Mapped(g, ip, b, bn) && !(from <= bn < to) ==> Mapped(g, ip0, b0, bn)
  }

  /** bmap for block bn took what it costs, or there was not enough. */
  ghost predicate Charged(g: Geometry, ip0: Inode, b0: seq<Block>, ip: Inode, b: seq<Block>, bn: nat, addr: nat,
      free0: nat, free: nat)
    requires GoodBlocks(g, b0) && GoodInode(g, ip0) && GoodBlocks(g, b) && GoodInode(g, ip)
  {
    if addr == 0 then free0 < Cost(g, ip0, b0, bn)
    else
      && free0 == free + Cost(g, ip0, b0, bn) && OnlyMaps(g, ip0, b0, ip, b, bn, bn + 1)
      && (ip.addrs[INDIRECT] == 0 <==> ip0.addrs[INDIRECT] == 0 && bn < NDIRECT)
  }

  /** A fresh block in slot s of inode i maps no other block. */
  lemma SlotMaps(g: Geometry, inodes: seq<Inode>, blocks: seq<Block>, owner: Owner, i: nat, s: nat, a: nat)
    requires Matched(g, inodes, blocks, owner, 0, 0) && i < |inodes| && s <= INDIRECT && inodes[i].addrs[s] == 0
    requires g.first <= a < g.size && a !in owner
    ensures var ip, b := inodes[i].(addrs := inodes[i].addrs[s := a]), blocks[a := ZERO];
            && GoodBlocks(g, b) && GoodInode(g, ip)
            && OnlyMaps(g, inodes[i], blocks, ip, b, if s < NDIRECT then s else MAXFILE, s + 1)
  {
    var ip, b := inodes[i].(addrs := inodes[i].addrs[s := a]), blocks[a := ZERO];
    if inodes[i].addrs[INDIRECT] != 0 { IndirectIsOwned(g, inodes, blocks, owner, 0, 0, i); }
    forall j: nat | j < NINDIRECT ensures Word(ZERO, j) == 0 { ZeroWords(j); }
    forall bn: nat | Mapped(g, ip, b, bn) && (bn != s || s == INDIRECT) ensures Mapped(g, inodes[i], blocks, bn) {
      if bn >= NDIRECT && s < INDIRECT { SameSlots(g, inodes[i], blocks, b, SlotOf(bn)); }
    }
  }

  /** A fresh block in word j of the indirect block maps no other block. */
  lemma WordMaps(g: Geometry, inodes: seq<Inode>, blocks: seq<Block>, owner: Owner, i: nat, j: nat, w: nat)
    requires Matched(g, inodes, blocks, owner, 0, 0) && i < |inodes| && j < NINDIRECT && inodes[i].addrs[INDIRECT] != 0
    requires g.first <= w < g.size && w !in owner
    ensures var a := inodes[i].addrs[INDIRECT];
            var b := blocks[w := ZERO][a := PutWord(blocks[w := ZERO][a], j, w)];
            GoodBlocks(g, b) && OnlyMaps(g, inodes[i], blocks, inodes[i], b, NDIRECT + j, NDIRECT + j + 1)
  {
    var a := inodes[i].addrs[INDIRECT];
    IndirectIsOwned(g, inodes, blocks, owner, 0, 0, i);
    var b := blocks[w := ZERO][a := PutWord(blocks[a], j, w)];
    assert blocks[w := ZERO][a] == blocks[a];
    forall bn: nat | Mapped(g, inodes[i], b, bn) && bn != NDIRECT + j ensures Mapped(g, inodes[i], blocks, bn) {
      if bn >= NDIRECT { PutThenGet(blocks[a], j, w, bn - NDIRECT); }
    }
  }

  // ----- a write -----

  ghost function Unmapped(g: Geometry, ip: Inode, blocks: seq<Block>, from: nat, to: nat): nat
    requires GoodBlocks(g, blocks) && GoodInode(g, ip)
  {
    if from >= to then 0
    else Unmapped(g, ip, blocks, from, to - 1) + (if Mapped(g, ip, blocks, to - 1) then 0 else 1)
  }

  /** The free blocks that a write over blocks from..to of the file takes: one for each that
      is not there, and the indirect block if that is not there but needed. */
  ghost function Need(g: Geometry, ip: Inode, blocks: seq<Block>, from: nat, to: nat): nat
    requires GoodBlocks(g, blocks) && GoodInode(g, ip)
  {
    Unmapped(g, ip, blocks, from, to) + (if from < to && NDIRECT < to && ip.addrs[INDIRECT] == 0 then 1 else 0)
  }

  lemma {:induction false} NeedGrows(g: Geometry, ip: Inode, blocks: seq<Block>, from: nat, to: nat, to': nat)
    requires GoodBlocks(g, blocks) && GoodInode(g, ip) && to <= to'
    ensures Need(g, ip, blocks, from, to) <= Need(g, ip, blocks, from, to')
  {
    if to < to' && from < to' { NeedGrows(g, ip, blocks, from, to, to' - 1); }
  }

  /** A write inside the file takes none. */
  lemma {:induction false} NeedsNone(g: Geometry, ip: Inode, blocks: seq<Block>, from: nat, to: nat)
    requires GoodBlocks(g, blocks) && GoodInode(g, ip)
    requires NoHoles(g, ip, blocks) && (to == 0 || StartOf(to - 1) < ip.size)
    ensures Need(g, ip, blocks, from, to) == 0
  {
    if from < to {
      NeedsNone(g, ip, blocks, from, to - 1);
      assert Mapped(g, ip, blocks, to - 1);
    }
  }

  /** A write from state (ip0, b0) has been through blocks from..to. */
  ghost predicate Spent(g: Geometry, ip0: Inode, b0: seq<Block>, ip: Inode, b: seq<Block>, from: nat, to: nat,
      free0: nat, free: nat)
    requires GoodBlocks(g, b0) && GoodInode(g, ip0) && GoodBlocks(g, b) && GoodInode(g, ip)
  {
    && free0 == free + Need(g, ip0, b0, from, to) && OnlyMaps(g, ip0, b0, ip, b, from, to)
    && (ip.addrs[INDIRECT] == 0 <==> ip0.addrs[INDIRECT] == 0 && (from >= to || to <= NDIRECT))
  }

  /** One more block. */
  lemma SpendMore(g: Geometry, ip0: Inode, b0: seq<Block>, ip1: Inode, b1: seq<Block>, ip: Inode, b: seq<Block>,
      from: nat, to: nat, addr: nat, free0: nat, free1: nat, free: nat)
    requires GoodBlocks(g, b0) && GoodInode(g, ip0) && GoodBlocks(g, b1) && GoodInode(g, ip1)
    requires GoodBlocks(g, b) && GoodInode(g, ip) && from <= to
    requires Spent(g, ip0, b0, ip1, b1, from, to, free0, free1) && Charged(g, ip1, b1, ip, b, to, addr, free1, free)
    requires Mapped(g, ip0, b0, to) ==> Mapped(g, ip1, b1, to)
    ensures if addr == 0 then free0 < Need(g, ip0, b0, from, to + 1)
            else Spent(g, ip0, b0, ip, b, from, to + 1, free0, free)
  {
    assert Mapped(g, ip1, b1, to) ==> Mapped(g, ip0, b0, to);
    assert Need(g, ip0, b0, from, to + 1) == Need(g, ip0, b0, from, to) + Cost(g, ip1, b1, to);
  }

  /** Writing a data block takes none. */
  lemma SpentStays(g: Geometry, ip0: Inode, b0: seq<Block>, ip: Inode, b1: seq<Block>, b: seq<Block>, from: nat,
      to: nat, free0: nat, free: nat)
    requires GoodBlocks(g, b0) && GoodInode(g, ip0) && GoodBlocks(g, b1) && GoodBlocks(g, b) && GoodInode(g, ip)
    requires Spent(g, ip0, b0, ip, b1, from, to, free0, free) && OnlyMaps(g, ip, b1, ip, b, 0, 0)
    ensures Spent(g, ip0, b0, ip, b, from, to, free0, free)
  {
    forall bn: nat | Mapped(g, ip, b, bn) && !(from <= bn < to) ensures Mapped(g, ip0, b0, bn) {
      assert Mapped(g, ip, b1, bn);
    }
  }
}
