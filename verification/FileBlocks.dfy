/** Which block belongs to which file: the block addresses that inodes and indirect blocks
    hold, and what allocating, freeing and writing a block does to them (kernel/fs.c). */
module FileBlocks {
  import opened DiskFormat

  /** The fields of an inode that concern its contents. */
  datatype Inode = Inode(kind: nat, size: nat, addrs: seq<nat>)

  /** The first data block and the size of the file system, in blocks. */
  datatype Geometry = Geometry(first: nat, size: nat)

  /** Slots of an inode: addrs[0..12], then the words of the indirect block addrs[12]. */
  const INDIRECT := NDIRECT
  const SLOTS := NDIRECT + 1 + NINDIRECT

  ghost predicate GoodBlocks(g: Geometry, blocks: seq<Block>) {
    0 < g.first <= g.size < U32 && |blocks| == g.size && forall b :: 0 <= b < |blocks| ==> |blocks[b]| == BSIZE
  }

  ghost predicate GoodInode(g: Geometry, ip: Inode) {
    |ip.addrs| == NDIRECT + 1 && (ip.addrs[INDIRECT] == 0 || g.first <= ip.addrs[INDIRECT] < g.size)
  }

  /** The block address in slot s, 0 if there is none. */
  ghost function Addr(g: Geometry, ip: Inode, blocks: seq<Block>, s: nat): nat
    requires GoodBlocks(g, blocks) && GoodInode(g, ip) && s < SLOTS
  {
    if s <= INDIRECT then ip.addrs[s]
    else if ip.addrs[INDIRECT] == 0 then 0
    else Word(blocks[ip.addrs[INDIRECT]], s - INDIRECT - 1)
  }

  type Owner = map<nat, (nat, nat)>

  /** A slot that holds an address owns that block. */
  ghost predicate SlotOk(g: Geometry, ip: Inode, blocks: seq<Block>, owner: Owner, i: nat, s: nat)
    requires GoodBlocks(g, blocks) && GoodInode(g, ip) && s < SLOTS
  {
    var a := Addr(g, ip, blocks, s);
    a != 0 ==> a in owner && owner[a] == (i, s)
  }

  /** An owned block is a data block, and its owner's slot holds its address. */
  ghost predicate OwnerOk(g: Geometry, inodes: seq<Inode>, blocks: seq<Block>, owner: Owner, b: nat)
    requires GoodBlocks(g, blocks) && b in owner
  {
    var (i, s) := owner[b];
    && g.first <= b < g.size && i < |inodes| && s < SLOTS && GoodInode(g, inodes[i])
    && Addr(g, inodes[i], blocks, s) == b
  }

  /** Slot s of inode i is an indirect word that itrunc has already freed. */
  ghost predicate Gone(gone: nat, upto: nat, i: nat, s: nat) { i == gone && INDIRECT < s <= INDIRECT + upto }

  /** Blocks and slots correspond, except for the first upto indirect words of inode gone. */
  ghost predicate Matched(g: Geometry, inodes: seq<Inode>, blocks: seq<Block>, owner: Owner, gone: nat, upto: nat) {
    && GoodBlocks(g, blocks) && (forall i :: 0 <= i < |inodes| ==> GoodInode(g, inodes[i]))
    && (forall i, s {:trigger SlotOk(g, inodes[i], blocks, owner, i, s)} ::
          0 <= i < |inodes| && 0 <= s < SLOTS && !Gone(gone, upto, i, s) ==> SlotOk(g, inodes[i], blocks, owner, i, s))
    && (forall b {:trigger OwnerOk(g, inodes, blocks, owner, b)} :: b in owner ==> OwnerOk(g, inodes, blocks, owner, b))
    && (forall b :: b in owner ==> !Gone(gone, upto, owner[b].0, owner[b].1))
  }

  /** Changing blocks that are not the indirect block of an inode changes none of its slots. */
  lemma SameSlots(g: Geometry, ip: Inode, blocks: seq<Block>, blocks': seq<Block>, s: nat)
    requires GoodBlocks(g, blocks) && GoodBlocks(g, blocks') && GoodInode(g, ip) && s < SLOTS
    requires ip.addrs[INDIRECT] != 0 ==> blocks'[ip.addrs[INDIRECT]] == blocks[ip.addrs[INDIRECT]]
    ensures Addr(g, ip, blocks', s) == Addr(g, ip, blocks, s)
  {
  }

  /** The indirect block of an inode is its own. */
  lemma IndirectIsOwned(g: Geometry, inodes: seq<Inode>, blocks: seq<Block>, owner: Owner, gone: nat, upto: nat, i: nat)
    requires Matched(g, inodes, blocks, owner, gone, upto) && i < |inodes| && inodes[i].addrs[INDIRECT] != 0
    ensures inodes[i].addrs[INDIRECT] in owner && owner[inodes[i].addrs[INDIRECT]] == (i, INDIRECT)
  {
    assert SlotOk(g, inodes[i], blocks, owner, i, INDIRECT);
  }

  /** Writing a block that no inode uses as its indirect block keeps everything matched. */
  lemma WriteKeepsMatched(g: Geometry, inodes: seq<Inode>, blocks: seq<Block>, owner: Owner, gone: nat, upto: nat,
      a: nat, x: Block)
    requires Matched(g, inodes, blocks, owner, gone, upto) && a < g.size && |x| == BSIZE
    requires a in owner ==> owner[a].1 != INDIRECT
    ensures Matched(g, inodes, blocks[a := x], owner, gone, upto)
    ensures forall i, s :: 0 <= i < |inodes| && 0 <= s < SLOTS ==>
              Addr(g, inodes[i], blocks[a := x], s) == Addr(g, inodes[i], blocks, s)
  {
    var blocks' := blocks[a := x];
    forall i, s | 0 <= i < |inodes| && 0 <= s < SLOTS
      ensures Addr(g, inodes[i], blocks', s) == Addr(g, inodes[i], blocks, s)
    {
      if inodes[i].addrs[INDIRECT] != 0 {
        IndirectIsOwned(g, inodes, blocks, owner, gone, upto, i);
      }
      SameSlots(g, inodes[i], blocks, blocks', s);
    }
    forall i, s | 0 <= i < |inodes| && 0 <= s < SLOTS && !Gone(gone, upto, i, s)
      ensures SlotOk(g, inodes[i], blocks', owner, i, s)
    {
      assert SlotOk(g, inodes[i], blocks, owner, i, s);
    }
    forall b | b in owner ensures OwnerOk(g, inodes, blocks', owner, b) {
      assert OwnerOk(g, inodes, blocks, owner, b);
    }
  }

  /** Giving a free, zeroed block b to the empty slot s <= INDIRECT of inode i. */
  lemma AssignKeepsMatched(g: Geometry, inodes: seq<Inode>, blocks: seq<Block>, owner: Owner, i: nat, s: nat, b: nat)
    requires Matched(g, inodes, blocks, owner, 0, 0) && i < |inodes| && s <= INDIRECT && inodes[i].addrs[s] == 0
    requires g.first <= b < g.size && b !in owner && blocks[b] == ZERO
    ensures Matched(g, inodes[i := inodes[i].(addrs := inodes[i].addrs[s := b])], blocks, owner[b := (i, s)], 0, 0)
  {
    var ip' := inodes[i].(addrs := inodes[i].addrs[s := b]);
    var inodes', owner' := inodes[i := ip'], owner[b := (i, s)];
    forall t | 0 <= t < SLOTS && t != s ensures Addr(g, ip', blocks, t) == Addr(g, inodes[i], blocks, t) {
      if s == INDIRECT && t > INDIRECT { ZeroWords(t - INDIRECT - 1); }
    }
    forall j, t | 0 <= j < |inodes'| && 0 <= t < SLOTS ensures SlotOk(g, inodes'[j], blocks, owner', j, t) {
      assert SlotOk(g, inodes[j], blocks, owner, j, t);
    }
    forall c | c in owner' ensures OwnerOk(g, inodes', blocks, owner', c) {
      assert c != b ==> OwnerOk(g, inodes, blocks, owner, c);
    }
  }

  /** Giving a free block b to the empty word j of the indirect block of inode i. */
  lemma AssignWordKeepsMatched(g: Geometry, inodes: seq<Inode>, blocks: seq<Block>, owner: Owner, i: nat, j: nat,
      b: nat)
    requires Matched(g, inodes, blocks, owner, 0, 0) && i < |inodes| && j < NINDIRECT && inodes[i].addrs[INDIRECT] != 0
    requires g.first <= b < g.size && b !in owner && Word(blocks[inodes[i].addrs[INDIRECT]], j) == 0
    ensures var a := inodes[i].addrs[INDIRECT];
            Matched(g, inodes, blocks[a := PutWord(blocks[a], j, b)], owner[b := (i, INDIRECT + 1 + j)], 0, 0)
  {
    var a := inodes[i].addrs[INDIRECT];
    var blocks', owner' := blocks[a := PutWord(blocks[a], j, b)], owner[b := (i, INDIRECT + 1 + j)];
    forall k, t | 0 <= k < |inodes| && 0 <= t < SLOTS
      ensures Addr(g, inodes[k], blocks', t) ==
              if k == i && t == INDIRECT + 1 + j then b else Addr(g, inodes[k], blocks, t)
    {
      IndirectIsOwned(g, inodes, blocks, owner, 0, 0, i);
      if inodes[k].addrs[INDIRECT] != 0 { IndirectIsOwned(g, inodes, blocks, owner, 0, 0, k); }
      if k == i {
        if t > INDIRECT { PutThenGet(blocks[a], j, b, t - INDIRECT - 1); }
      } else {
        SameSlots(g, inodes[k], blocks, blocks', t);
      }
    }
    forall k, t | 0 <= k < |inodes| && 0 <= t < SLOTS ensures SlotOk(g, inodes[k], blocks', owner', k, t) {
      assert SlotOk(g, inodes[k], blocks, owner, k, t);
    }
    forall c | c in owner' ensures OwnerOk(g, inodes, blocks', owner', c) {
      assert c != b ==> OwnerOk(g, inodes, blocks, owner, c);
    }
  }

  /** Clearing a direct slot, after freeing its block. */
  lemma DropKeepsMatched(g: Geometry, inodes: seq<Inode>, blocks: seq<Block>, owner: Owner, i: nat, s: nat)
    requires Matched(g, inodes, blocks, owner, 0, 0) && i < |inodes| && s < NDIRECT && inodes[i].addrs[s] != 0
    ensures Matched(g, inodes[i := inodes[i].(addrs := inodes[i].addrs[s := 0])], blocks, owner - {inodes[i].addrs[s]},
        0, 0)
    ensures inodes[i].addrs[s] in owner && g.first <= inodes[i].addrs[s] < g.size
  {
    var a, ip' := inodes[i].addrs[s], inodes[i].(addrs := inodes[i].addrs[s := 0]);
    var inodes', owner' := inodes[i := ip'], owner - {a};
    assert SlotOk(g, inodes[i], blocks, owner, i, s);
    assert OwnerOk(g, inodes, blocks, owner, a);
    forall t | 0 <= t < SLOTS && t != s ensures Addr(g, ip', blocks, t) == Addr(g, inodes[i], blocks, t) {}
    forall j, t | 0 <= j < |inodes'| && 0 <= t < SLOTS ensures SlotOk(g, inodes'[j], blocks, owner', j, t) {
      assert SlotOk(g, inodes[j], blocks, owner, j, t);
    }
    forall c | c in owner' ensures OwnerOk(g, inodes', blocks, owner', c) {
      assert OwnerOk(g, inodes, blocks, owner, c);
    }
  }

  /** Freeing the block of indirect word upto, which stays in the indirect block. */
  lemma DropWordKeepsMatched(g: Geometry, inodes: seq<Inode>, blocks: seq<Block>, owner: Owner, i: nat, upto: nat)
    requires Matched(g, inodes, blocks, owner, i, upto) && i < |inodes| && upto < NINDIRECT
        && inodes[i].addrs[INDIRECT] != 0
    ensures var w := Word(blocks[inodes[i].addrs[INDIRECT]], upto);
            && (w != 0 ==> w in owner && w != inodes[i].addrs[INDIRECT] && g.first <= w < g.size)
            && Matched(g, inodes, blocks, owner - {w}, i, upto + 1)
  {
    var w, s := Word(blocks[inodes[i].addrs[INDIRECT]], upto), INDIRECT + 1 + upto;
    assert SlotOk(g, inodes[i], blocks, owner, i, s);
    IndirectIsOwned(g, inodes, blocks, owner, i, upto, i);
    if w != 0 { assert OwnerOk(g, inodes, blocks, owner, w); }
    var owner' := owner - {w};
    forall j, t | 0 <= j < |inodes| && 0 <= t < SLOTS && !Gone(i, upto + 1, j, t)
      ensures SlotOk(g, inodes[j], blocks, owner', j, t)
    {
      assert SlotOk(g, inodes[j], blocks, owner, j, t);
    }
    forall c | c in owner' ensures OwnerOk(g, inodes, blocks, owner', c)
        && !Gone(i, upto + 1, owner'[c].0, owner'[c].1) {
      assert OwnerOk(g, inodes, blocks, owner, c);
    }
  }

  /** Freeing the indirect block itself and clearing addrs[NDIRECT]. */
  lemma DropIndirectKeepsMatched(g: Geometry, inodes: seq<Inode>, blocks: seq<Block>, owner: Owner, i: nat)
    requires Matched(g, inodes, blocks, owner, i, NINDIRECT) && i < |inodes| && inodes[i].addrs[INDIRECT] != 0
    ensures inodes[i].addrs[INDIRECT] in owner && g.first <= inodes[i].addrs[INDIRECT] < g.size
    ensures Matched(g, inodes[i := inodes[i].(addrs := inodes[i].addrs[INDIRECT := 0])], blocks,
                    owner - {inodes[i].addrs[INDIRECT]}, 0, 0)
  {
    var a, ip' := inodes[i].addrs[INDIRECT], inodes[i].(addrs := inodes[i].addrs[INDIRECT := 0]);
    var inodes', owner' := inodes[i := ip'], owner - {a};
    IndirectIsOwned(g, inodes, blocks, owner, i, NINDIRECT, i);
    assert OwnerOk(g, inodes, blocks, owner, a);
    forall t | 0 <= t < SLOTS ensures Addr(g, ip', blocks, t) == if t < INDIRECT then Addr(g, inodes[i], blocks, t)
        else 0 {}
    forall j, t | 0 <= j < |inodes'| && 0 <= t < SLOTS ensures SlotOk(g, inodes'[j], blocks, owner', j, t) {
      if j != i || t < INDIRECT { assert SlotOk(g, inodes[j], blocks, owner, j, t); }
    }
    forall c | c in owner' ensures OwnerOk(g, inodes', blocks, owner', c) {
      assert OwnerOk(g, inodes, blocks, owner, c);
    }
  }

  lemma NothingGone(g: Geometry, inodes: seq<Inode>, blocks: seq<Block>, owner: Owner, i: nat)
    requires Matched(g, inodes, blocks, owner, 0, 0)
    ensures Matched(g, inodes, blocks, owner, i, 0)
  {
    forall j, s | 0 <= j < |inodes| && 0 <= s < SLOTS ensures SlotOk(g, inodes[j], blocks, owner, j, s) {
      assert !Gone(0, 0, j, s);
    }
  }

  /** When blocks and slots match before and after and only the slots of inode i are cleared,
      the other inodes own what they owned. */
  lemma SameOwners(g: Geometry, inodes: seq<Inode>, blocks: seq<Block>, owner: Owner, inodes': seq<Inode>,
      owner': Owner, i: nat)
    requires Matched(g, inodes, blocks, owner, 0, 0) && Matched(g, inodes', blocks, owner', 0, 0)
    requires |inodes'| == |inodes| && i < |inodes| && forall j :: 0 <= j < |inodes| && j != i ==>
        inodes'[j] == inodes[j]
    requires forall s :: 0 <= s < SLOTS ==> Addr(g, inodes'[i], blocks, s) == 0
    ensures forall b :: b in owner' <==> b in owner && owner[b].0 != i
    ensures forall b :: b in owner' ==> owner'[b] == owner[b]
  {
    forall b | b in owner' ensures b in owner && owner[b].0 != i && owner'[b] == owner[b] {
      assert OwnerOk(g, inodes', blocks, owner', b);
      assert SlotOk(g, inodes[owner'[b].0], blocks, owner, owner'[b].0, owner'[b].1);
    }
    forall b | b in owner && owner[b].0 != i ensures b in owner' {
      assert OwnerOk(g, inodes, blocks, owner, b);
      assert SlotOk(g, inodes'[owner[b].0], blocks, owner', owner[b].0, owner[b].1);
    }
  }

  /** Sizes do not matter to ownership. */
  lemma ResizeKeepsMatched(g: Geometry, inodes: seq<Inode>, blocks: seq<Block>, owner: Owner, i: nat, size: nat)
    requires Matched(g, inodes, blocks, owner, 0, 0) && i < |inodes|
    ensures Matched(g, inodes[i := inodes[i].(size := size)], blocks, owner, 0, 0)
    ensures forall s :: 0 <= s < SLOTS ==> Addr(g, inodes[i].(size := size), blocks, s) == Addr(g, inodes[i], blocks, s)
  {
    var inodes' := inodes[i := inodes[i].(size := size)];
    forall j, s | 0 <= j < |inodes'| && 0 <= s < SLOTS ensures SlotOk(g, inodes'[j], blocks, owner, j, s) {
      assert SlotOk(g, inodes[j], blocks, owner, j, s);
    }
    forall b | b in owner ensures OwnerOk(g, inodes', blocks, owner, b) {
      assert OwnerOk(g, inodes, blocks, owner, b);
    }
  }

  // ----- file contents -----

  /** The slot of the bn-th block of a file. */
  function SlotOf(bn: nat): nat { if bn < NDIRECT then bn else bn + 1 }

  ghost predicate Mapped(g: Geometry, ip: Inode, blocks: seq<Block>, bn: nat)
    requires GoodBlocks(g, blocks) && GoodInode(g, ip)
  {
    bn < MAXFILE && g.first <= Addr(g, ip, blocks, SlotOf(bn)) < g.size
  }

  /** Byte k of a file, 0 where no block is mapped. */
  ghost function Raw(g: Geometry, ip: Inode, blocks: seq<Block>, k: nat): byte
    requires GoodBlocks(g, blocks) && GoodInode(g, ip)
  {
    if Mapped(g, ip, blocks, BlockOf(k)) then blocks[Addr(g, ip, blocks, SlotOf(BlockOf(k)))][ByteIn(k)] else 0
  }

  /** Every block below the file's size is allocated. */
  ghost predicate NoHoles(g: Geometry, ip: Inode, blocks: seq<Block>)
    requires GoodBlocks(g, blocks) && GoodInode(g, ip)
  {
    ip.size <= MAXBYTES && forall bn {:trigger Mapped(g, ip, blocks, bn)} :: 0 <= bn && StartOf(bn) < ip.size ==>
        Mapped(g, ip, blocks, bn)
  }

  /** The file as a sequence of bytes. */
  ghost function Contents(g: Geometry, ip: Inode, blocks: seq<Block>): (r: seq<byte>)
    requires GoodBlocks(g, blocks) && GoodInode(g, ip)
    ensures |r| == ip.size
  {
    seq(ip.size, k requires 0 <= k < ip.size => Raw(g, ip, blocks, k))
  }

  // ----- what an operation on inode i keeps -----

  /** A mapped block of a file stays where it is, with the contents it has. */
  ghost predicate Kept(g: Geometry, ip: Inode, blocks: seq<Block>, ip': Inode, blocks': seq<Block>, bn: nat)
    requires GoodBlocks(g, blocks) && GoodInode(g, ip) && GoodBlocks(g, blocks') && GoodInode(g, ip')
  {
    Mapped(g, ip, blocks, bn) ==>
      && Addr(g, ip', blocks', SlotOf(bn)) == Addr(g, ip, blocks, SlotOf(bn))
      && blocks'[Addr(g, ip, blocks, SlotOf(bn))] == blocks[Addr(g, ip, blocks, SlotOf(bn))]
  }

  ghost predicate AllGood(g: Geometry, inodes: seq<Inode>, blocks: seq<Block>) {
    GoodBlocks(g, blocks) && forall j :: 0 <= j < |inodes| ==> GoodInode(g, inodes[j])
  }

  /** Inode i gained blocks; every other inode is untouched; nothing mapped changed. */
  ghost predicate Grown(g: Geometry, inodes: seq<Inode>, blocks: seq<Block>, inodes': seq<Inode>, blocks': seq<Block>,
      i: nat) {
    && AllGood(g, inodes, blocks) && AllGood(g, inodes', blocks') && |inodes'| == |inodes|
    && (forall j :: 0 <= j < |inodes| && j != i ==> inodes'[j] == inodes[j])
    && (i < |inodes| ==> inodes'[i].size == inodes[i].size && inodes'[i].kind == inodes[i].kind)
    && (forall j, bn {:trigger Kept(g, inodes[j], blocks, inodes'[j], blocks', bn)} ::
          0 <= j < |inodes| && 0 <= bn < MAXFILE ==> Kept(g, inodes[j], blocks, inodes'[j], blocks', bn))
    && (forall j, bn {:trigger Mapped(g, inodes'[j], blocks', bn)} ::
          0 <= j < |inodes| && j != i && 0 <= bn && Mapped(g, inodes'[j], blocks', bn) ==>
              Mapped(g, inodes[j], blocks, bn))
  }

  lemma GrownTransitive(g: Geometry, n0: seq<Inode>, b0: seq<Block>, n1: seq<Inode>, b1: seq<Block>, n2: seq<Inode>,
      b2: seq<Block>, i: nat)
    requires Grown(g, n0, b0, n1, b1, i) && Grown(g, n1, b1, n2, b2, i)
    ensures Grown(g, n0, b0, n2, b2, i)
  {
    forall j, bn | 0 <= j < |n0| && 0 <= bn < MAXFILE ensures Kept(g, n0[j], b0, n2[j], b2, bn) {
      assert Kept(g, n0[j], b0, n1[j], b1, bn) && Kept(g, n1[j], b1, n2[j], b2, bn);
    }
    forall j, bn | 0 <= j < |n0| && j != i && 0 <= bn && Mapped(g, n2[j], b2, bn) ensures Mapped(g, n0[j], b0, bn) {
      assert Mapped(g, n1[j], b1, bn);
    }
  }

  lemma SameGrown(g: Geometry, inodes: seq<Inode>, blocks: seq<Block>, i: nat)
    requires AllGood(g, inodes, blocks)
    ensures Grown(g, inodes, blocks, inodes, blocks, i)
  {
  }

  /** Zeroing a block that nobody owns. */
  lemma ZeroGrows(g: Geometry, inodes: seq<Inode>, blocks: seq<Block>, owner: Owner, b: nat, i: nat)
    requires Matched(g, inodes, blocks, owner, 0, 0) && g.first <= b < g.size && b !in owner
    ensures Matched(g, inodes, blocks[b := ZERO], owner, 0, 0) && Grown(g, inodes, blocks, inodes, blocks[b := ZERO], i)
  {
    WriteKeepsMatched(g, inodes, blocks, owner, 0, 0, b, ZERO);
    var blocks' := blocks[b := ZERO];
    forall j, bn | 0 <= j < |inodes| && 0 <= bn < MAXFILE ensures Kept(g, inodes[j], blocks, inodes[j], blocks', bn) {
      assert SlotOk(g, inodes[j], blocks, owner, j, SlotOf(bn));
    }
  }

  lemma AssignGrows(g: Geometry, inodes: seq<Inode>, blocks: seq<Block>, owner: Owner, i: nat, s: nat, b: nat)
    requires Matched(g, inodes, blocks, owner, 0, 0) && i < |inodes| && s <= INDIRECT && inodes[i].addrs[s] == 0
    requires g.first <= b < g.size && b !in owner && blocks[b] == ZERO
    ensures AllGood(g, inodes[i := inodes[i].(addrs := inodes[i].addrs[s := b])], blocks)
    ensures Grown(g, inodes, blocks, inodes[i := inodes[i].(addrs := inodes[i].addrs[s := b])], blocks, i)
  {
    var ip' := inodes[i].(addrs := inodes[i].addrs[s := b]);
    var inodes' := inodes[i := ip'];
    forall j, bn | 0 <= j < |inodes| && 0 <= bn < MAXFILE ensures Kept(g, inodes[j], blocks, inodes'[j], blocks, bn) {}
  }

  lemma AssignWordGrows(g: Geometry, inodes: seq<Inode>, blocks: seq<Block>, owner: Owner, i: nat, j: nat, b: nat)
    requires Matched(g, inodes, blocks, owner, 0, 0) && i < |inodes| && j < NINDIRECT && inodes[i].addrs[INDIRECT] != 0
    requires g.first <= b < g.size && b !in owner && Word(blocks[inodes[i].addrs[INDIRECT]], j) == 0
    ensures var a := inodes[i].addrs[INDIRECT];
            Grown(g, inodes, blocks, inodes, blocks[a := PutWord(blocks[a], j, b)], i)
  {
    var a := inodes[i].addrs[INDIRECT];
    var blocks' := blocks[a := PutWord(blocks[a], j, b)];
    IndirectIsOwned(g, inodes, blocks, owner, 0, 0, i);
    forall k, bn | 0 <= k < |inodes| && 0 <= bn < MAXFILE ensures Kept(g, inodes[k], blocks, inodes[k], blocks', bn) {
      assert SlotOk(g, inodes[k], blocks, owner, k, SlotOf(bn));
      if inodes[k].addrs[INDIRECT] != 0 { IndirectIsOwned(g, inodes, blocks, owner, 0, 0, k); }
      if k == i && bn >= NDIRECT { PutThenGet(blocks[a], j, b, bn - NDIRECT); }
      if k != i { SameSlots(g, inodes[k], blocks, blocks', SlotOf(bn)); }
    }
    forall k, bn | 0 <= k < |inodes| && k != i && 0 <= bn && Mapped(g, inodes[k], blocks', bn)
        ensures Mapped(g, inodes[k], blocks, bn) {
      if inodes[k].addrs[INDIRECT] != 0 { IndirectIsOwned(g, inodes, blocks, owner, 0, 0, k); }
      SameSlots(g, inodes[k], blocks, blocks', SlotOf(bn));
    }
  }

  /** A file keeps its bytes wherever they were mapped, and other files keep all of them. */
  lemma GrownKeepsBytes(g: Geometry, inodes: seq<Inode>, blocks: seq<Block>, inodes': seq<Inode>, blocks': seq<Block>,
      i: nat, j: nat, k: nat)
    requires Grown(g, inodes, blocks, inodes', blocks', i) && j < |inodes|
    requires j != i || Mapped(g, inodes[j], blocks, BlockOf(k))
    ensures Raw(g, inodes'[j], blocks', k) == Raw(g, inodes[j], blocks, k)
    ensures Mapped(g, inodes[j], blocks, BlockOf(k)) ==> Mapped(g, inodes'[j], blocks', BlockOf(k))
  {
    if BlockOf(k) < MAXFILE { assert Kept(g, inodes[j], blocks, inodes'[j], blocks', BlockOf(k)); }
    if Mapped(g, inodes'[j], blocks', BlockOf(k)) && j != i { assert Mapped(g, inodes[j], blocks, BlockOf(k)); }
  }

  lemma GrownKeepsNoHoles(g: Geometry, inodes: seq<Inode>, blocks: seq<Block>, inodes': seq<Inode>,
      blocks': seq<Block>, i: nat, j: nat)
    requires Grown(g, inodes, blocks, inodes', blocks', i) && j < |inodes| && NoHoles(g, inodes[j], blocks)
    ensures NoHoles(g, inodes'[j], blocks')
  {
    forall bn | 0 <= bn && StartOf(bn) < inodes'[j].size ensures Mapped(g, inodes'[j], blocks', bn) {
      assert Mapped(g, inodes[j], blocks, bn);
      assert Kept(g, inodes[j], blocks, inodes'[j], blocks', bn);
    }
  }

  /** Overwriting a data block of inode i changes those bytes of that file and nothing else. */
  lemma DataWrite(g: Geometry, inodes: seq<Inode>, blocks: seq<Block>, owner: Owner, i: nat, bn: nat, x: Block)
    requires Matched(g, inodes, blocks, owner, 0, 0) && i < |inodes| && Mapped(g, inodes[i], blocks, bn) && |x| == BSIZE
    ensures var blocks' := blocks[Addr(g, inodes[i], blocks, SlotOf(bn)) := x];
            && Matched(g, inodes, blocks', owner, 0, 0)
            && (forall j, c {:trigger Mapped(g, inodes[j], blocks', c)} ::
                  0 <= j < |inodes| && 0 <= c ==> Mapped(g, inodes[j], blocks', c) == Mapped(g, inodes[j], blocks, c))
            && (forall j, k {:trigger Raw(g, inodes[j], blocks', k)} :: 0 <= j < |inodes| && 0 <= k ==>
                  Raw(g, inodes[j], blocks', k) == if j == i && BlockOf(k) == bn then x[ByteIn(k)]
                      else Raw(g, inodes[j], blocks, k))
  {
    var a := Addr(g, inodes[i], blocks, SlotOf(bn));
    var blocks' := blocks[a := x];
    assert SlotOk(g, inodes[i], blocks, owner, i, SlotOf(bn));
    WriteKeepsMatched(g, inodes, blocks, owner, 0, 0, a, x);
    forall j, k | 0 <= j < |inodes| && 0 <= k
      ensures Raw(g, inodes[j], blocks', k) == if j == i && BlockOf(k) == bn then x[ByteIn(k)]
          else Raw(g, inodes[j], blocks, k)
    {
      if BlockOf(k) < MAXFILE { assert SlotOk(g, inodes[j], blocks, owner, j, SlotOf(BlockOf(k))); }
    }
  }

  // ----- writing a range of bytes -----

  /** A block with bytes o.. replaced by d. */
  function Patch(x: Block, o: nat, d: seq<byte>): (y: Block)
    requires |x| == BSIZE && o + |d| <= BSIZE
    ensures |y| == BSIZE
    ensures forall k :: 0 <= k < BSIZE ==> y[k] == if o <= k < o + |d| then d[k - o] else x[k]
  {
    x[..o] + d + x[o + |d|..]
  }

  /** Byte k of file j is as before: always for other files, and for file i where it was
      mapped and is outside the written range. */
  ghost predicate ByteKept(g: Geometry, ip0: Inode, b0: seq<Block>, ip: Inode, b: seq<Block>, k: nat)
    requires GoodBlocks(g, b0) && GoodInode(g, ip0) && GoodBlocks(g, b) && GoodInode(g, ip)
  {
    Raw(g, ip, b, k) == Raw(g, ip0, b0, k)
  }

  /** If byte k is in the range from off on, it is mapped and as in data. */
  ghost predicate ByteIs(g: Geometry, ip: Inode, b: seq<Block>, k: nat, off: nat, data: seq<byte>)
    requires GoodBlocks(g, b) && GoodInode(g, ip)
  {
    off <= k < off + |data| ==> Mapped(g, ip, b, BlockOf(k)) && Raw(g, ip, b, k) == data[k - off]
  }

  ghost predicate StaysMapped(g: Geometry, ip0: Inode, b0: seq<Block>, ip: Inode, b: seq<Block>, bn: nat)
    requires GoodBlocks(g, b0) && GoodInode(g, ip0) && GoodBlocks(g, b) && GoodInode(g, ip)
  {
    Mapped(g, ip0, b0, bn) ==> Mapped(g, ip, b, bn)
  }

  /** File i now has the bytes `data` from off on; nothing else that was mapped changed. */
  ghost predicate Written(g: Geometry, n0: seq<Inode>, b0: seq<Block>, n: seq<Inode>, b: seq<Block>, i: nat, off: nat,
      data: seq<byte>) {
    && AllGood(g, n0, b0) && AllGood(g, n, b) && |n| == |n0| && i < |n|
    && (forall j :: 0 <= j < |n| && j != i ==> n[j] == n0[j])
    && n[i].size == n0[i].size && n[i].kind == n0[i].kind
    && (forall j, k {:trigger ByteKept(g, n0[j], b0, n[j], b, k)} ::
          0 <= j < |n| && 0 <= k && (j != i || (Mapped(g, n0[j], b0, BlockOf(k)) && !(off <= k < off + |data|)))
          ==> ByteKept(g, n0[j], b0, n[j], b, k))
    && (forall k {:trigger ByteIs(g, n[i], b, k, off, data)} :: off <= k < off + |data| ==>
        ByteIs(g, n[i], b, k, off, data))
    && (forall j, bn {:trigger StaysMapped(g, n0[j], b0, n[j], b, bn)} ::
          0 <= j < |n| && 0 <= bn ==> StaysMapped(g, n0[j], b0, n[j], b, bn))
  }

  lemma NothingWritten(g: Geometry, n: seq<Inode>, b: seq<Block>, i: nat, off: nat)
    requires AllGood(g, n, b) && i < |n|
    ensures Written(g, n, b, n, b, i, off, [])
  {
  }

  lemma GrownKeepsWritten(g: Geometry, n0: seq<Inode>, b0: seq<Block>, n: seq<Inode>, b: seq<Block>, n': seq<Inode>,
      b': seq<Block>, i: nat, off: nat, data: seq<byte>)
    requires Written(g, n0, b0, n, b, i, off, data) && Grown(g, n, b, n', b', i)
    ensures Written(g, n0, b0, n', b', i, off, data)
  {
    forall j, k | 0 <= j < |n| && 0 <= k && (j != i || (Mapped(g, n0[j], b0, BlockOf(k)) && !(off <= k < off + |data|)))
      ensures ByteKept(g, n0[j], b0, n'[j], b', k)
    {
      assert ByteKept(g, n0[j], b0, n[j], b, k);
      assert StaysMapped(g, n0[j], b0, n[j], b, BlockOf(k));
      GrownKeepsBytes(g, n, b, n', b', i, j, k);
    }
    forall k | off <= k < off + |data| ensures ByteIs(g, n'[i], b', k, off, data) {
      assert ByteIs(g, n[i], b, k, off, data);
      GrownKeepsBytes(g, n, b, n', b', i, i, k);
    }
    forall j, bn | 0 <= j < |n| && 0 <= bn ensures StaysMapped(g, n0[j], b0, n'[j], b', bn) {
      assert StaysMapped(g, n0[j], b0, n[j], b, bn);
      if Mapped(g, n[j], b, bn) { assert Kept(g, n[j], b, n'[j], b', bn); }
    }
  }

  /** Patching the next bytes into their block. */
  lemma PatchWrites(g: Geometry, n0: seq<Inode>, b0: seq<Block>, n: seq<Inode>, b: seq<Block>, owner: Owner,
                    i: nat, off: nat, data: seq<byte>, d: seq<byte>)
    requires Written(g, n0, b0, n, b, i, off, data) && Matched(g, n, b, owner, 0, 0)
    requires Mapped(g, n[i], b, BlockOf(off + |data|)) && ByteIn(off + |data|) + |d| <= BSIZE
    ensures var a := Addr(g, n[i], b, SlotOf(BlockOf(off + |data|)));
            var b' := b[a := Patch(b[a], ByteIn(off + |data|), d)];
            Matched(g, n, b', owner, 0, 0) && Written(g, n0, b0, n, b', i, off, data + d)
  {
    var e := off + |data|;
    var bn, o := BlockOf(e), ByteIn(e);
    var a := Addr(g, n[i], b, SlotOf(bn));
    var x := Patch(b[a], o, d);
    var b' := b[a := x];
    DataWrite(g, n, b, owner, i, bn, x);
    forall j, k | 0 <= j < |n| && 0 <= k
        && (j != i || (Mapped(g, n0[j], b0, BlockOf(k)) && !(off <= k < off + |data + d|)))
      ensures ByteKept(g, n0[j], b0, n[j], b', k)
    {
      assert ByteKept(g, n0[j], b0, n[j], b, k);
      assert Raw(g, n[j], b', k) == if j == i && BlockOf(k) == bn then x[ByteIn(k)] else Raw(g, n[j], b, k);
      if j == i && BlockOf(k) == bn { InBlock(k, e, |d|); }
    }
    forall j, c | 0 <= j < |n| && 0 <= c ensures StaysMapped(g, n0[j], b0, n[j], b', c) {
      assert StaysMapped(g, n0[j], b0, n[j], b, c);
      assert Mapped(g, n[j], b', c) == Mapped(g, n[j], b, c);
    }
    forall k | off <= k < off + |data + d| ensures ByteIs(g, n[i], b', k, off, data + d) {
      assert Raw(g, n[i], b', k) == if BlockOf(k) == bn then x[ByteIn(k)] else Raw(g, n[i], b, k);
      assert Mapped(g, n[i], b', BlockOf(k)) == Mapped(g, n[i], b, BlockOf(k));
      if k < e { assert ByteIs(g, n[i], b, k, off, data); }
      InBlock(k, e, |d|);
    }
  }

  /** Where byte k lies when a chunk of len bytes from e on stays within one block. */
  lemma InBlock(k: nat, e: nat, len: nat)
    requires ByteIn(e) + len <= BSIZE
    ensures e <= k < e + len ==> BlockOf(k) == BlockOf(e) && ByteIn(k) == ByteIn(e) + (k - e)
    ensures BlockOf(k) == BlockOf(e) ==> (e <= k < e + len <==> ByteIn(e) <= ByteIn(k) < ByteIn(e) + len)
  {
  }

  lemma PatchKeepsNoHoles(g: Geometry, inodes: seq<Inode>, blocks: seq<Block>, owner: Owner, i: nat, bn: nat, x: Block)
    requires Matched(g, inodes, blocks, owner, 0, 0) && i < |inodes| && Mapped(g, inodes[i], blocks, bn) && |x| == BSIZE
    requires forall j :: 0 <= j < |inodes| ==> NoHoles(g, inodes[j], blocks)
    ensures GoodBlocks(g, blocks[Addr(g, inodes[i], blocks, SlotOf(bn)) := x])
    ensures forall j :: 0 <= j < |inodes| ==> NoHoles(g, inodes[j], blocks[Addr(g, inodes[i], blocks, SlotOf(bn)) := x])
    ensures Mapped(g, inodes[i], blocks[Addr(g, inodes[i], blocks, SlotOf(bn)) := x], bn)
    ensures Addr(g, inodes[i], blocks[Addr(g, inodes[i], blocks, SlotOf(bn)) := x], SlotOf(bn))
            == Addr(g, inodes[i], blocks, SlotOf(bn))
  {
    var blocks' := blocks[Addr(g, inodes[i], blocks, SlotOf(bn)) := x];
    DataWrite(g, inodes, blocks, owner, i, bn, x);
    assert SlotOk(g, inodes[i], blocks, owner, i, SlotOf(bn));
    WriteKeepsMatched(g, inodes, blocks, owner, 0, 0, Addr(g, inodes[i], blocks, SlotOf(bn)), x);
    forall j | 0 <= j < |inodes| ensures NoHoles(g, inodes[j], blocks') {
      forall c | 0 <= c && StartOf(c) < inodes[j].size ensures Mapped(g, inodes[j], blocks', c) {
        assert Mapped(g, inodes[j], blocks, c);
      }
    }
  }

  // ----- the file as bytes -----

  /** Bytes d laid over c from off on. */
  function Splice(c: seq<byte>, off: nat, d: seq<byte>): (r: seq<byte>)
    requires off <= |c|
    ensures |r| == if off + |d| > |c| then off + |d| else |c|
  {
    c[..off] + d + if off + |d| < |c| then c[off + |d|..] else []
  }

  /** Setting the size at the end of a write makes the written range part of the file. */
  lemma WrittenContents(g: Geometry, n0: seq<Inode>, b0: seq<Block>, n: seq<Inode>, b: seq<Block>, i: nat, off: nat,
      data: seq<byte>, tot: nat, size: nat)
    requires Written(g, n0, b0, n, b, i, off, data) && NoHoles(g, n0[i], b0) && off <= n0[i].size && tot <= |data|
    requires size == (if off + tot > n0[i].size then off + tot else n0[i].size) && size <= MAXBYTES
    ensures var ip := n[i].(size := size);
            && GoodInode(g, ip) && NoHoles(g, ip, b)
            && Contents(g, ip, b) == Splice(Contents(g, n0[i], b0), off, data)[..size]
  {
    var ip := n[i].(size := size);
    assert forall k: nat :: Mapped(g, ip, b, k) == Mapped(g, n[i], b, k);
    assert forall k: nat :: Raw(g, ip, b, k) == Raw(g, n[i], b, k);
    forall bn | 0 <= bn && StartOf(bn) < size ensures Mapped(g, ip, b, bn) {
      if StartOf(bn) < n0[i].size {
        assert Mapped(g, n0[i], b0, bn);
        assert StaysMapped(g, n0[i], b0, n[i], b, bn);
      } else {
        assert ByteIs(g, n[i], b, StartOf(bn), off, data);
      }
      assert Mapped(g, n[i], b, bn);
    }
    forall k | 0 <= k < size ensures Raw(g, ip, b, k) == Splice(Contents(g, n0[i], b0), off, data)[k] {
      if off <= k < off + |data| {
        assert ByteIs(g, n[i], b, k, off, data);
      } else {
        assert StartOf(BlockOf(k)) < n0[i].size;
        assert Mapped(g, n0[i], b0, BlockOf(k));
        assert ByteKept(g, n0[i], b0, n[i], b, k);
      }
    }
  }

  /** The files that are not written keep their contents. */
  lemma OthersKept(g: Geometry, n0: seq<Inode>, b0: seq<Block>, n: seq<Inode>, b: seq<Block>, i: nat, off: nat,
      data: seq<byte>, j: nat)
    requires Written(g, n0, b0, n, b, i, off, data) && j < |n0| && j != i
    ensures Contents(g, n[j], b) == Contents(g, n0[j], b0)
  {
    forall k | 0 <= k < n0[j].size ensures Raw(g, n[j], b, k) == Raw(g, n0[j], b0, k) {
      assert ByteKept(g, n0[j], b0, n[j], b, k);
    }
  }

  /** mkfs sets the root directory's size to a multiple of BSIZE above its length. That
      leaves a block below the size with nothing allocated for it, exactly when the
      directory already filled its blocks. */
  lemma RootRounding(g: Geometry, ip: Inode, blocks: seq<Block>)
    requires GoodBlocks(g, blocks) && GoodInode(g, ip) && NoHoles(g, ip, blocks) && ip.size + BSIZE <= MAXBYTES
    requires forall bn: nat :: StartOf(bn) >= ip.size ==> !Mapped(g, ip, blocks, bn)
    ensures var root := ip.(size := StartOf(BlockOf(ip.size) + 1));
            GoodInode(g, root) && (NoHoles(g, root, blocks) <==> ByteIn(ip.size) != 0)
  {
    var root, last := ip.(size := StartOf(BlockOf(ip.size) + 1)), BlockOf(ip.size);
    assert forall bn: nat :: Mapped(g, root, blocks, bn) == Mapped(g, ip, blocks, bn);
    assert Mapped(g, root, blocks, last) <==> StartOf(last) < ip.size;
  }
}
