/** Whether all that a system call changes on the disk was given to log_write (kernel/fs.c). */
module ChangeLog {
  import opened DiskFormat
  import opened FileBlocks

  /** Data and indirect blocks by number, and the bitmap blocks, of which the first is block
      number start. */
  datatype Disk = Disk(blocks: seq<Block>, bmap: Bitmap, start: nat)

  /** Block k and bitmap block k are as they were, or log_write was called for them. A block
      may also be stale: its buffer was changed and released without log_write. */
  ghost predicate NotedAt(d0: Disk, d: Disk, log: set<nat>, stale: set<nat>, k: nat) {
    && |d.blocks| == |d0.blocks| && |d.bmap| == |d0.bmap| && d.start == d0.start
    && (k < |d.blocks| && d.blocks[k] != d0.blocks[k] ==> k in log || k in stale)
    && (k < |d.bmap| && d.bmap[k] != d0.bmap[k] ==> d.start + k in log)
  }

  /** Nothing has changed from d0 to d that was not logged and is not stale. */
  ghost predicate Noted(d0: Disk, d: Disk, log: set<nat>, stale: set<nat>) {
    forall k: nat {:trigger NotedAt(d0, d, log, stale, k)} :: NotedAt(d0, d, log, stale, k)
  }

  lemma NoChange(d: Disk, log: set<nat>, stale: set<nat>)
    ensures Noted(d, d, log, stale)
  {
    forall k: nat ensures NotedAt(d, d, log, stale, k) {}
  }

  lemma NotedTwice(d0: Disk, d1: Disk, d2: Disk, log1: set<nat>, stale1: set<nat>, log2: set<nat>, stale2: set<nat>,
      log: set<nat>, stale: set<nat>)
    requires Noted(d0, d1, log1, stale1) && Noted(d1, d2, log2, stale2)
    requires log1 <= log && log2 <= log && stale1 <= stale && stale2 <= stale
    ensures Noted(d0, d2, log, stale)
  {
    forall k: nat ensures NotedAt(d0, d2, log, stale, k) {
      assert NotedAt(d0, d1, log1, stale1, k) && NotedAt(d1, d2, log2, stale2, k);
    }
  }

  /** log_write of a block whose buffer was changed. */
  lemma NowLogged(d0: Disk, d: Disk, log: set<nat>, stale: set<nat>, a: nat)
    requires Noted(d0, d, log, stale + {a})
    ensures Noted(d0, d, log + {a}, stale)
  {
    forall k: nat ensures NotedAt(d0, d, log + {a}, stale, k) {
      assert NotedAt(d0, d, log, stale + {a}, k);
    }
  }

  /** One block changes that is logged or stale. */
  lemma BlockChange(d: Disk, a: nat, x: Block, log: set<nat>, stale: set<nat>)
    requires a < |d.blocks| && (a in log || a in stale)
    ensures Noted(d, d.(blocks := d.blocks[a := x]), log, stale)
  {
    var d' := d.(blocks := d.blocks[a := x]);
    forall k: nat ensures NotedAt(d, d', log, stale, k) {}
  }

  /** One bitmap block changes that is logged. */
  lemma MapChange(d: Disk, q: nat, x: seq<bv8>, log: set<nat>, stale: set<nat>)
    requires q < |d.bmap| && d.start + q in log
    ensures Noted(d, d.(bmap := d.bmap[q := x]), log, stale)
  {
    var d' := d.(bmap := d.bmap[q := x]);
    forall k: nat ensures NotedAt(d, d', log, stale, k) {}
  }

  // ----- the blocks of a write -----

  ghost predicate InLog(g: Geometry, ip: Inode, blocks: seq<Block>, log: set<nat>, bn: nat) {
    GoodBlocks(g, blocks) && GoodInode(g, ip) && Mapped(g, ip, blocks, bn) && Addr(g, ip, blocks, SlotOf(bn)) in log
  }

  /** Blocks lo..hi of the file are logged. */
  ghost predicate DataLogged(g: Geometry, ip: Inode, blocks: seq<Block>, log: set<nat>, lo: nat, hi: nat) {
    forall bn: nat {:trigger InLog(g, ip, blocks, log, bn)} :: lo <= bn < hi ==> InLog(g, ip, blocks, log, bn)
  }

  /** bmap leaves them where they are. */
  lemma LoggedGrown(g: Geometry, n0: seq<Inode>, b0: seq<Block>, n: seq<Inode>, b: seq<Block>, i: nat, log0: set<nat>,
      log: set<nat>, lo: nat, hi: nat)
    requires Grown(g, n0, b0, n, b, i) && i < |n0| && log0 <= log && DataLogged(g, n0[i], b0, log0, lo, hi)
    ensures DataLogged(g, n[i], b, log, lo, hi)
  {
    forall bn: nat | lo <= bn < hi ensures InLog(g, n[i], b, log, bn) {
      assert InLog(g, n0[i], b0, log0, bn);
      assert Kept(g, n0[i], b0, n[i], b, bn);
    }
  }

  /** So does a write to a data block. */
  lemma LoggedWritten(g: Geometry, inodes: seq<Inode>, blocks: seq<Block>, owner: Owner, i: nat, c: nat, x: Block,
      log: set<nat>, lo: nat, hi: nat)
    requires Matched(g, inodes, blocks, owner, 0, 0) && i < |inodes| && Mapped(g, inodes[i], blocks, c) && |x| == BSIZE
    requires DataLogged(g, inodes[i], blocks, log, lo, hi)
    ensures DataLogged(g, inodes[i], blocks[Addr(g, inodes[i], blocks, SlotOf(c)) := x], log, lo, hi)
  {
    var b := blocks[Addr(g, inodes[i], blocks, SlotOf(c)) := x];
    DataWrite(g, inodes, blocks, owner, i, c, x);
    assert SlotOk(g, inodes[i], blocks, owner, i, SlotOf(c));
    if inodes[i].addrs[INDIRECT] != 0 { IndirectIsOwned(g, inodes, blocks, owner, 0, 0, i); }
    forall bn: nat | lo <= bn < hi ensures InLog(g, inodes[i], b, log, bn) {
      assert InLog(g, inodes[i], blocks, log, bn);
      SameSlots(g, inodes[i], blocks, b, SlotOf(bn));
    }
  }

  /** A longer log, one block more, and a new size of the file. */
  lemma LoggedMore(g: Geometry, ip: Inode, ip': Inode, blocks: seq<Block>, log: set<nat>, log': set<nat>, lo: nat,
      hi: nat, hi': nat)
    requires DataLogged(g, ip, blocks, log, lo, hi) && log <= log' && GoodInode(g, ip') && ip'.addrs == ip.addrs
    requires hi' <= hi || (hi' == hi + 1 && InLog(g, ip, blocks, log', hi))
    ensures DataLogged(g, ip', blocks, log', lo, hi')
  {
    forall bn: nat | lo <= bn < hi' ensures InLog(g, ip', blocks, log', bn) {
      if bn < hi { assert InLog(g, ip, blocks, log, bn); }
    }
  }
}
