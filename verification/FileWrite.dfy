/** filewrite of kernel/file.c on an inode: a write as a series of transactions. */
module FileWrite {
  import LogFormat
  import opened DiskFormat
  import opened FileBlocks
  import opened ChangeLog
  import opened FileSystem

  /** c with d laid over it at off, as long as c or the first w bytes of d make it. */
  function Over(c: seq<byte>, off: nat, d: seq<byte>, w: nat): (r: seq<byte>)
    requires off <= |c| && w <= |d|
    ensures w == |d| ==> r == Splice(c, off, d)
  {
    Splice(c, off, d)[..if off + w > |c| then off + w else |c|]
  }

  /** c' is c with the first w bytes of src laid over it at off, and torn more that do not make
      it longer. */
  ghost predicate Laid(c: seq<byte>, off: nat, src: seq<byte>, w: nat, torn: nat, c': seq<byte>) {
    if w + torn == 0 then c' == c
    else off <= |c| && w + torn <= |src| && c' == Over(c, off, src[..w + torn], w)
  }

  lemma OverLays(c: seq<byte>, off: nat, src: seq<byte>, w: nat, torn: nat)
    requires off <= |c| && w + torn <= |src|
    ensures Laid(c, off, src, w, torn, Over(c, off, src[..w + torn], w))
  {
    if w + torn == 0 { assert Splice(c, off, []) == c; }
  }

  lemma OverTwice(c: seq<byte>, off: nat, d: seq<byte>, e: seq<byte>, w: nat)
    requires off <= |c| && w <= |e|
    ensures Over(Splice(c, off, d), off + |d|, e, w) == Over(c, off, d + e, |d| + w)
  {
    SpliceTwice(c, off, d, e);
  }

  /** Writing on where a write stopped continues it. */
  lemma LaidTwice(c: seq<byte>, off: nat, src: seq<byte>, k: nat, c1: seq<byte>, r: nat, torn: nat, c2: seq<byte>)
    requires Laid(c, off, src, k, 0, c1) && Laid(c1, off + k, Rest(src, k), r, torn, c2)
    ensures Laid(c, off, src, k + r, torn, c2)
  {
    if k > 0 && r + torn > 0 {
      assert src[..k] + src[k..][..r + torn] == src[..k + r + torn];
      assert src[..k + 0] == src[..k];
      OverTwice(c, off, src[..k], src[k..][..r + torn], r);
    } else if r + torn > 0 {
      assert src[0..][..r + torn] == src[..r + torn];
    } else {
      assert src[..k + 0] == src[..k + r + torn];
    }
  }

  /** File j after a write to file i: that file has w bytes of src laid over it at off, and torn
      more in a buffer that was not logged; any other is as it was. */
  ghost predicate After(g: Geometry, n0: seq<Inode>, b0: seq<Block>, n: seq<Inode>, b: seq<Block>, i: nat,
      src: seq<byte>, off: nat, w: nat, torn: nat, j: nat)
    requires AllGood(g, n0, b0) && AllGood(g, n, b) && j < |n| == |n0|
  {
    var c, c' := Contents(g, n0[j], b0), Contents(g, n[j], b);
    if j == i then Laid(c, off, src, w, torn, c') else c' == c
  }

  /** The files after a write that began with inodes n0 and blocks b0. */
  ghost predicate StoredAt(g: Geometry, n0: seq<Inode>, b0: seq<Block>, n: seq<Inode>, b: seq<Block>, i: nat,
      src: seq<byte>, off: nat, w: nat, torn: nat) {
    && AllGood(g, n0, b0) && AllGood(g, n, b) && i < |n| == |n0|
    && forall j: nat {:trigger After(g, n0, b0, n, b, i, src, off, w, torn, j)} :: j < |n| ==>
        After(g, n0, b0, n, b, i, src, off, w, torn, j)
  }

  /** The source from byte k on. */
  function Rest(src: seq<byte>, k: nat): seq<byte> { if k <= |src| then src[k..] else [] }

  lemma NothingStored(g: Geometry, n: seq<Inode>, b: seq<Block>, i: nat, src: seq<byte>, off: nat)
    requires AllGood(g, n, b) && i < |n|
    ensures StoredAt(g, n, b, n, b, i, src, off, 0, 0)
  {
    forall j: nat | j < |n| ensures After(g, n, b, n, b, i, src, off, 0, 0, j) {}
  }

  /** A transaction that stores r more bytes continues a write that stored k. */
  lemma GoesOn(g: Geometry, n0: seq<Inode>, b0: seq<Block>, n1: seq<Inode>, b1: seq<Block>, n: seq<Inode>,
      b: seq<Block>, i: nat, src: seq<byte>, off: nat, k: nat, r: nat, torn: nat)
    requires StoredAt(g, n0, b0, n1, b1, i, src, off, k, 0)
        && StoredAt(g, n1, b1, n, b, i, Rest(src, k), off + k, r, torn)
    ensures StoredAt(g, n0, b0, n, b, i, src, off, k + r, torn)
  {
    var w := k + r;
    forall j: nat | j < |n| ensures After(g, n0, b0, n, b, i, src, off, w, torn, j) {
      assert After(g, n0, b0, n1, b1, i, src, off, k, 0, j);
      assert After(g, n1, b1, n, b, i, Rest(src, k), off + k, r, torn, j);
      if j == i {
        LaidTwice(Contents(g, n0[i], b0), off, src, k, Contents(g, n1[i], b1), r, torn, Contents(g, n[i], b));
      }
    }
  }

  /** What writei promises, for the file and for the others. */
  lemma WroteStores(fs: FileSystem, i: nat, src: seq<byte>, off: nat, n: nat, tot: nat, torn: nat, n0: seq<Inode>,
      b0: seq<Block>, d0: seq<Inode>, stale0: set<nat>, free0: nat)
    requires AllGood(fs.g, n0, b0) && i < |n0| == |d0| && off <= n0[i].size
    requires fs.Wrote(i, src, off, n, tot, torn, n0, b0, d0, stale0, free0)
    ensures StoredAt(fs.g, n0, b0, fs.inodes, fs.blocks, i, src, off, tot, torn)
  {
    forall j: nat | j < |fs.inodes| ensures After(fs.g, n0, b0, fs.inodes, fs.blocks, i, src, off, tot, torn, j) {
      if j == i { OverLays(Contents(fs.g, n0[i], b0), off, src, tot, torn); }
    }
  }

  /** A transaction continues calls that gave all that they changed to log_write. */
  lemma LoggedOn(fs: FileSystem, d0: Disk, n0: seq<Inode>, d1: Disk, n1: seq<Inode>, log: set<nat>, stale: set<nat>)
    requires Noted(d0, d1, log, stale) && stale <= fs.stale && fs.AllLogged(d1, n1, fs.logged) && |n0| == |n1|
    requires forall j {:trigger n1[j]} :: 0 <= j < |n0| && n1[j] != n0[j] ==> fs.IBlock(j) in log
    ensures fs.AllLogged(d0, n0, log + fs.logged)
  {
    NotedTwice(d0, d1, fs.Now(), log, stale, fs.logged, fs.stale, log + fs.logged, fs.stale);
    forall j | 0 <= j < |n0| && fs.dinodes[j] != n0[j] ensures fs.IBlock(j) in log + fs.logged {
      assert n1[j] == n1[j];
    }
  }

  /** One transaction of filewrite: begin_op, writei of at most three blocks, end_op. It logs at
      most MAXOPBLOCKS distinct blocks, and fewer when one bitmap block covers the disk. All
      that it changes is among them, but for a buffer with torn bytes. */
  method WriteTransaction(fs: FileSystem, i: nat, src: seq<byte>, off: nat, n1: nat)
      returns (r: int, ghost w: nat, ghost torn: nat)
    requires fs.Valid() && i < |fs.inodes| && off < U32 && n1 <= BATCH
    modifies fs`bmap, fs`used, fs`blocks, fs`inodes, fs`dinodes, fs`owner, fs`logged, fs`stale
    ensures fs.Valid() && -1 <= r <= n1 && w == (if r < 0 then 0 else r) && (torn > 0 ==> r < n1)
        && (r > 0 ==> off + r <= MAXBYTES)
    ensures |fs.logged| <= LogFormat.MAXOPBLOCKS && (fs.g.size <= BPB ==> |fs.logged| <= 7 < LogFormat.MAXOPBLOCKS)
    ensures fs.AllLogged(old(fs.Now()), old(fs.dinodes), fs.logged) && old(fs.stale) <= fs.stale
    ensures r > 0 ==>
        i < |fs.inodes| && DataLogged(fs.g, fs.inodes[i], fs.blocks, fs.logged, BlockOf(off), EndBlock(off, r))
    ensures StoredAt(fs.g, old(fs.inodes), old(fs.blocks), fs.inodes, fs.blocks, i, src, off, w, torn)
  {
    ghost var t;
    fs.logged := {};  // begin_op
    r, torn, t := fs.Writei(i, src, off, n1);
    if r != -1 {
      assert fs.logged - {} == fs.logged;
      WriteBudget({}, fs.IBlock(i), fs.logged, t, old(fs.inodes)[i].addrs[INDIRECT],
          fs.inodes[i].addrs[INDIRECT], off, n1, fs.bmapstart);
      WroteStores(fs, i, src, off, n1, r, torn, old(fs.inodes), old(fs.blocks), old(fs.dinodes), old(fs.stale),
          old(fs.Free()));
    } else {
      torn := 0;
      NoChange(fs.Now(), fs.logged, fs.stale);
      NothingStored(fs.g, fs.inodes, fs.blocks, i, src, off);
    }
    w := if r < 0 then 0 else r;
  }

  /** filewrite on an inode: the write is cut into transactions of at most three blocks, and
      succeeds only as a whole. Returns n or -1, the new file offset, how many bytes are in a
      buffer that was not logged, and the blocks that its transactions have logged. */
  method Filewrite(fs: FileSystem, i: nat, src: seq<byte>, off: nat, n: nat)
      returns (ret: int, off': nat, ghost torn: nat, ghost log: set<nat>)
    requires fs.Valid() && i < |fs.inodes| && off < U32
    modifies fs`bmap, fs`used, fs`blocks, fs`inodes, fs`dinodes, fs`owner, fs`logged, fs`stale
    ensures fs.Valid() && off <= off' <= off + n && ret == if off' == off + n && torn == 0 then n else -1
    ensures StoredAt(fs.g, old(fs.inodes), old(fs.blocks), fs.inodes, fs.blocks, i, src, off, off' - off, torn)
    ensures fs.AllLogged(old(fs.Now()), old(fs.dinodes), log)
  {
    ghost var g, n0, b0 := fs.g, fs.inodes, fs.blocks;
    var k := 0;
    off', torn, log := off, 0, {};
    NoChange(fs.Now(), {}, fs.stale);
    NothingStored(g, n0, b0, i, src, off);
    while k < n
      invariant k <= n && off' == off + k < U32 && torn == 0 && fs.Valid()
      invariant StoredAt(g, n0, b0, fs.inodes, fs.blocks, i, src, off, k, torn)
      invariant fs.AllLogged(old(fs.Now()), old(fs.dinodes), log)
      decreases n - k
    {
      var r;
      ghost var w;
      r, w, torn, log := WriteNext(fs, i, src, off, k, n, n0, b0, old(fs.Now()), old(fs.dinodes), log);
      off' := off + k + if r > 0 then r else 0;
      if r != Batch(n - k) {
        ret := -1;
        assert off' - off == k + w;
        return;
      }
      k := k + r;
    }
    ret := n;
  }

  /** The bytes of the next transaction: as many as three blocks take, or fewer at the end. */
  function Batch(left: nat): nat { if left > BATCH then BATCH else left }

  /** One round of filewrite's loop. */
  method WriteNext(fs: FileSystem, i: nat, src: seq<byte>, off: nat, k: nat, n: nat, ghost n0: seq<Inode>,
      ghost b0: seq<Block>, ghost disk: Disk, ghost d0: seq<Inode>, ghost log0: set<nat>)
    returns (r: int, ghost w: nat, ghost torn: nat, ghost log: set<nat>)
    requires fs.AllLogged(disk, d0, log0)
    requires fs.Valid() && StoredAt(fs.g, n0, b0, fs.inodes, fs.blocks, i, src, off, k, 0) && off + k < U32 && k < n
    modifies fs`bmap, fs`used, fs`blocks, fs`inodes, fs`dinodes, fs`owner, fs`logged, fs`stale
    ensures fs.Valid() && StoredAt(fs.g, n0, b0, fs.inodes, fs.blocks, i, src, off, k + w, torn)
    ensures -1 <= r <= Batch(n - k) && w == (if r < 0 then 0 else r) && (torn > 0 ==> r < Batch(n - k))
        && (r > 0 ==> off + k + r <= MAXBYTES)
    ensures fs.AllLogged(disk, d0, log)
  {
    ghost var m, b, d1, n1, stale := fs.inodes, fs.blocks, fs.Now(), fs.dinodes, fs.stale;
    r, w, torn := WriteTransaction(fs, i, Rest(src, k), off + k, Batch(n - k));
    GoesOn(fs.g, n0, b0, m, b, fs.inodes, fs.blocks, i, src, off, k, w, torn);
    LoggedOn(fs, disk, d0, d1, n1, log0, stale);
    log := log0 + fs.logged;
  }
}
