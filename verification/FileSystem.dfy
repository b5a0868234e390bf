/** Block allocation and file contents (kernel/fs.c), on the logical contents of the disk
    as the log presents them. */
module FileSystem {
  import opened Common
  import opened DiskFormat
  import opened FileBlocks
  import opened BlockCost
  import opened ChangeLog

  /** The bitmap marks the metadata blocks and the owned blocks, and no others. */
  ghost predicate Exact(g: Geometry, used: set<nat>, owner: Owner) {
    forall b :: b in used <==> 0 <= b < g.first || b in owner
  }

  datatype Round = Copied | NoSpace | Fault

  /** A block address, unless it is 0. */
  ghost function Nonzero(a: nat): set<nat> { if a == 0 then {} else {a} }

  ghost predicate InRound(b: nat, was: set<nat>, a: nat, maps: set<nat>, ind: nat) {
    b in was || b in maps || (b != 0 && (b == a || b == ind))
  }

  /** What a round of a write logs: beyond the data block a, only the bitmap blocks in maps
      and the indirect block. There is a bitmap block for the data block if it was not
      mapped and one for the indirect block if it is new. */
  ghost predicate RoundLogs(was: set<nat>, now: set<nat>, a: nat, maps: set<nat>, ind0: nat, ind: nat, mapped: bool) {
    && (forall b: nat {:trigger InRound(b, was, a, maps, ind)} :: b in now ==> InRound(b, was, a, maps, ind))
    && (ind0 == 0 || ind0 == ind) && |maps| <= (if mapped then 0 else 1) + (if ind0 == ind then 0 else 1)
  }

  /** The rounds of a write so far, the blocks among them that were not mapped before, and
      the data and bitmap blocks they logged. */
  datatype Tally = Tally(rounds: nat, added: nat, data: set<nat>, maps: set<nat>)

  ghost predicate InWrite(b: nat, was: set<nat>, t: Tally, ind: nat) {
    b in was || b in t.data || b in t.maps || (b != 0 && b == ind)
  }

  /** A write that began when `was` had been logged and the indirect block was ind0. */
  ghost predicate WriteLogs(was: set<nat>, now: set<nat>, t: Tally, ind0: nat, ind: nat) {
    && (forall b: nat {:trigger InWrite(b, was, t, ind)} :: b in now ==> InWrite(b, was, t, ind))
    && (ind0 == 0 || ind0 == ind) && t.added <= t.rounds
    && |t.data| <= t.rounds && |t.maps| <= t.added + (if ind0 == ind then 0 else 1)
  }

  lemma UnionAtMost(a: set<nat>, b: set<nat>)
    ensures |a + b| <= |a| + |b|
  {
    assert |a + b| == |a| + |b - a| by { assert a + b == a + (b - a); }
    assert |b - a| <= |b| by { assert b == (b - a) + (b * a); }
  }

  ghost function Add(t: Tally, a: nat, maps: set<nat>, mapped: bool): Tally {
    Tally(t.rounds + 1, if mapped then t.added else t.added + 1, t.data + Nonzero(a), t.maps + maps)
  }

  lemma RoundAdds(was: set<nat>, mid: set<nat>, now: set<nat>, t: Tally, a: nat, maps: set<nat>, ind0: nat, ind1: nat,
      ind: nat, mapped: bool)
    requires WriteLogs(was, mid, t, ind0, ind1) && RoundLogs(mid, now, a, maps, ind1, ind, mapped)
    ensures WriteLogs(was, now, Add(t, a, maps, mapped), ind0, ind)
  {
    UnionAtMost(t.data, Nonzero(a));
    UnionAtMost(t.maps, maps);
    forall b: nat | b in now ensures InWrite(b, was, Add(t, a, maps, mapped), ind) {
      assert InRound(b, mid, a, maps, ind);
      if b in mid { assert InWrite(b, was, t, ind1); }
    }
  }

  /** A new indirect block ind, in bitmap block map, before the round of a data block. */
  lemma IndirectAdds(was: set<nat>, now: set<nat>, a: nat, maps: set<nat>, ind: nat, map': nat)
    requires RoundLogs(was + {map', ind}, now, a, maps, ind, ind, false) && ind != 0
    ensures RoundLogs(was, now, a, {map'} + maps, 0, ind, false)
  {
    UnionAtMost({map'}, maps);
    forall b: nat | b in now ensures InRound(b, was, a, {map'} + maps, ind) {
      assert InRound(b, was + {map', ind}, a, maps, ind);
    }
  }

  /** log_write of a data block of the write. */
  lemma DataAdds(was: set<nat>, now: set<nat>, t: Tally, ind0: nat, ind: nat, a: nat)
    requires WriteLogs(was, now, t, ind0, ind) && a in t.data
    ensures WriteLogs(was, now + {a}, t, ind0, ind)
  {
    forall b: nat | b in now + {a} ensures InWrite(b, was, t, ind) {
      if b in now { assert InWrite(b, was, t, ind); }
    }
  }

  /** iupdate at the end of the write. */
  lemma InodeAdds(was: set<nat>, now: set<nat>, t: Tally, ind0: nat, ind: nat, iblock: nat)
    requires WriteLogs(was, now, t, ind0, ind)
    ensures WriteLogs(was + {iblock}, now + {iblock}, t, ind0, ind)
  {
    forall b: nat | b in now + {iblock} ensures InWrite(b, was + {iblock}, t, ind) {
      if b in now { assert InWrite(b, was, t, ind); }
    }
  }

  /** m = min(n - tot, BSIZE - ByteIn(off)): up to the end of the block. */
  function ChunkLength(e: nat, left: nat): (m: nat)
    ensures m <= left && ByteIn(e) + m <= BSIZE && (left > 0 ==> m > 0)
    ensures m < left ==> ByteIn(e + m) == 0
  {
    if left < BSIZE - ByteIn(e) then left else BSIZE - ByteIn(e)
  }

  /** How many blocks n bytes from off on touch. */
  function Span(off: nat, n: nat): nat { if n == 0 then 0 else BlockOf(off + n - 1) - BlockOf(off) + 1 }

  /** Where a write of n bytes from off on stands after `rounds` rounds: off is in block from,
      and between rounds the position is at the start of block from + rounds. */
  ghost predicate Pos(off: nat, n: nat, tot: nat, from: nat, rounds: nat) {
    && tot <= n && StartOf(from) <= off < StartOf(from) + BSIZE && (tot == 0 ==> rounds == 0)
    && (0 < tot < n ==> off + tot == StartOf(from + rounds)) && (tot > 0 ==> off + tot <= StartOf(from + rounds))
    && (rounds > 0 ==> StartOf(from + rounds - 1) < off + n)
  }

  lemma NextPos(off: nat, n: nat, tot: nat, from: nat, rounds: nat, m: nat)
    requires Pos(off, n, tot, from, rounds) && tot < n && m == ChunkLength(off + tot, n - tot)
    ensures BlockOf(off + tot) == from + rounds && Pos(off, n, tot + m, from, rounds + 1)
  {
  }

  lemma EndPos(off: nat, n: nat, tot: nat, from: nat, rounds: nat)
    requires Pos(off, n, tot, from, rounds)
    ensures rounds <= Span(off, n) && (tot == 0 || tot == n || ByteIn(off + tot) == 0)
    ensures from == BlockOf(off) && (off == StartOf(from) <==> ByteIn(off) == 0)
  {
  }

  /** How many of the rounds copied their bytes: all but one that ended the loop. */
  ghost function Done(r: Round, rounds: nat): nat { if r.Copied? || rounds == 0 then rounds else rounds - 1 }

  /** The block after the last of n bytes from off on. */
  ghost function EndBlock(off: nat, n: nat): nat { if n == 0 then BlockOf(off) else BlockOf(off + n - 1) + 1 }

  /** How the loop of writei ends, with tot bytes copied and logged and the first len of those
      that can be read in the file: all n bytes are copied, or there was no block, or the
      readable bytes, of which there are max, ended inside the block. */
  ghost predicate Ended(r: Round, off: nat, n: nat, max: nat, tot: nat, len: nat, from: nat, rounds: nat) {
    if r.Copied? then tot == len == n && Pos(off, n, tot, from, rounds)
    else
      && tot < n && rounds > 0 && Pos(off, n, tot, from, rounds - 1)
      && if r.NoSpace? then len == tot else tot <= len == max < n && off + max < StartOf(from + rounds)
  }

  lemma AtEnd(r: Round, off: nat, n: nat, max: nat, tot: nat, len: nat, from: nat, rounds: nat)
    requires Ended(r, off, n, max, tot, len, from, rounds)
    ensures tot <= n && rounds <= Span(off, n) && (tot == 0 || tot == n || ByteIn(off + tot) == 0)
    ensures from == BlockOf(off) && (off == StartOf(from) <==> ByteIn(off) == 0)
    ensures !r.Copied? ==> tot < n && BlockOf(off + tot) == from + rounds - 1
    ensures len > tot ==> len == max < n && len - tot < ChunkLength(off + tot, n - tot)
    ensures EndBlock(off, tot) <= from + Done(r, rounds)
  {
    EndPos(off, n, tot, from, if r.Copied? then rounds else rounds - 1);
  }

  /** A round for m bytes leads to the next position, or ends the loop. */
  lemma RoundEnds(r: Round, off: nat, n: nat, max: nat, tot: nat, len: nat, from: nat, rounds: nat, m: nat)
    requires Pos(off, n, tot, from, rounds) && tot < n && m == ChunkLength(off + tot, n - tot) && tot <= len
    requires if r.Copied? then len == tot + m else if r.Fault? then len == max < tot + m else len == tot
    ensures if r.Copied? then tot < len <= n && Pos(off, n, len, from, rounds + 1)
            else Ended(r, off, n, max, tot, len, from, rounds + 1)
  {
    NextPos(off, n, tot, from, rounds, m);
  }

  /** The state in which a write to a file began, in its block from: inodes and blocks, the
      blocks logged before, the stale buffers, and how many blocks were free. */
  datatype Begin =
    Begin(inodes: seq<Inode>, blocks: seq<Block>, disk: Disk, logged: set<nat>, stale: set<nat>, from: nat, free: nat)

  /** A write that starts inside a block does not add that block. */
  ghost predicate Few(off: nat, from: nat, t: Tally) {
    t.added <= t.rounds && (off != StartOf(from) && t.rounds > 0 ==> t.added < t.rounds)
  }

  /** A write that starts inside a block starts in a block that is there. */
  lemma FirstBlockMapped(g: Geometry, ip: Inode, blocks: seq<Block>, off: nat)
    requires GoodBlocks(g, blocks) && GoodInode(g, ip) && NoHoles(g, ip, blocks) && off <= ip.size
    ensures ByteIn(off) != 0 ==> Mapped(g, ip, blocks, BlockOf(off))
  {
    if ByteIn(off) != 0 {
      assert StartOf(BlockOf(off)) < ip.size;
    }
  }

  /** No block is free. */
  ghost predicate Full(used: set<nat>, size: nat) { forall b: nat :: b < size ==> b in used }

  /** Block bn of file i is there. */
  ghost predicate IsThere(g: Geometry, inodes: seq<Inode>, blocks: seq<Block>, i: nat, bn: nat) {
    AllGood(g, inodes, blocks) && i < |inodes| && Mapped(g, inodes[i], blocks, bn)
  }

  /** It is at address a. */
  ghost predicate IsAt(g: Geometry, inodes: seq<Inode>, blocks: seq<Block>, i: nat, bn: nat, a: nat) {
    IsThere(g, inodes, blocks, i, bn) && Addr(g, inodes[i], blocks, SlotOf(bn)) == a
  }

  /** Only the buffer of block bn is stale that was not before, and only if bytes were torn. */
  ghost predicate Torn(g: Geometry, inodes: seq<Inode>, blocks: seq<Block>, i: nat, bn: nat, torn: nat, was: set<nat>,
      now: set<nat>) {
    if torn == 0 then now == was
    else IsThere(g, inodes, blocks, i, bn) && now == was + {Addr(g, inodes[i], blocks, SlotOf(bn))}
  }

  class FileSystem {
    const g: Geometry
    const bmapstart: nat
    const inodestart: nat
    var bmap: Bitmap
    var blocks: seq<Block>
    var inodes: seq<Inode>         // the in-memory inodes
    var dinodes: seq<Inode>        // the inodes on disk
    ghost var used: set<nat>       // the blocks that the bitmap marks
    ghost var owner: Owner
    ghost var logged: set<nat>     // block numbers given to log_write
    ghost var stale: set<nat>      // buffers released with changes that were not logged

    ghost predicate Valid()
      reads this
    {
      && Matched(g, inodes, blocks, owner, 0, 0) && |dinodes| == |inodes|
      && Shows(bmap, g.size, used) && Exact(g, used, owner)
      && (forall i {:trigger NoHoles(g, inodes[i], blocks)} :: 0 <= i < |inodes| ==> NoHoles(g, inodes[i], blocks))
    }

    /** The file system that mkfs makes, before it adds files: n inodes without blocks, and
        only the blocks before the first data block in use. */
    constructor (first: nat, size: nat, n: nat, mapstart: nat, istart: nat)
      requires 0 < first <= size < U32
      ensures Valid() && g == Geometry(first, size) && bmapstart == mapstart && inodestart == istart
      ensures |inodes| == n && dinodes == inodes && forall i :: 0 <= i < n ==> inodes[i].size == 0
      ensures owner == map[] && stale == {} && forall b: nat :: b in used <==> b < first
    {
      g, bmapstart, inodestart := Geometry(first, size), mapstart, istart;
      bmap := seq(MapBlock(size) + 1, k => seq(BSIZE, j => 0 as bv8));
      blocks := seq(size, k => ZERO);
      inodes := seq(n, k => Inode(0, 0, seq(NDIRECT + 1, j => 0)));
      dinodes := seq(n, k => Inode(0, 0, seq(NDIRECT + 1, j => 0)));
      used, owner, logged, stale := {}, map[], {}, {};
      new;
      ZeroBits(bmap, size);
      MarkFirst(first);
    }

    /** The loop with which mkfs marks the blocks it has used, on an empty bitmap. */
    method MarkFirst(first: nat)
      requires Shows(bmap, g.size, used) && first <= g.size && used == {}
      modifies this`bmap, this`used
      ensures Shows(bmap, g.size, used) && forall b: nat :: b in used <==> b < first
    {
      var i := 0;
      while i < first
        invariant i <= first && Shows(bmap, g.size, used) && forall b: nat :: b in used <==> b < i
      {
        PutBitShows(bmap, g.size, used, i, true);
        bmap, used := PutBit(bmap, i, true), used + {i};
        i := i + 1;
      }
    }

    ghost function Now(): Disk
      reads this
    {
      Disk(blocks, bmap, bmapstart)
    }

    /** All that changed since d0, when `was` had been logged, is logged. */
    ghost predicate Notes(d0: Disk, was: set<nat>)
      reads this
    {
      was <= logged && Noted(d0, Now(), logged, {})
    }

    /** All that changed since the disk was d0, with inodes n0, is in log or stale. */
    ghost predicate AllLogged(d0: Disk, n0: seq<Inode>, log: set<nat>)
      reads this
    {
      && Noted(d0, Now(), log, stale) && |dinodes| == |n0|
      && forall j {:trigger dinodes[j]} :: 0 <= j < |n0| && dinodes[j] != n0[j] ==> IBlock(j) in log
    }

    /** How many blocks are free. */
    ghost function Free(): nat
      requires Shows(bmap, g.size, used)
      reads this
    {
      |FreeSet(used, g.size)|
    }

    /** The bitmap block that holds the bit of block b. */
    function BBlock(b: nat): (r: nat)
      ensures b < BPB ==> r == bmapstart
    { MapBlock(b) + bmapstart }

    /** Allocate the lowest free block and zero it; 0 if there is none. */
    method Balloc() returns (r: nat)
      requires GoodBlocks(g, blocks) && Shows(bmap, g.size, used) && 0 in used
      modifies this`bmap, this`used, this`blocks, this`logged
      ensures Shows(bmap, g.size, used) && old(Free()) == Free() + (if r == 0 then 0 else 1)
      ensures r == 0 ==> Full(used, g.size) && Free() == 0
                         && bmap == old(bmap) && used == old(used) && blocks == old(blocks) && logged == old(logged)
      ensures r != 0 ==> r < g.size && r !in old(used)
                         && (forall b: nat :: b < r ==> b in old(used))
                         && used == old(used) + {r}
                         && blocks == old(blocks)[r := ZERO] && logged == old(logged) + {BBlock(r), r}
      ensures Notes(old(Now()), old(logged))
    {
      NoChange(Now(), logged, {});
      var b := 0;
      ghost var q := 0;
      while b < g.size
        invariant b == MapStart(q) && bmap == old(bmap)
        invariant used == old(used) && blocks == old(blocks) && logged == old(logged)
        invariant forall c: nat :: c < b && c < g.size ==> c in used
        decreases g.size - b
      {
        var bi := FindFree(b, q);
        if bi < BPB && b + bi < g.size {
          SetUsed(b, bi, q);
          OneTaken(old(used), g.size, b + bi);
          ghost var d, log := Now(), logged;
          logged := logged + {b + bi};
          BlockChange(d, b + bi, ZERO, logged, {});
          blocks := blocks[b + bi := ZERO];
          NotedTwice(old(Now()), d, Now(), log, {}, logged, {}, logged, {});
          return b + bi;
        }
        b, q := b + BPB, q + 1;
      }
      assert FreeSet(used, g.size) == {};
      r := 0;
    }

    /** Mark block b + bi in use. */
    method SetUsed(b: nat, bi: nat, ghost q: nat)
      requires Shows(bmap, g.size, used) && b == MapStart(q) && bi < BPB && b + bi < g.size
      modifies this`bmap, this`used, this`logged
      ensures Shows(bmap, g.size, used) && used == old(used) + {b + bi}
      ensures logged == old(logged) + {BBlock(b + bi)} && Noted(old(Now()), Now(), logged, {})
    {
      assert MapBlock(b) == q == MapBlock(b + bi) by { BitOfBlock(q, bi); }
      SetInBlock(bmap, g.size, used, q, bi);
      MapChange(Now(), q, WithBit(bmap[q], bi, true), logged + {BBlock(b + bi)}, {});
      bmap, used := bmap[MapBlock(b) := WithBit(bmap[MapBlock(b)], bi, true)], used + {b + bi};
      logged := logged + {BBlock(b + bi)};
    }

    /** The inner loop of balloc: the first free bit of the bitmap block for block b. */
    method FindFree(b: nat, ghost q: nat) returns (bi: nat)
      requires Shows(bmap, g.size, used) && b == MapStart(q) && b < g.size
      ensures bi <= BPB && (bi < BPB && b + bi < g.size ==> b + bi !in used)
      ensures forall c: nat :: b <= c < b + bi && c < g.size ==> c in used
      ensures bi < BPB && b + bi >= g.size ==> b + bi == g.size
    {
      bi := 0;
      while bi < BPB && b + bi < g.size
        invariant 0 <= bi <= BPB && b + bi <= g.size
        invariant forall c: nat :: b <= c < b + bi && c < g.size ==> c in used
      {
        assert MapBlock(b) == q by { BitOfBlock(q, bi); }
        BitInBlock(bmap, g.size, used, q, bi);
        if !BitOf(bmap[MapBlock(b)], bi) {
          return;
        }
        bi := bi + 1;
      }
    }

    /** Free block b; false where the kernel panics with "freeing free block". */
    method Bfree(b: nat) returns (ok: bool)
      requires Shows(bmap, g.size, used) && b < g.size
      modifies this`bmap, this`used, this`logged
      ensures Shows(bmap, g.size, used) && ok == (b in old(used))
      ensures ok ==> used == old(used) - {b} && logged == old(logged) + {BBlock(b)}
      ensures !ok ==> bmap == old(bmap) && used == old(used) && logged == old(logged)
      ensures Notes(old(Now()), old(logged))
    {
      NoChange(Now(), logged, {});
      var bi := MapBit(b);
      PutBitShows(bmap, g.size, used, b, false);
      assert InUse(bmap, b) <==> b in used;
      if !BitOf(bmap[MapBlock(b)], bi) {
        return false;
      }
      MapChange(Now(), MapBlock(b), WithBit(bmap[MapBlock(b)], bi, false), logged + {BBlock(b)}, {});
      bmap, used := bmap[MapBlock(b) := WithBit(bmap[MapBlock(b)], bi, false)], used - {b};
      logged := logged + {BBlock(b)};
      ok := true;
    }

    /** addr = balloc(); if it succeeds, ip->addrs[s] = addr (twice in bmap). */
    method AllocateSlot(i: nat, s: nat) returns (addr: nat)
      requires Valid() && i < |inodes| && s <= INDIRECT && inodes[i].addrs[s] == 0
      modifies this`bmap, this`used, this`blocks, this`inodes, this`owner, this`logged
      ensures Valid() && Grown(g, old(inodes), old(blocks), inodes, blocks, i)
      ensures addr == 0 ==>
          bmap == old(bmap) && used == old(used) && blocks == old(blocks) && inodes == old(inodes)
          && owner == old(owner)
                            && logged == old(logged) && Full(used, g.size) && Free() == 0
      ensures addr != 0 ==> g.first <= addr < g.size && addr !in old(owner) && blocks == old(blocks)[addr := ZERO]
                            && old(Free()) == Free() + 1
                            && inodes == old(inodes)[i := old(inodes)[i].(addrs := old(inodes)[i].addrs[s := addr])]
                            && logged == old(logged) + {BBlock(addr), addr}
      ensures Notes(old(Now()), old(logged))
    {
      ghost var n0, b0, o0 := inodes, blocks, owner;
      addr := Balloc();
      if addr == 0 {
        SameGrown(g, inodes, blocks, i);
        return;
      }
      ZeroGrows(g, n0, b0, o0, addr, i);
      AssignKeepsMatched(g, n0, blocks, o0, i, s, addr);
      AssignGrows(g, n0, blocks, o0, i, s, addr);
      inodes := inodes[i := inodes[i].(addrs := inodes[i].addrs[s := addr])];
      owner := owner[addr := (i, s)];
      GrownTransitive(g, n0, b0, n0, blocks, inodes, blocks, i);
      forall j | 0 <= j < |inodes| ensures NoHoles(g, inodes[j], blocks) {
        GrownKeepsNoHoles(g, n0, b0, inodes, blocks, i, j);
      }
    }

    /** The same for word j of the indirect block. */
    method AllocateWord(i: nat, j: nat) returns (addr: nat)
      requires Valid() && i < |inodes| && j < NINDIRECT && inodes[i].addrs[INDIRECT] != 0
      requires Word(blocks[inodes[i].addrs[INDIRECT]], j) == 0
      modifies this`bmap, this`used, this`blocks, this`owner, this`logged
      ensures Valid() && Grown(g, old(inodes), old(blocks), inodes, blocks, i)
      ensures addr == 0 ==> bmap == old(bmap) && used == old(used) && blocks == old(blocks) && owner == old(owner)
                            && logged == old(logged) && Full(used, g.size) && Free() == 0
      ensures addr != 0 ==> old(Free()) == Free() + 1
                            && OnlyMaps(g, inodes[i], old(blocks), inodes[i], blocks, NDIRECT + j, NDIRECT + j + 1)
      ensures addr != 0 ==> g.first <= addr < g.size && Addr(g, inodes[i], blocks, INDIRECT + 1 + j) == addr
                            && logged == old(logged) + {BBlock(addr), addr, inodes[i].addrs[INDIRECT]}
      ensures Notes(old(Now()), old(logged))
    {
      ghost var b0, o0 := blocks, owner;
      var a := inodes[i].addrs[INDIRECT];
      IndirectIsOwned(g, inodes, blocks, owner, 0, 0, i);
      addr := Balloc();
      if addr == 0 {
        SameGrown(g, inodes, blocks, i);
        return;
      }
      ZeroGrows(g, inodes, b0, o0, addr, i);
      ghost var b1 := blocks;
      WordMaps(g, inodes, b0, o0, i, j, addr);
      AssignWordKeepsMatched(g, inodes, b1, o0, i, j, addr);
      AssignWordGrows(g, inodes, b1, o0, i, j, addr);
      PutThenGet(b1[a], j, addr, j);
      WordNoted(a, PutWord(blocks[a], j, addr), old(Now()));
      blocks := blocks[a := PutWord(blocks[a], j, addr)];
      logged := logged + {a};
      owner := owner[addr := (i, INDIRECT + 1 + j)];
      GrownTransitive(g, inodes, b0, inodes, b1, inodes, blocks, i);
      forall k | 0 <= k < |inodes| ensures NoHoles(g, inodes[k], blocks) {
        GrownKeepsNoHoles(g, inodes, b0, inodes, blocks, i, k);
      }
    }

    /** log_write of block a after a change to x. */
    lemma WordNoted(a: nat, x: Block, d0: Disk)
      requires Noted(d0, Now(), logged, {}) && a < |blocks|
      ensures Noted(d0, Now().(blocks := blocks[a := x]), logged + {a}, {})
    {
      var d := Now().(blocks := blocks[a := x]);
      BlockChange(Now(), a, x, logged + {a}, {});
      NotedTwice(d0, Now(), d, logged, {}, logged + {a}, {}, logged + {a}, {});
    }

    /** bmap for a direct block. */
    method BmapDirect(i: nat, bn: nat) returns (addr: nat, ghost maps: set<nat>)
      requires Valid() && i < |inodes| && bn < NDIRECT
      modifies this`bmap, this`used, this`blocks, this`inodes, this`owner, this`logged
      ensures Valid() && Grown(g, old(inodes), old(blocks), inodes, blocks, i)
      ensures addr != 0 ==> Mapped(g, inodes[i], blocks, bn) && Addr(g, inodes[i], blocks, SlotOf(bn)) == addr
      ensures addr == 0 ==> Full(used, g.size)
      ensures Charged(g, old(inodes)[i], old(blocks), inodes[i], blocks, bn, addr, old(Free()), Free())
      ensures Mapped(g, old(inodes)[i], old(blocks), bn) ==>
          unchanged(this) && maps == {} && addr == Addr(g, inodes[i], blocks, SlotOf(bn))
      ensures inodes[i].addrs[INDIRECT] == old(inodes)[i].addrs[INDIRECT]
      ensures |maps| <= 1 && (g.size <= BPB ==> maps <= {bmapstart})
      ensures RoundLogs(old(logged), logged, addr, maps, old(inodes)[i].addrs[INDIRECT], inodes[i].addrs[INDIRECT],
                        Mapped(g, old(inodes)[i], old(blocks), bn))
      ensures Notes(old(Now()), old(logged))
    {
      NoChange(Now(), logged, {});
      maps := {};
      addr := inodes[i].addrs[bn];
      assert SlotOk(g, inodes[i], blocks, owner, i, bn);
      if addr == 0 {
        addr := AllocateSlot(i, bn);
        if addr != 0 {
          SlotMaps(g, old(inodes), old(blocks), old(owner), i, bn, addr);
          maps := {BBlock(addr)};
        }
      } else {
        assert OwnerOk(g, inodes, blocks, owner, addr);
        SameGrown(g, inodes, blocks, i);
      }
    }

    /** bmap for a block that the indirect block lists; the indirect block exists. */
    method BmapWord(i: nat, bn: nat) returns (addr: nat, ghost maps: set<nat>)
      requires Valid() && i < |inodes| && NDIRECT <= bn < MAXFILE && inodes[i].addrs[INDIRECT] != 0
      modifies this`bmap, this`used, this`blocks, this`owner, this`logged
      ensures Valid() && Grown(g, old(inodes), old(blocks), inodes, blocks, i)
      ensures addr != 0 ==> Mapped(g, inodes[i], blocks, bn) && Addr(g, inodes[i], blocks, SlotOf(bn)) == addr
      ensures addr == 0 ==> Full(used, g.size)
      ensures Charged(g, old(inodes)[i], old(blocks), inodes[i], blocks, bn, addr, old(Free()), Free())
      ensures Mapped(g, old(inodes)[i], old(blocks), bn) ==>
          unchanged(this) && maps == {} && addr == Addr(g, inodes[i], blocks, SlotOf(bn))
      ensures |maps| <= 1 && (g.size <= BPB ==> maps <= {bmapstart})
      ensures RoundLogs(old(logged), logged, addr, maps, inodes[i].addrs[INDIRECT], inodes[i].addrs[INDIRECT],
                        Mapped(g, old(inodes)[i], old(blocks), bn))
      ensures Notes(old(Now()), old(logged))
    {
      NoChange(Now(), logged, {});
      maps := {};
      addr := Word(blocks[inodes[i].addrs[INDIRECT]], bn - NDIRECT);
      assert SlotOk(g, inodes[i], blocks, owner, i, SlotOf(bn));
      if addr == 0 {
        addr := AllocateWord(i, bn - NDIRECT);
        if addr != 0 { maps := {BBlock(addr)}; }
      } else {
        assert OwnerOk(g, inodes, blocks, owner, addr);
        SameGrown(g, inodes, blocks, i);
      }
    }

    /** bmap past the direct blocks: first the indirect block, then the word in it. */
    method BmapIndirect(i: nat, bn: nat) returns (addr: nat, ghost maps: set<nat>)
      requires Valid() && i < |inodes| && NDIRECT <= bn < MAXFILE
      modifies this`bmap, this`used, this`blocks, this`inodes, this`owner, this`logged
      ensures Valid() && Grown(g, old(inodes), old(blocks), inodes, blocks, i)
      ensures addr != 0 ==> Mapped(g, inodes[i], blocks, bn) && Addr(g, inodes[i], blocks, SlotOf(bn)) == addr
      ensures addr == 0 ==> Full(used, g.size)
      ensures Charged(g, old(inodes)[i], old(blocks), inodes[i], blocks, bn, addr, old(Free()), Free())
      ensures Mapped(g, old(inodes)[i], old(blocks), bn) ==>
          unchanged(this) && maps == {} && addr == Addr(g, inodes[i], blocks, SlotOf(bn))
      ensures g.size <= BPB ==> maps <= {bmapstart}
      ensures RoundLogs(old(logged), logged, addr, maps, old(inodes)[i].addrs[INDIRECT], inodes[i].addrs[INDIRECT],
                        Mapped(g, old(inodes)[i], old(blocks), bn))
      ensures Notes(old(Now()), old(logged))
    {
      NoChange(Now(), logged, {});
      maps := {};
      SameGrown(g, inodes, blocks, i);
      if inodes[i].addrs[INDIRECT] != 0 {
        addr, maps := BmapWord(i, bn);
        return;
      }
      var a := AllocateSlot(i, INDIRECT);
      if a == 0 {
        return 0, maps;
      }
      SlotMaps(g, old(inodes), old(blocks), old(owner), i, INDIRECT, a);
      ghost var n1, b1, d1, log1 := inodes, blocks, Now(), logged;
      addr, maps := BmapWord(i, bn);
      GrownTransitive(g, old(inodes), old(blocks), n1, b1, inodes, blocks, i);
      NotedTwice(old(Now()), d1, Now(), log1, {}, logged, {}, logged, {});
      IndirectAdds(old(logged), logged, addr, maps, a, BBlock(a));
      maps := {BBlock(a)} + maps;
    }

    /** bmap: the address of block bn of the file, allocated if need be. Some(0) is out of
        space, None the panic for a block number past MAXFILE. Blocks already mapped stay
        and other files are untouched. */
    method Bmap(i: nat, bn: nat) returns (r: Option<nat>, ghost maps: set<nat>)
      requires Valid() && i < |inodes|
      modifies this`bmap, this`used, this`blocks, this`inodes, this`owner, this`logged
      ensures Valid() && Grown(g, old(inodes), old(blocks), inodes, blocks, i)
      ensures r.None? <==> bn >= MAXFILE
      ensures r.Some? && r.value != 0 ==>
          Mapped(g, inodes[i], blocks, bn) && Addr(g, inodes[i], blocks, SlotOf(bn)) == r.value
      ensures r == Some(0) ==> Full(used, g.size)
      ensures r.Some? ==> Charged(g, old(inodes)[i], old(blocks), inodes[i], blocks, bn, r.value, old(Free()), Free())
      ensures r.None? ==> unchanged(this) && maps == {}
      ensures Mapped(g, old(inodes)[i], old(blocks), bn) ==>
          unchanged(this) && maps == {} && r == Some(Addr(g, inodes[i], blocks, SlotOf(bn)))
      ensures g.size <= BPB ==> maps <= {bmapstart}
      ensures r.Some? ==> RoundLogs(old(logged), logged, r.value, maps, old(inodes)[i].addrs[INDIRECT],
                                    inodes[i].addrs[INDIRECT], Mapped(g, old(inodes)[i], old(blocks), bn))
      ensures Notes(old(Now()), old(logged))
    {
      NoChange(Now(), logged, {});
      var addr;
      if bn < NDIRECT {
        addr, maps := BmapDirect(i, bn);
        r := Some(addr);
      } else if bn < MAXFILE {
        addr, maps := BmapIndirect(i, bn);
        r := Some(addr);
      } else {
        SameGrown(g, inodes, blocks, i);
        r, maps := None, {};
      }
    }

    /** Copy the in-memory inode to disk; IPB inodes share a block. */
    method Iupdate(i: nat)
      requires Valid() && i < |inodes|
      modifies this`dinodes, this`logged
      ensures Valid() && dinodes == Updated(old(dinodes), inodes, [i], 1) && dinodes == old(dinodes)[i := inodes[i]]
      ensures logged == old(logged) + {IBlock(i)}
    {
      dinodes := dinodes[i := inodes[i]];
      logged := logged + {IBlock(i)};
    }

    /** The block that holds inode i. */
    function IBlock(i: nat): nat { i / 16 + inodestart }

    /** The bitmap is exact, while itrunc has dealt with upto indirect words of inode gone. */
    ghost predicate Sound(gone: nat, upto: nat)
      reads this
    {
      && Matched(g, inodes, blocks, owner, gone, upto) && |dinodes| == |inodes|
      && Shows(bmap, g.size, used) && Exact(g, used, owner)
    }

    /** bfree, in the course of itrunc. */
    method FreeOne(a: nat, ghost d0: Disk, ghost was: set<nat>) returns (ok: bool)
      requires Shows(bmap, g.size, used) && a < g.size && Notes(d0, was)
      modifies this`bmap, this`used, this`logged
      ensures Shows(bmap, g.size, used) && ok == (a in old(used)) && used == old(used) - {a} && Notes(d0, was)
    {
      ghost var d, log := Now(), logged;
      ok := Bfree(a);
      NotedTwice(d0, d, Now(), log, {}, logged, {}, logged, {});
    }

    /** The first loop of itrunc. */
    method FreeDirect(i: nat) returns (ok: bool)
      requires Sound(0, 0) && i < |inodes|
      modifies this`bmap, this`used, this`inodes, this`owner, this`logged
      ensures ok && Sound(0, 0) && |inodes| == |old(inodes)|
      ensures forall j :: 0 <= j < |inodes| && j != i ==> inodes[j] == old(inodes)[j]
      ensures inodes[i] == old(inodes)[i].(addrs := inodes[i].addrs)
          && inodes[i].addrs[INDIRECT] == old(inodes)[i].addrs[INDIRECT]
      ensures forall s :: 0 <= s < NDIRECT ==> inodes[i].addrs[s] == 0
      ensures Notes(old(Now()), old(logged))
    {
      ok := true;
      NoChange(Now(), logged, {});
      var s := 0;
      while s < NDIRECT
        invariant ok && s <= NDIRECT && Sound(0, 0) && |inodes| == |old(inodes)|
        invariant forall j :: 0 <= j < |inodes| && j != i ==> inodes[j] == old(inodes)[j]
        invariant inodes[i] == old(inodes)[i].(addrs := inodes[i].addrs)
            && inodes[i].addrs[INDIRECT] == old(inodes)[i].addrs[INDIRECT]
        invariant forall t :: 0 <= t < s ==> inodes[i].addrs[t] == 0
        invariant Notes(old(Now()), old(logged))
      {
        var a := inodes[i].addrs[s];
        if a != 0 {
          DropKeepsMatched(g, inodes, blocks, owner, i, s);
          ok := FreeOne(a, old(Now()), old(logged));
          if !ok { return; }
          inodes := inodes[i := inodes[i].(addrs := inodes[i].addrs[s := 0])];
          owner := owner - {a};
        }
        s := s + 1;
      }
    }

    /** The rest of itrunc for an inode with an indirect block. */
    method FreeIndirect(i: nat) returns (ok: bool)
      requires Sound(0, 0) && i < |inodes| && inodes[i].addrs[INDIRECT] != 0
      modifies this`bmap, this`used, this`inodes, this`owner, this`logged
      ensures ok && Sound(0, 0)
      ensures inodes == old(inodes)[i := old(inodes)[i].(addrs := old(inodes)[i].addrs[INDIRECT := 0])]
      ensures Notes(old(Now()), old(logged))
    {
      NoChange(Now(), logged, {});
      NothingGone(g, inodes, blocks, owner, i);
      ok := true;
      var a, j := inodes[i].addrs[INDIRECT], 0;
      while j < NINDIRECT
        invariant ok && j <= NINDIRECT && Sound(i, j) && inodes == old(inodes) && Notes(old(Now()), old(logged))
      {
        var w := Word(blocks[a], j);
        DropWordKeepsMatched(g, inodes, blocks, owner, i, j);
        if w != 0 {
          ok := FreeOne(w, old(Now()), old(logged));
          if !ok { return; }
        }
        owner := owner - {w};
        j := j + 1;
      }
      DropIndirectKeepsMatched(g, inodes, blocks, owner, i);
      ok := FreeOne(a, old(Now()), old(logged));
      if !ok { return; }
      inodes := inodes[i := inodes[i].(addrs := inodes[i].addrs[INDIRECT := 0])];
      owner := owner - {a};
    }

    /** itrunc frees every block of the file and no other, without ever freeing a free
        block (ok is false where the kernel would panic). */
    method Itrunc(i: nat) returns (ok: bool)
      requires Valid() && i < |inodes|
      modifies this`bmap, this`used, this`inodes, this`dinodes, this`owner, this`logged
      ensures ok && Valid()
      ensures inodes == old(inodes)[i := Inode(old(inodes)[i].kind, 0, seq(NDIRECT + 1, k => 0))]
      ensures dinodes == old(dinodes)[i := inodes[i]]
      ensures forall b :: b in owner <==> b in old(owner) && old(owner)[b].0 != i
      ensures forall b :: b in owner ==> owner[b] == old(owner)[b]
      ensures AllLogged(old(Now()), old(dinodes), logged) && IBlock(i) in logged
    {
      ok := FreeDirect(i);
      ghost var d, log := Now(), logged;
      NoChange(d, logged, {});
      if inodes[i].addrs[INDIRECT] != 0 {
        ok := FreeIndirect(i);
      }
      NotedTwice(old(Now()), d, Now(), log, {}, logged, {}, logged + {IBlock(i)}, stale);
      assert inodes[i].addrs == seq(NDIRECT + 1, k => 0);
      SameOwners(g, old(inodes), blocks, old(owner), inodes, owner, i);
      ResizeKeepsMatched(g, inodes, blocks, owner, i, 0);
      inodes := inodes[i := inodes[i].(size := 0)];
      Iupdate(i);
    }

    /** The rounds of a write to inode i, which began with inodes n0 and `was` logged. */
    ghost predicate Logs(i: nat, n0: seq<Inode>, was: set<nat>, t: Tally)
      reads this
    {
      && i < |inodes| && i < |n0| && |inodes[i].addrs| > INDIRECT && |n0[i].addrs| > INDIRECT
      && WriteLogs(was, logged, t, n0[i].addrs[INDIRECT], inodes[i].addrs[INDIRECT])
      && (g.size <= BPB ==> t.maps <= {bmapstart})
    }

    /** Block bn was not there, and none is free. */
    ghost predicate NoRoom(n0: seq<Inode>, b0: seq<Block>, i: nat, bn: nat)
      requires GoodBlocks(g, b0) && i < |n0| && GoodInode(g, n0[i])
      reads this
    {
      Full(used, g.size) && !Mapped(g, n0[i], b0, bn)
    }

    /** A write has been through its blocks before block to: it took the free blocks that it
        needed, or else (r is NoSpace) there were not enough for the last one. */
    ghost predicate Took(i: nat, to: nat, r: Round, w: Begin)
      reads this
    {
      && AllGood(g, w.inodes, w.blocks) && AllGood(g, inodes, blocks) && i < |w.inodes| && i < |inodes|
      && Shows(bmap, g.size, used)
      && if r.NoSpace?
         then to > 0 && NoRoom(w.inodes, w.blocks, i, to - 1) && w.free < Need(g, w.inodes[i], w.blocks, w.from, to)
         else Spent(g, w.inodes[i], w.blocks, inodes[i], blocks, w.from, to, w.free, Free())
    }

    /** A write to inode i that began with w has put data into the file from off on. */
    ghost predicate Writing(i: nat, off: nat, data: seq<byte>, to: nat, r: Round, t: Tally, w: Begin)
      reads this
    {
      forall j: nat {:trigger WritingTo(j, off, data, to, r, t, w)} :: j == i ==> WritingTo(j, off, data, to, r, t, w)
    }

    ghost predicate WritingTo(i: nat, off: nat, data: seq<byte>, to: nat, r: Round, t: Tally, w: Begin)
      reads this
    {
      && Valid() && i < |inodes| && Written(g, w.inodes, w.blocks, inodes, blocks, i, off, data)
      && Logs(i, w.inodes, w.logged, t) && Took(i, to, r, w)
    }

    /** All that a write that began with w has changed is logged or stale, and its blocks of the
        file before block hi are logged. */
    ghost predicate Journal(i: nat, hi: nat, w: Begin, torn: set<nat>)
      reads this
    {
      && i < |inodes| && w.disk == Disk(w.blocks, w.disk.bmap, bmapstart) && Noted(w.disk, Now(), logged, torn)
      && DataLogged(g, inodes[i], blocks, logged, w.from, hi)
    }

    /** A change to data block a, which is not logged yet. */
    lemma ChangeNoted(i: nat, bn: nat, hi: nat, a: nat, x: Block, w: Begin)
      requires Valid() && Journal(i, hi, w, stale) && |x| == BSIZE
      requires Mapped(g, inodes[i], blocks, bn) && Addr(g, inodes[i], blocks, SlotOf(bn)) == a
      ensures Noted(w.disk, Now().(blocks := blocks[a := x]), logged, if x == blocks[a] then stale else stale + {a})
      ensures DataLogged(g, inodes[i], blocks[a := x], logged, w.from, hi)
    {
      LoggedWritten(g, inodes, blocks, owner, i, bn, x, logged, w.from, hi);
      if x == blocks[a] {
        assert blocks[a := x] == blocks;
      } else {
        var d := Now().(blocks := blocks[a := x]);
        BlockChange(Now(), a, x, logged, stale + {a});
        NotedTwice(w.disk, Now(), d, logged, stale, logged, stale + {a}, logged, stale + {a});
      }
    }

    /** Copy d into the buffer of block a, which holds byte e of the file. */
    method PutBytes(i: nat, e: nat, a: nat, d: seq<byte>, ghost off: nat, ghost data: seq<byte>, ghost to: nat,
        ghost t: Tally, ghost w: Begin, ghost hi: nat)
      requires Writing(i, off, data, to, Copied, t, w) && e == off + |data| && ByteIn(e) + |d| <= BSIZE
      requires Journal(i, hi, w, stale)
      requires IsAt(g, inodes, blocks, i, BlockOf(e), a)
      modifies this`blocks
      ensures Writing(i, off, data + d, to, Copied, t, w) && IsAt(g, inodes, blocks, i, BlockOf(e), a)
      ensures Journal(i, hi, w, if d == [] then stale else stale + {a})
    {
      assert WritingTo(i, off, data, to, Copied, t, w);
      var x := Patch(blocks[a], ByteIn(e), d);
      assert d == [] ==> x == blocks[a];
      ChangeNoted(i, BlockOf(e), hi, a, x, w);
      PatchWrites(g, w.inodes, w.blocks, inodes, blocks, owner, i, off, data, d);
      PatchKeepsNoHoles(g, inodes, blocks, owner, i, BlockOf(e), x);
      DataWrite(g, inodes, blocks, owner, i, BlockOf(e), x);
      SpentStays(g, w.inodes[i], w.blocks, inodes[i], blocks, blocks[a := x], w.from, to, w.free, Free());
      blocks := blocks[a := x];
      assert WritingTo(i, off, data + d, to, Copied, t, w);
    }

    /** bmap for block bn, in the course of a write. */
    method NextBlock(i: nat, bn: nat, ghost off: nat, ghost data: seq<byte>, ghost t: Tally, ghost w: Begin)
      returns (a: nat, ghost t': Tally)
      requires Writing(i, off, data, bn, Copied, t, w) && w.from <= bn < MAXFILE && Journal(i, bn, w, stale)
      modifies this`bmap, this`used, this`blocks, this`inodes, this`owner, this`logged
      ensures Writing(i, off, data, bn + 1, if a == 0 then NoSpace else Copied, t', w) && Journal(i, bn, w, stale)
      ensures a != 0 ==> IsAt(g, inodes, blocks, i, bn, a) && a in t'.data
      ensures t'.rounds == t.rounds + 1
          && t'.added == if IsThere(g, w.inodes, w.blocks, i, bn) then t.added else t.added + 1
    {
      assert WritingTo(i, off, data, bn, Copied, t, w);
      ghost var n1, b1, mid, mapped, free1 := inodes, blocks, logged, Mapped(g, w.inodes[i], w.blocks, bn), Free();
      ghost var d1 := Now();
      assert StaysMapped(g, w.inodes[i], w.blocks, n1[i], b1, bn);
      var r, maps := Bmap(i, bn);
      NotedTwice(w.disk, d1, Now(), mid, stale, logged, {}, logged, stale);
      LoggedGrown(g, n1, b1, inodes, blocks, i, mid, logged, w.from, bn);
      GrownKeepsWritten(g, w.inodes, w.blocks, n1, b1, inodes, blocks, i, off, data);
      a, t' := r.value, Add(t, r.value, maps, mapped);
      SpendMore(g, w.inodes[i], w.blocks, n1[i], b1, inodes[i], blocks, w.from, bn, a, w.free, free1, Free());
      RoundAdds(w.logged, mid, logged, t, a, maps, w.inodes[i].addrs[INDIRECT], n1[i].addrs[INDIRECT],
          inodes[i].addrs[INDIRECT], mapped);
      assert WritingTo(i, off, data, bn + 1, if a == 0 then NoSpace else Copied, t', w);
    }

    /** The copy and what follows it: log_write, or break when the copy failed. The file then
        has the first len bytes of src. */
    method CopyChunk(i: nat, off: nat, tot: nat, m: nat, ghost bn: nat, a: nat, src: seq<byte>, ghost t: Tally,
        ghost w: Begin)
      returns (r: Round, ghost len: nat)
      requires tot <= |src| && Writing(i, off, src[..tot], bn + 1, Copied, t, w) && ByteIn(off + tot) + m <= BSIZE
      requires bn == BlockOf(off + tot) && IsAt(g, inodes, blocks, i, bn, a) && a in t.data && Journal(i, bn, w, stale)
      modifies this`blocks, this`logged, this`stale
      ensures Journal(i, if r.Copied? then bn + 1 else bn, w, stale)
      ensures r != NoSpace && tot <= len <= |src| && Writing(i, off, src[..len], bn + 1, r, t, w)
      ensures if r.Copied? then len == tot + m else len == |src| < tot + m
      ensures Torn(g, inodes, blocks, i, bn, if r.Copied? then 0 else len - tot, old(stale), stale)
    {
      var k := if tot + m > |src| then |src| - tot else m;
      assert src[..tot] + src[tot..tot + k] == src[..tot + k];
      PutBytes(i, off + tot, a, src[tot..tot + k], off, src[..tot], bn + 1, t, w, bn);
      len := tot + k;
      assert WritingTo(i, off, src[..len], bn + 1, Copied, t, w);
      if k < m {
        stale := if k > 0 then stale + {a} else stale;
        assert WritingTo(i, off, src[..len], bn + 1, Fault, t, w);
        return Fault, len;
      }
      DataAdds(w.logged, logged, t, w.inodes[i].addrs[INDIRECT], inodes[i].addrs[INDIRECT], a);
      NoChange(Now(), logged, stale + {a});
      NotedTwice(w.disk, Now(), Now(), logged, if k == 0 then stale else stale + {a}, logged, {}, logged, stale + {a});
      NowLogged(w.disk, Now(), logged, stale, a);
      LoggedMore(g, inodes[i], inodes[i], blocks, logged, logged + {a}, w.from, bn, bn + 1);
      logged := logged + {a};
      assert WritingTo(i, off, src[..len], bn + 1, Copied, t, w);
      r := Copied;
    }

    /** One round of writei's loop, for m bytes at byte off + tot of the file, in block bn. src
        holds the source bytes that can be read: a copy that runs past them fails, after
        copying what it could into the buffer, which is then released without log_write. */
    method WriteChunk(i: nat, off: nat, tot: nat, m: nat, bn: nat, src: seq<byte>, ghost t: Tally, ghost w: Begin)
      returns (r: Round, ghost len: nat, ghost t': Tally)
      requires tot <= |src| && Writing(i, off, src[..tot], bn, Copied, t, w) && ByteIn(off + tot) + m <= BSIZE
      requires bn == BlockOf(off + tot) && w.from <= bn < MAXFILE && Journal(i, bn, w, stale)
      modifies this`bmap, this`used, this`blocks, this`inodes, this`owner, this`logged, this`stale
      ensures tot <= len <= |src| && Writing(i, off, src[..len], bn + 1, r, t', w)
      ensures Journal(i, if r.Copied? then bn + 1 else bn, w, stale)
      ensures if r.Copied? then len == tot + m else if r.Fault? then len == |src| < tot + m else len == tot
      ensures Torn(g, inodes, blocks, i, bn, if r.Copied? then 0 else len - tot, old(stale), stale)
      ensures t'.rounds == t.rounds + 1
          && t'.added == if IsThere(g, w.inodes, w.blocks, i, bn) then t.added else t.added + 1
    {
      var a;
      a, t' := NextBlock(i, bn, off, src[..tot], t, w);
      if a == 0 {
        return NoSpace, tot, t';
      }
      r, len := CopyChunk(i, off, tot, m, bn, a, src, t', w);
    }

    /** One round of writei's loop. */
    method WriteRound(i: nat, off: nat, n: nat, src: seq<byte>, tot: nat, ghost t: Tally, ghost w: Begin)
      returns (r: Round, tot': nat, ghost len: nat, ghost t': Tally)
      requires tot <= |src| && Writing(i, off, src[..tot], w.from + t.rounds, Copied, t, w)
      requires Pos(off, n, tot, w.from, t.rounds) && Few(off, w.from, t) && tot < n && off + n <= MAXBYTES
      requires off != StartOf(w.from) ==> IsThere(g, w.inodes, w.blocks, i, w.from)
      requires Journal(i, w.from + t.rounds, w, stale)
      modifies this`bmap, this`used, this`blocks, this`inodes, this`owner, this`logged, this`stale
      ensures Journal(i, w.from + Done(r, t'.rounds), w, stale)
      ensures len <= |src| && Writing(i, off, src[..len], w.from + t'.rounds, r, t', w)
      ensures t'.rounds == t.rounds + 1 && Few(off, w.from, t') && tot' <= len
      ensures Torn(g, inodes, blocks, i, w.from + t.rounds, len - tot', old(stale), stale)
      ensures if r.Copied? then tot < tot' == len <= n && Pos(off, n, tot', w.from, t'.rounds)
              else tot' == tot && Ended(r, off, n, |src|, tot, len, w.from, t'.rounds)
    {
      var m := ChunkLength(off + tot, n - tot);
      NextPos(off, n, tot, w.from, t.rounds, m);
      var bn := BlockOf(off + tot);
      assert bn == w.from + t.rounds;
      r, len, t' := WriteChunk(i, off, tot, m, bn, src, t, w);
      assert bn + 1 == w.from + t'.rounds;
      RoundEnds(r, off, n, |src|, tot, len, w.from, t.rounds, m);
      tot' := if r == Copied then tot + m else tot;
    }

    /** The loop of writei. */
    method WriteLoop(i: nat, off: nat, n: nat, src: seq<byte>, ghost w: Begin)
      returns (tot: nat, ghost len: nat, ghost t: Tally, r: Round)
      requires Writing(i, off, src[..0], w.from, Copied, Tally(0, 0, {}, {}), w) && stale == w.stale
      requires Journal(i, w.from, w, stale)
      requires off + n <= MAXBYTES && Pos(off, n, 0, w.from, 0)
      requires off != StartOf(w.from) ==> IsThere(g, w.inodes, w.blocks, i, w.from)
      modifies this`bmap, this`used, this`blocks, this`inodes, this`owner, this`logged, this`stale
      ensures tot <= len <= |src| && Writing(i, off, src[..len], w.from + t.rounds, r, t, w)
      ensures Few(off, w.from, t) && Ended(r, off, n, |src|, tot, len, w.from, t.rounds)
      ensures Journal(i, w.from + Done(r, t.rounds), w, stale)
      ensures if r.Copied? then stale == w.stale
              else Torn(g, inodes, blocks, i, w.from + t.rounds - 1, len - tot, w.stale, stale)
    {
      tot, len, t, r := 0, 0, Tally(0, 0, {}, {}), Copied;
      while tot < n
        invariant tot == len <= |src| && r == Copied && stale == w.stale
        invariant Writing(i, off, src[..len], w.from + t.rounds, r, t, w)
        invariant Pos(off, n, tot, w.from, t.rounds) && Few(off, w.from, t)
        invariant Journal(i, w.from + t.rounds, w, stale)
        decreases n - tot
      {
        r, tot, len, t := WriteRound(i, off, n, src, tot, t, w);
        if r != Copied {
          return;
        }
      }
    }

    /** A write stops short at the end of the readable source, or else before a block for which
        the blocks that were free at first do not last. */
    ghost predicate Stopped(i: nat, off: nat, tot: nat, torn: nat, src: seq<byte>, n0: seq<Inode>, b0: seq<Block>,
        free0: nat)
      requires AllGood(g, n0, b0) && i < |n0|
      reads this
    {
      if free0 < Need(g, n0[i], b0, BlockOf(off), BlockOf(off + tot) + 1)
      then torn == 0 && NoRoom(n0, b0, i, BlockOf(off + tot))
      else tot + torn == |src|
    }

    /** What the bytes of a write are, and why it stopped. */
    ghost predicate CopiedIn(i: nat, off: nat, n: nat, src: seq<byte>, tot: nat, torn: nat, t: Tally, w: Begin)
      reads this
    {
      forall j: nat {:trigger CopiedTo(j, off, n, src, tot, torn, t, w)} :: j == i ==>
        CopiedTo(j, off, n, src, tot, torn, t, w)
    }

    ghost predicate CopiedTo(i: nat, off: nat, n: nat, src: seq<byte>, tot: nat, torn: nat, t: Tally, w: Begin)
      reads this
    {
      && Valid() && tot + torn <= |src| && Written(g, w.inodes, w.blocks, inodes, blocks, i, off, src[..tot + torn])
      && Torn(g, inodes, blocks, i, BlockOf(off + tot), torn, w.stale, stale) && Logs(i, w.inodes, w.logged, t)
      && tot <= n && t.rounds <= Span(off, n) && (tot == 0 || tot == n || ByteIn(off + tot) == 0)
      && (ByteIn(off) != 0 && t.rounds > 0 ==> t.added < t.rounds)
      && (tot < n ==> Stopped(i, off, tot, torn, src, w.inodes, w.blocks, w.free))
      && (torn > 0 ==> tot + torn == |src| < n && torn < ChunkLength(off + tot, n - tot))
    }

    lemma AfterLoop(i: nat, off: nat, n: nat, src: seq<byte>, tot: nat, len: nat, r: Round, t: Tally, w: Begin)
      requires tot <= len <= |src| && WritingTo(i, off, src[..len], w.from + t.rounds, r, t, w)
      requires Few(off, w.from, t) && Ended(r, off, n, |src|, tot, len, w.from, t.rounds)
      requires if r.Copied? then stale == w.stale
               else Torn(g, inodes, blocks, i, w.from + t.rounds - 1, len - tot, w.stale, stale)
      ensures CopiedTo(i, off, n, src, tot, len - tot, t, w) && EndBlock(off, tot) <= w.from + Done(r, t.rounds)
    {
      AtEnd(r, off, n, |src|, tot, len, w.from, t.rounds);
    }

    /** The bytes of a write. */
    method WriteBytes(i: nat, off: nat, n: nat, src: seq<byte>, ghost w: Begin)
      returns (tot: nat, ghost torn: nat, ghost t: Tally)
      requires Valid() && i < |inodes| && off <= inodes[i].size && off + n <= MAXBYTES
      requires w == Begin(inodes, blocks, Now(), logged, stale, BlockOf(off), Free())
      modifies this`bmap, this`used, this`blocks, this`inodes, this`owner, this`logged, this`stale
      ensures CopiedIn(i, off, n, src, tot, torn, t, w) && |inodes| == |old(inodes)|
      ensures Noted(w.disk, Now(), logged, stale)
      ensures DataLogged(g, inodes[i], blocks, logged, BlockOf(off), EndBlock(off, tot))
    {
      NoChange(Now(), logged, stale);
      FirstBlockMapped(g, inodes[i], blocks, off);
      NothingWritten(g, inodes, blocks, i, off);
      var r;
      ghost var len;
      assert WritingTo(i, off, src[..0], w.from, Copied, Tally(0, 0, {}, {}), w);
      tot, len, t, r := WriteLoop(i, off, n, src, w);
      assert WritingTo(i, off, src[..len], w.from + t.rounds, r, t, w);
      AfterLoop(i, off, n, src, tot, len, r, t, w);
      LoggedMore(g, inodes[i], inodes[i], blocks, logged, logged, w.from, w.from + Done(r, t.rounds),
          EndBlock(off, tot));
      torn := len - tot;
    }

    /** What writei leaves when it returns tot: the file is its old contents with the written
        bytes laid over them, other files keep theirs, and the inode is on disk. It stops
        short only at the end of the readable source or of the free blocks, of which there
        were free0. */
    ghost predicate Wrote(i: nat, src: seq<byte>, off: nat, n: nat, tot: nat, torn: nat, n0: seq<Inode>,
        b0: seq<Block>, d0: seq<Inode>, stale0: set<nat>, free0: nat)
      requires AllGood(g, n0, b0) && i < |n0| == |d0| && off <= n0[i].size
      reads this
    {
      && Valid() && |inodes| == |n0| && tot <= n && tot + torn <= |src|
      && inodes[i].kind == n0[i].kind && inodes[i].size == (if off + tot > n0[i].size then off + tot else n0[i].size)
      && dinodes == d0[i := inodes[i]]
      && Contents(g, inodes[i], blocks) == Splice(Contents(g, n0[i], b0), off, src[..tot + torn])[..inodes[i].size]
      && (forall j :: 0 <= j < |inodes| && j != i ==>
          inodes[j] == n0[j] && Contents(g, inodes[j], blocks) == Contents(g, n0[j], b0))
      && (tot < n ==> Stopped(i, off, tot, torn, src, n0, b0, free0))
      && (torn > 0 ==> tot + torn == |src| < n && torn < ChunkLength(off + tot, n - tot))
      && (tot == 0 || tot == n || ByteIn(off + tot) == 0)
      && Torn(g, inodes, blocks, i, BlockOf(off + tot), torn, stale0, stale)
    }

    /** The blocks that a write logs, besides the inode's block. */
    ghost predicate LoggedFor(i: nat, off: nat, n: nat, t: Tally, n0: seq<Inode>, was: set<nat>)
      reads this
    {
      && Logs(i, n0, was, t) && t.rounds <= Span(off, n) && (ByteIn(off) != 0 && t.rounds > 0 ==> t.added < t.rounds)
    }

    /** writei after its checks. */
    method WriteAt(i: nat, src: seq<byte>, off: nat, n: nat) returns (tot: nat, ghost torn: nat, ghost t: Tally)
      requires Valid() && i < |inodes| && off <= inodes[i].size && off + n <= MAXBYTES
      modifies this`bmap, this`used, this`blocks, this`inodes, this`dinodes, this`owner, this`logged, this`stale
      ensures Wrote(i, src, off, n, tot, torn, old(inodes), old(blocks), old(dinodes), old(stale), old(Free()))
      ensures LoggedFor(i, off, n, t, old(inodes), old(logged) + {IBlock(i)})
      ensures AllLogged(old(Now()), old(dinodes), logged) && IBlock(i) in logged
      ensures DataLogged(g, inodes[i], blocks, logged, BlockOf(off), EndBlock(off, tot))
    {
      ghost var w := Begin(inodes, blocks, Now(), logged, stale, BlockOf(off), Free());
      tot, torn, t := WriteBytes(i, off, n, src, w);
      assert CopiedTo(i, off, n, src, tot, torn, t, w);
      ghost var ip, d, log := inodes[i], Now(), logged;
      EndWrite(i, off, tot, src[..tot + torn], old(inodes), old(blocks));
      InodeAdds(old(logged), logged, t, old(inodes)[i].addrs[INDIRECT], inodes[i].addrs[INDIRECT], IBlock(i));
      Iupdate(i);
      NoChange(d, log, stale);
      NotedTwice(old(Now()), d, d, log, stale, log, stale, logged, stale);
      LoggedMore(g, ip, inodes[i], blocks, log, logged, BlockOf(off), EndBlock(off, tot), EndBlock(off, tot));
    }

    /** writei, for off and n of 32 bits. */
    method Writei(i: nat, src: seq<byte>, off: nat, n: nat) returns (r: int, ghost torn: nat, ghost t: Tally)
      requires Valid() && i < |inodes| && off < U32 && n < U32
      modifies this`bmap, this`used, this`blocks, this`inodes, this`dinodes, this`owner, this`logged, this`stale
      ensures r == -1 <==> off > old(inodes)[i].size || off + n >= U32 || off + n > MAXBYTES
      ensures r == -1 ==> unchanged(this)
      ensures r != -1 ==>
          r >= 0 && Wrote(i, src, off, n, r, torn, old(inodes), old(blocks), old(dinodes), old(stale), old(Free()))
      ensures r != -1 ==> LoggedFor(i, off, n, t, old(inodes), old(logged) + {IBlock(i)})
      ensures r != -1 ==> AllLogged(old(Now()), old(dinodes), logged) && IBlock(i) in logged
      ensures r != -1 ==> DataLogged(g, inodes[i], blocks, logged, BlockOf(off), EndBlock(off, r))
      ensures r != -1 ==> (torn > 0 <==>
          0 < |src| < n && ByteIn(off + |src|) != 0
          && Reaches(i, off, off + |src|, old(inodes), old(blocks), old(Free())))
    {
      torn, t := 0, Tally(0, 0, {}, {});
      if off > inodes[i].size || (off + n) % U32 < off {
        return -1, 0, t;
      }
      if off + n > MAXBYTES {
        return -1, 0, t;
      }
      r, torn, t := WriteAt(i, src, off, n);
      TornWhen(off, n, |src|, r, torn, g, old(inodes)[i], old(blocks), old(Free()));
    }

    /** The free blocks last for a write from byte off on to the block that holds byte e. */
    ghost predicate Reaches(i: nat, off: nat, e: nat, n0: seq<Inode>, b0: seq<Block>, free0: nat)
      requires AllGood(g, n0, b0) && i < |n0|
    {
      Need(g, n0[i], b0, BlockOf(off), BlockOf(e) + 1) <= free0
    }

    /** One readable byte, in a write of two over a file that has them: the byte is in the
        buffer, which was released without log_write, and the call returns 0. */
    method TornByte(i: nat, b: byte) returns (r: int, ghost torn: nat)
      requires Valid() && i < |inodes| && inodes[i].size >= 2
      modifies this`bmap, this`used, this`blocks, this`inodes, this`dinodes, this`owner, this`logged, this`stale
      ensures Valid() && |inodes| == |old(inodes)| && r == 0 && torn == 1
      ensures old(|Contents(g, inodes[i], blocks)|) >= 2
          && Contents(g, inodes[i], blocks) == [b] + old(Contents(g, inodes[i], blocks))[1..]
      ensures Mapped(g, inodes[i], blocks, 0) && stale == old(stale) + {Addr(g, inodes[i], blocks, SlotOf(0))}
    {
      ghost var t;
      ghost var c := Contents(g, inodes[i], blocks);
      InsideReaches(g, inodes[i], blocks, 0, 1, Free());
      r, torn, t := Writei(i, [b], 0, 2);
      assert Contents(g, inodes[i], blocks) == Splice(c, 0, [b][..1])[..|c|] == [b] + c[1..];
    }

    /** if(off > ip->size) ip->size = off, with off at the end of the written bytes. */
    method EndWrite(i: nat, off: nat, tot: nat, ghost data: seq<byte>, ghost n0: seq<Inode>, ghost b0: seq<Block>)
      requires Valid() && i < |inodes| && Written(g, n0, b0, inodes, blocks, i, off, data) && tot <= |data|
      requires NoHoles(g, n0[i], b0) && off <= n0[i].size && off + tot <= MAXBYTES
      modifies this`inodes
      ensures Valid() && |inodes| == |n0| && GoodInode(g, inodes[i])
      ensures inodes[i] == old(inodes)[i].(size := if off + tot > n0[i].size then off + tot else n0[i].size)
      ensures inodes[i].kind == n0[i].kind
      ensures Contents(g, inodes[i], blocks) == Splice(Contents(g, n0[i], b0), off, data)[..inodes[i].size]
      ensures forall j :: 0 <= j < |inodes| && j != i ==>
                inodes[j] == n0[j] && Contents(g, inodes[j], blocks) == Contents(g, n0[j], b0)
      ensures forall s :: 0 <= s < SLOTS ==> Addr(g, inodes[i], blocks, s) == Addr(g, old(inodes)[i], blocks, s)
    {
      var size := if off + tot > inodes[i].size then off + tot else inodes[i].size;
      WrittenContents(g, n0, b0, inodes, blocks, i, off, data, tot, size);
      ResizeKeepsMatched(g, inodes, blocks, owner, i, size);
      forall j | 0 <= j < |inodes| && j != i ensures Contents(g, inodes[j], blocks) == Contents(g, n0[j], b0) {
        OthersKept(g, n0, b0, inodes, blocks, i, off, data, j);
      }
      inodes := inodes[i := inodes[i].(size := size)];
    }

    /** bmap of a block below the file's size, which is there already. */
    method ReadBlock(i: nat, e: nat) returns (a: nat)
      requires Valid() && i < |inodes| && e < inodes[i].size
      modifies this`bmap, this`used, this`blocks, this`inodes, this`owner, this`logged
      ensures unchanged(this) && Mapped(g, inodes[i], blocks, BlockOf(e))
          && a == Addr(g, inodes[i], blocks, SlotOf(BlockOf(e)))
    {
      InFile(e, inodes[i].size);
      assert NoHoles(g, inodes[i], blocks) && Mapped(g, inodes[i], blocks, BlockOf(e));
      var r, maps := Bmap(i, BlockOf(e));
      a := r.value;
    }

    /** Byte e + k of file i is byte k of d. */
    ghost predicate ByteAt(i: nat, e: nat, d: seq<byte>, k: nat)
      requires AllGood(g, inodes, blocks) && i < |inodes| && k < |d|
      reads this
    {
      Raw(g, inodes[i], blocks, e + k) == d[k]
    }

    /** d is what file i holds from byte e on. */
    ghost predicate Holds(i: nat, e: nat, d: seq<byte>)
      reads this
    {
      && AllGood(g, inodes, blocks) && i < |inodes| && e + |d| <= inodes[i].size
      && forall k: nat {:trigger ByteAt(i, e, d, k)} :: k < |d| ==> ByteAt(i, e, d, k)
    }

    lemma HoldsMore(i: nat, e: nat, d: seq<byte>, d': seq<byte>)
      requires Holds(i, e, d) && Holds(i, e + |d|, d')
      ensures Holds(i, e, d + d')
    {
      forall k: nat | k < |d + d'| ensures ByteAt(i, e, d + d', k) {
        if k < |d| { assert ByteAt(i, e, d, k); } else { assert ByteAt(i, e + |d|, d', k - |d|); }
      }
    }

    lemma HoldsSlice(i: nat, e: nat, d: seq<byte>)
      requires Holds(i, e, d)
      ensures d == Contents(g, inodes[i], blocks)[e..e + |d|]
    {
      forall k: nat | k < |d| ensures d[k] == Contents(g, inodes[i], blocks)[e..e + |d|][k] {
        assert ByteAt(i, e, d, k);
      }
    }

    /** The m bytes from byte e of the file on, which are in block a. */
    method ChunkOf(i: nat, e: nat, m: nat, a: nat) returns (d: seq<byte>)
      requires Valid() && i < |inodes| && ByteIn(e) + m <= BSIZE && e + m <= inodes[i].size
      requires Mapped(g, inodes[i], blocks, BlockOf(e)) && a == Addr(g, inodes[i], blocks, SlotOf(BlockOf(e)))
      ensures |d| == m && Holds(i, e, d)
    {
      d := blocks[a][ByteIn(e)..ByteIn(e) + m];
      forall k: nat | k < m ensures ByteAt(i, e, d, k) {
        InBlock(e + k, e, m);
      }
    }

    /** The loop of readi, for k bytes that are all in the file. */
    method ReadBytes(i: nat, off: nat, k: nat, room: nat) returns (r: int, dst: seq<byte>)
      requires Valid() && i < |inodes| && off + k <= inodes[i].size
      modifies this`bmap, this`used, this`blocks, this`inodes, this`owner, this`logged
      ensures unchanged(this) && Holds(i, off, dst)
      ensures if k <= room then r == k == |dst| else r == -1 && |dst| <= k
    {
      var tot := 0;
      dst := [];
      while tot < k
        invariant tot <= k && tot <= room && unchanged(this) && Holds(i, off, dst) && |dst| == tot
        decreases k - tot
      {
        var a := ReadBlock(i, off + tot);
        var m := ChunkLength(off + tot, k - tot);
        if tot + m > room {
          return -1, dst;
        }
        var d := ChunkOf(i, off + tot, m, a);
        HoldsMore(i, off, dst, d);
        dst, tot := dst + d, tot + m;
      }
      r := tot;
    }

    /** readi, for off and n of 32 bits; room is how many bytes the destination can take, and
        a copy past it fails. Reading never allocates, and returns the file's bytes. */
    method Readi(i: nat, off: nat, n: nat, room: nat) returns (r: int, dst: seq<byte>)
      requires Valid() && i < |inodes| && off < U32 && n < U32
      modifies this`bmap, this`used, this`blocks, this`inodes, this`owner, this`logged
      ensures unchanged(this)
      ensures off > inodes[i].size || off + n >= U32 ==> r == 0 && dst == []
      ensures off <= inodes[i].size && off + n < U32 ==>
                var k := if off + n > inodes[i].size then inodes[i].size - off else n;
                if k <= room then r == k && dst == Contents(g, inodes[i], blocks)[off..off + k]
                else r == -1 && dst <= Contents(g, inodes[i], blocks)[off..off + k]
    {
      if off > inodes[i].size || (off + n) % U32 < off {
        return 0, [];
      }
      r, dst := ReadBytes(i, off, if off + n > inodes[i].size then inodes[i].size - off else n, room);
      HoldsSlice(i, off, dst);
    }
  }

  /** A source that ends inside the write and not at a block boundary is torn, if the write
      gets to the block where it ends. */
  lemma TornWhen(off: nat, n: nat, len: nat, tot: nat, torn: nat, g: Geometry, ip: Inode, blocks: seq<Block>,
      free: nat)
    requires GoodBlocks(g, blocks) && GoodInode(g, ip) && tot <= n && tot + torn <= len
    requires tot < n ==> if free < Need(g, ip, blocks, BlockOf(off), BlockOf(off + tot) + 1) then torn == 0
                         else tot + torn == len
    requires torn > 0 ==> len < n && torn < ChunkLength(off + tot, n - tot)
    requires tot == 0 || tot == n || ByteIn(off + tot) == 0
    ensures torn > 0 <==>
      0 < len < n && ByteIn(off + len) != 0 && Need(g, ip, blocks, BlockOf(off), BlockOf(off + len) + 1) <= free
  {
    if torn > 0 { assert BlockOf(off + len) == BlockOf(off + tot); }
    if tot < n && tot <= len {
      assert BlockOf(off + tot) <= BlockOf(off + len);
      NeedGrows(g, ip, blocks, BlockOf(off), BlockOf(off + tot) + 1, BlockOf(off + len) + 1);
    }
  }

  /** A write inside the file always gets there. */
  lemma InsideReaches(g: Geometry, ip: Inode, blocks: seq<Block>, off: nat, e: nat, free: nat)
    requires GoodBlocks(g, blocks) && GoodInode(g, ip) && NoHoles(g, ip, blocks) && off <= e < ip.size
    ensures Need(g, ip, blocks, BlockOf(off), BlockOf(e) + 1) <= free
  {
    InFile(e, ip.size);
    NeedsNone(g, ip, blocks, BlockOf(off), BlockOf(e) + 1);
  }

  lemma InFile(e: nat, size: nat)
    requires e < size
    ensures StartOf(BlockOf(e)) < size
  {
  }

  // ----- what the contracts amount to -----

  /** Bytes written are read back, and the rest of the file is as it was. */
  lemma ReadBack(c: seq<byte>, off: nat, d: seq<byte>)
    requires off <= |c|
    ensures Splice(c, off, d)[off..off + |d|] == d && Splice(c, off, d)[..off] == c[..off]
    ensures off + |d| <= |c| ==> Splice(c, off, d)[off + |d|..] == c[off + |d|..]
  {
  }

  /** Consecutive writes are one write. */
  lemma SpliceTwice(c: seq<byte>, off: nat, d: seq<byte>, e: seq<byte>)
    requires off <= |c|
    ensures Splice(Splice(c, off, d), off + |d|, e) == Splice(c, off, d + e)
  {
    var x, y := Splice(Splice(c, off, d), off + |d|, e), Splice(c, off, d + e);
    assert |x| == |y|;
    forall k | 0 <= k < |x| ensures x[k] == y[k] {
      if off + |d| <= k < off + |d| + |e| { assert y[k] == (d + e)[k - off]; }
    }
  }

  /** The inodes on disk after iupdate of the first k inodes in given. */
  function Updated(dinodes: seq<Inode>, inodes: seq<Inode>, given: seq<nat>, k: nat): (r: seq<Inode>)
    requires |dinodes| == |inodes| && k <= |given| && forall j :: 0 <= j < |given| ==> given[j] < |inodes|
    ensures |r| == |inodes|
  {
    if k == 0 then dinodes else Updated(dinodes, inodes, given, k - 1)[given[k - 1] := inodes[given[k - 1]]]
  }

  lemma {:induction false} UpdatedAt(dinodes: seq<Inode>, inodes: seq<Inode>, given: seq<nat>, k: nat, i: nat)
    requires |dinodes| == |inodes| && k <= |given|
    requires (forall j :: 0 <= j < |given| ==> given[j] < |inodes|) && i < |inodes|
    ensures Updated(dinodes, inodes, given, k)[i] == if i in given[..k] then inodes[i] else dinodes[i]
  {
    if k > 0 {
      UpdatedAt(dinodes, inodes, given, k - 1, i);
      assert given[..k] == given[..k - 1] + [given[k - 1]];
    }
  }

  /** The inodes on disk are those in memory once each that differs was given to iupdate, and not
      before. */
  lemma UpdatedAll(dinodes: seq<Inode>, inodes: seq<Inode>, given: seq<nat>)
    requires |dinodes| == |inodes| && forall j :: 0 <= j < |given| ==> given[j] < |inodes|
    ensures Updated(dinodes, inodes, given, |given|) == inodes
            <==> forall i :: 0 <= i < |inodes| && dinodes[i] != inodes[i] ==> i in given
  {
    assert given[..|given|] == given;
    forall i: nat | i < |inodes|
      ensures Updated(dinodes, inodes, given, |given|)[i] == if i in given then inodes[i] else dinodes[i]
    {
      UpdatedAt(dinodes, inodes, given, |given|, i);
    }
    if Updated(dinodes, inodes, given, |given|) == inodes {
      forall i | 0 <= i < |inodes| && dinodes[i] != inodes[i] ensures i in given {
        assert Updated(dinodes, inodes, given, |given|)[i] == inodes[i];
      }
    }
  }

  /** Block ownership: the bits of the map are exactly the metadata blocks and the blocks
      that the slots of inodes hold, and no block is in two slots. */
  lemma BitmapIsExact(fs: FileSystem)
    requires fs.Valid()
    ensures forall b: nat :: b < fs.g.size ==>
              MapBlock(b) < |fs.bmap| && |fs.bmap[MapBlock(b)]| == BSIZE &&
              (InUse(fs.bmap, b) <==>
               b < fs.g.first || exists i: nat, s: nat ::
                   i < |fs.inodes| && s < SLOTS && Addr(fs.g, fs.inodes[i], fs.blocks, s) == b)
    ensures forall i: nat, s: nat, j: nat, t: nat ::
              (i < |fs.inodes| && j < |fs.inodes| && s < SLOTS && t < SLOTS
               && Addr(fs.g, fs.inodes[i], fs.blocks, s) == Addr(fs.g, fs.inodes[j], fs.blocks, t) != 0) ==>
                   i == j && s == t
  {
    var g, n, b, o := fs.g, fs.inodes, fs.blocks, fs.owner;
    forall c: nat | c < g.size
      ensures MapBlock(c) < |fs.bmap| && |fs.bmap[MapBlock(c)]| == BSIZE
      ensures InUse(fs.bmap, c) <==> c < g.first || exists i: nat, s: nat ::
          i < |n| && s < SLOTS && Addr(g, n[i], b, s) == c
    {
      InMap(|fs.bmap|, g.size, c);
      assert InUse(fs.bmap, c) <==> c in fs.used;
      if c in o {
        assert OwnerOk(g, n, b, o, c);
        assert Addr(g, n[o[c].0], b, o[c].1) == c;
      }
      if c >= g.first {
        forall i: nat, s: nat | i < |n| && s < SLOTS && Addr(g, n[i], b, s) == c ensures c in o {
          assert SlotOk(g, n[i], b, o, i, s);
        }
      }
    }
    forall i: nat, s: nat, j: nat, t: nat | i < |n| && j < |n| && s < SLOTS && t < SLOTS
        && Addr(g, n[i], b, s) == Addr(g, n[j], b, t) != 0
      ensures i == j && s == t
    {
      assert SlotOk(g, n[i], b, o, i, s) && SlotOk(g, n[j], b, o, j, t);
    }
  }

  /** filewrite's transactions log at most MAXOPBLOCKS distinct blocks, and at most 7 when
      one bitmap block covers the disk. */
  lemma WriteBudget(was: set<nat>, iblock: nat, now: set<nat>, t: Tally, ind0: nat, ind: nat, off: nat, n: nat,
      bmapstart: nat)
    requires WriteLogs(was + {iblock}, now, t, ind0, ind) && t.rounds <= Span(off, n) && n <= BATCH
    requires ByteIn(off) != 0 && t.rounds > 0 ==> t.added < t.rounds
    ensures |now - was| <= 10
    ensures t.maps <= {bmapstart} ==> |now - was| <= 7
  {
    assert Span(off, n) <= 4 && (ByteIn(off) == 0 ==> Span(off, n) <= 3);
    var x, y, z := t.data + t.maps, t.data + t.maps + Nonzero(ind), t.data + t.maps + Nonzero(ind) + {iblock};
    UnionAtMost(t.data, t.maps);
    UnionAtMost(x, Nonzero(ind));
    UnionAtMost(y, {iblock});
    forall b: nat | b in now - was ensures b in z {
      assert InWrite(b, was + {iblock}, t, ind);
    }
    Subset(now - was, z);
    if t.maps <= {bmapstart} { Subset(t.maps, {bmapstart}); }
  }

  lemma Subset(a: set<nat>, b: set<nat>)
    requires a <= b
    ensures |a| <= |b|
  {
    assert b == a + (b - a);
  }
}
