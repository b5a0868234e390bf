/** The code of kernel/log.c for one process: the loops of commit and recovery, with every
    disk image that a crash could leave behind. */
module LogDevice {
  import opened Common
  import opened LogFormat

  datatype Outcome = Done | PanicTooBig | PanicOutsideTrans

  /** Images first..last of a history all recover to `want`. */
  ghost predicate AllRecoverTo(c: Layout, images: seq<Disk>, first: nat, last: nat, want: Disk) {
    forall i {:trigger RecoversTo(c, images, i, want)} :: first <= i < last && i < |images|
        ==> RecoversTo(c, images, i, want)
  }

  ghost predicate RecoversTo(c: Layout, images: seq<Disk>, i: nat, want: Disk) {
    i < |images| && Recoverable(c, images[i]) && Holds(c, images[i], want)
  }

  lemma OneMoreImage(c: Layout, images: seq<Disk>, first: nat, last: nat, d: Disk, want: Disk)
    requires AllRecoverTo(c, images, first, last, want) && last <= |images|
    ensures AllRecoverTo(c, images + [d], first, last, want)
    ensures last == |images| && Recoverable(c, d) && Holds(c, d, want)
        ==> AllRecoverTo(c, images + [d], first, last + 1, want)
  {
    forall i | first <= i < last ensures RecoversTo(c, images + [d], i, want) {
      assert RecoversTo(c, images, i, want);
    }
  }

  lemma MoreImages(c: Layout, images: seq<Disk>, longer: seq<Disk>, first: nat, last: nat, want: Disk)
    requires AllRecoverTo(c, images, first, last, want) && last <= |images| && images <= longer
    ensures AllRecoverTo(c, longer, first, last, want)
  {
    forall i | first <= i < last ensures RecoversTo(c, longer, i, want) {
      assert RecoversTo(c, images, i, want);
    }
  }

  class Log {
    const c: Layout
    var disk: Disk
    var lh: seq<nat>             // log.lh
    var outstanding: nat
    ghost var images: seq<Disk>  // the disk after each bwrite

    ghost predicate Valid()
      reads this
    {
      GoodLayout(c) && GoodDisk(c, disk) && GoodHeader(c, lh)
    }

    /** The log of a disk, before recovery. */
    constructor (layout: Layout, d: Disk)
      requires GoodLayout(layout) && GoodDisk(layout, d)
      ensures Valid() && c == layout && disk == d && lh == [] && outstanding == 0 && images == [d]
    {
      c, disk, lh, outstanding, images := layout, d, [], 0, [d];
    }

    /** One atomic block write; a crash may come before or after it. */
    method Bwrite(b: nat, data: Block)
      requires b < |disk|
      modifies this`disk, this`images
      ensures disk == old(disk)[b := data] && images == old(images) + [disk]
    {
      disk := disk[b := data];
      images := images + [disk];
    }

    /** Copy committed blocks from the log home. Whatever the disk would recover to before,
        it would recover to after every single write. */
    method InstallTrans(ghost want: Disk, ghost first: nat)
      requires Valid() && Recoverable(c, disk) && Holds(c, disk, want) && HeaderOf(disk[c.start]) == lh
      requires first <= |images| && AllRecoverTo(c, images, first, |images|, want)
      modifies this`disk, this`images
      ensures Valid() && disk == Installed(c, old(disk), lh, |lh|)
      ensures Recoverable(c, disk) && Holds(c, disk, want) && HeaderOf(disk[c.start]) == lh
      ensures HomeHolds(disk, want, lh, |lh|)
      ensures old(images) <= images && AllRecoverTo(c, images, first, |images|, want)
    {
      var tail := 0;
      while tail < |lh|
        invariant tail <= |lh| && Valid() && Recoverable(c, disk) && Holds(c, disk, want)
        invariant HeaderOf(disk[c.start]) == lh && disk == Installed(c, old(disk), lh, tail)
        invariant HomeHolds(disk, want, lh, tail) && old(images) <= images
        invariant forall i :: 0 <= i < |disk| && InLog(c, i) ==> disk[i] == old(disk)[i]
        invariant AllRecoverTo(c, images, first, |images|, want)
      {
        assert IsHome(c, lh[tail]) && InLog(c, c.start + tail + 1);
        assert LogHas(c, disk, want, lh, tail);
        HomeWrite(c, disk, lh[tail], disk[c.start + tail + 1], want);
        OneMoreHome(disk, lh, tail, want);
        OneMoreImage(c, images, first, |images|, disk[lh[tail] := disk[c.start + tail + 1]], want);
        Bwrite(lh[tail], disk[c.start + tail + 1]);
        tail := tail + 1;
      }
    }

    /** Read the header block into log.lh. */
    method ReadHead()
      requires GoodLayout(c) && GoodDisk(c, disk) && disk[c.start].words[0] < WORDS
      modifies this`lh
      ensures lh == HeaderOf(disk[c.start])
    {
      var hb, i := disk[c.start], 0;
      lh := [];
      while i < hb.words[0]
        invariant i <= hb.words[0] && lh == Entries(hb, i)
      {
        lh := lh + [hb.words[i + 1]];
        i := i + 1;
      }
    }

    /** Write log.lh to the header block. */
    method WriteHead()
      requires GoodLayout(c) && GoodDisk(c, disk) && |lh| < WORDS
      modifies this`disk, this`images
      ensures disk == old(disk)[c.start := PutHeader(old(disk)[c.start], lh)] && images == old(images) + [disk]
    {
      var old_ := disk[c.start].words;
      var words, i := old_[0 := |lh|], 0;
      while i < |lh|
        invariant i <= |lh| && words == [|lh|] + lh[..i] + old_[1 + i..]
      {
        words := words[i + 1 := lh[i]];
        i := i + 1;
      }
      assert lh[..|lh|] == lh;
      Bwrite(c.start, Block(words));
    }

    /** Recovery leaves the recovered home blocks and an empty log, and a crash after any of
        its writes leaves a disk that recovers to the same home blocks. */
    method RecoverFromLog(ghost want: Disk)
      requires Recoverable(c, disk) && disk[c.start].words[0] < WORDS && SameHome(c, Recovered(c, disk), want)
      modifies this
      ensures Valid() && lh == [] && disk == Recovered(c, old(disk)) && SameHome(c, disk, want)
      ensures old(images) <= images && AllRecoverTo(c, images, |old(images)|, |images|, want)
    {
      HoldsIffRecovers(c, disk, want);
      ReadHead();
      ghost var hdr := lh;
      InstallTrans(want, |images|);
      InstalledAt(c, old(disk), hdr, |hdr|);
      assert c.start !in hdr[..|hdr|];
      EraseLog(want, |old(images)|);
    }

    /** Copy the logged blocks from the cache to the log, while the header is still empty. */
    method WriteLog(cache: Disk, ghost want: Disk)
      requires Valid() && Recoverable(c, disk) && Holds(c, disk, want) && HeaderOf(disk[c.start]) == []
      requires GoodDisk(c, cache)
      modifies this`disk, this`images
      ensures Valid() && Recoverable(c, disk) && Holds(c, disk, want) && HeaderOf(disk[c.start]) == []
      ensures LogHolds(c, disk, cache, lh, |lh|)
      ensures forall b :: 0 <= b < |disk| && IsHome(c, b) ==> disk[b] == old(disk)[b]
      ensures old(images) <= images && AllRecoverTo(c, images, |old(images)|, |images|, want)
    {
      var tail := 0;
      while tail < |lh|
        invariant tail <= |lh| && Valid() && Recoverable(c, disk) && Holds(c, disk, want)
        invariant HeaderOf(disk[c.start]) == [] && LogHolds(c, disk, cache, lh, tail)
        invariant forall b :: 0 <= b < |disk| && IsHome(c, b) ==> disk[b] == old(disk)[b]
        invariant old(images) <= images && AllRecoverTo(c, images, |old(images)|, |images|, want)
      {
        assert IsHome(c, lh[tail]);
        LogBlockWrite(c, disk, c.start + tail + 1, cache[lh[tail]], want);
        OneMoreLogged(c, disk, lh, tail, cache);
        OneMoreImage(c, images, |old(images)|, |images|, disk[c.start + tail + 1 := cache[lh[tail]]], want);
        Bwrite(c.start + tail + 1, cache[lh[tail]]);
        tail := tail + 1;
      }
    }

    /** write_head, the real commit: from here on the disk recovers to the cached blocks. */
    method WriteCommitHead(ghost cache: Disk)
      requires Valid() && |cache| == c.nblocks && LogHolds(c, disk, cache, lh, |lh|) && RestHolds(c, disk, cache, lh)
      modifies this`disk, this`images
      ensures Valid() && Recoverable(c, disk) && Holds(c, disk, cache) && HeaderOf(disk[c.start]) == lh
      ensures images == old(images) + [disk] && AllRecoverTo(c, images, |old(images)|, |images|, cache)
    {
      HeadCommits(c, disk, PutHeader(disk[c.start], lh), lh, cache);
      WriteHead();
    }

    /** log.lh.n = 0 and write_head: every listed block is home already. */
    method EraseLog(ghost want: Disk, ghost first: nat)
      requires Valid() && Recoverable(c, disk) && Holds(c, disk, want) && HeaderOf(disk[c.start]) == lh
      requires HomeHolds(disk, want, lh, |lh|) && first <= |images| && AllRecoverTo(c, images, first, |images|, want)
      modifies this
      ensures Valid() && lh == [] && disk == old(disk)[c.start := PutHeader(old(disk)[c.start], [])]
      ensures HeaderOf(disk[c.start]) == [] && SameHome(c, disk, want)
      ensures images == old(images) + [disk] && AllRecoverTo(c, images, first, |images|, want)
    {
      lh := [];
      HeadClears(c, disk, PutHeader(disk[c.start], []), want);
      OneMoreImage(c, images, first, |images|, disk[c.start := PutHeader(disk[c.start], [])], want);
      WriteHead();
      EmptyLogIsHome(c, disk, want);
    }

    /** Commit is atomic: the disk images fall into two runs, the first recovering to the
        home blocks from before and the second to those in the cache. */
    method Commit(cache: Disk, ghost before: Disk) returns (ghost cut: nat)
      requires Valid() && Recoverable(c, disk) && HeaderOf(disk[c.start]) == [] && SameHome(c, disk, before)
      requires GoodDisk(c, cache) && RestHolds(c, cache, before, lh)
      modifies this
      ensures Valid() && lh == [] && HeaderOf(disk[c.start]) == [] && SameHome(c, disk, cache)
      ensures old(images) <= images && |old(images)| <= cut <= |images|
      ensures AllRecoverTo(c, images, |old(images)|, cut, before)
      ensures AllRecoverTo(c, images, cut, |images|, cache)
    {
      cut := |images|;
      EmptyLogIsHome(c, disk, before);
      UnloggedAreHome(c, disk, cache, before, lh);
      if |lh| > 0 {
        WriteLog(cache, before);
        EmptyLogIsHome(c, disk, before);
        UnloggedAreHome(c, disk, cache, before, lh);
        cut := |images|;
        ghost var logged := images;
        WriteCommitHead(cache);
        InstallTrans(cache, cut);
        EraseLog(cache, cut);
        MoreImages(c, logged, images, |old(images)|, cut, before);
      }
    }

    /** Record a changed block, once. */
    method LogWrite(b: nat) returns (r: Outcome)
      requires Valid() && IsHome(c, b)
      modifies this`lh
      ensures Valid()
      ensures r == PanicTooBig <==> |old(lh)| >= LOGSIZE || |old(lh)| >= c.size - 1
      ensures r == PanicOutsideTrans <==> r != PanicTooBig && outstanding < 1
      ensures r == Done ==> lh == if b in old(lh) then old(lh) else old(lh) + [b]
      ensures r != Done ==> lh == old(lh)
    {
      if |lh| >= LOGSIZE || |lh| >= c.size - 1 {
        return PanicTooBig;
      }
      if outstanding < 1 {
        return PanicOutsideTrans;
      }
      var i := 0;
      while i < |lh|
        invariant i <= |lh| && b !in lh[..i]
      {
        if lh[i] == b {
          break;
        }
        i := i + 1;
      }
      assert i == |lh| ==> lh[..i] == lh;
      if i == |lh| { DistinctMore(lh, b); }
      assert i < |lh| ==> lh[i := b] == lh;
      lh := if i == |lh| then lh + [b] else lh[i := b];
      r := Done;
    }
  }

  /** With an empty log, recovering changes nothing. */
  lemma EmptyLogIsHome(c: Layout, d: Disk, want: Disk)
    requires Recoverable(c, d) && HeaderOf(d[c.start]) == []
    ensures Holds(c, d, want) <==> SameHome(c, d, want)
  {
    if Holds(c, d, want) {
      forall b | 0 <= b < |d| && IsHome(c, b) ensures AtHome(d, want, b) {}
    }
  }

  /** The blocks that are not logged are the same on disk and in the cache. */
  lemma UnloggedAreHome(c: Layout, d: Disk, cache: Disk, before: Disk, lh: seq<nat>)
    requires |d| == |cache| && SameHome(c, d, before) && RestHolds(c, cache, before, lh)
    ensures RestHolds(c, d, cache, lh)
  {
    forall b | 0 <= b < |d| && IsHome(c, b) && b !in lh ensures AtHome(d, cache, b) {
      assert AtHome(d, before, b) && AtHome(cache, before, b);
    }
  }
}
