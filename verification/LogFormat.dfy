/** The on-disk log of kernel/log.c: a header block that lists home block numbers,
    followed by one log block per listed number. */
module LogFormat {
  import opened Common

  const MAXOPBLOCKS := 10
  const LOGSIZE := 30
  const WORDS := 256        // BSIZE / sizeof(uint)

  /** A disk block, as its little-endian 32-bit words. */
  datatype Block = Block(words: seq<nat>)
  type Disk = seq<Block>

  /** log.start, log.size and the number of blocks of the device. */
  datatype Layout = Layout(start: nat, size: nat, nblocks: nat)

  predicate GoodLayout(c: Layout) {
    c.size >= 1 && c.start + c.size <= c.nblocks
  }

  predicate InLog(c: Layout, b: nat) {
    c.start <= b < c.start + c.size
  }

  /** A block the file system may use: on the disk and outside the log. */
  predicate IsHome(c: Layout, b: nat) {
    b < c.nblocks && !InLog(c, b)
  }

  predicate GoodDisk(c: Layout, d: Disk) {
    |d| == c.nblocks && forall b :: 0 <= b < |d| ==> |d[b].words| == WORDS
  }

  /** What commit() relies on for the in-memory header. */
  predicate GoodHeader(c: Layout, lh: seq<nat>) {
    |lh| <= LOGSIZE && |lh| <= c.size - 1 && Distinct(lh)
    && forall i :: 0 <= i < |lh| ==> IsHome(c, lh[i])
  }

  /** The first n block numbers of a header block, as read_head copies them. */
  function Entries(b: Block, n: nat): (lh: seq<nat>)
    requires n < |b.words|
    ensures |lh| == n
  {
    if n == 0 then [] else Entries(b, n - 1) + [b.words[n]]
  }

  /** The block numbers a header block lists. */
  function HeaderOf(b: Block): (lh: seq<nat>)
  {
    if |b.words| == WORDS && b.words[0] < WORDS then Entries(b, b.words[0]) else []
  }

  lemma {:induction false} EntriesAre(b: Block, n: nat, lh: seq<nat>)
    requires n < |b.words| && n <= |lh| && forall i :: 0 <= i < n ==> b.words[i + 1] == lh[i]
    ensures Entries(b, n) == lh[..n]
  {
    if n > 0 {
      EntriesAre(b, n - 1, lh);
      assert b.words[n] == b.words[(n - 1) + 1] == lh[n - 1];
    }
  }

  /** The header block after write_head: later words keep their old contents. */
  function PutHeader(b: Block, lh: seq<nat>): (r: Block)
    requires |b.words| == WORDS && |lh| < WORDS
    ensures |r.words| == WORDS && HeaderOf(r) == lh
  {
    var r := Block([|lh|] + lh + b.words[1 + |lh|..]);
    EntriesAre(r, |lh|, lh);
    r
  }

  /** Install the first k logged blocks, in order (install_trans). */
  function Installed(c: Layout, d: Disk, lh: seq<nat>, k: nat): (r: Disk)
    requires GoodLayout(c) && |d| == c.nblocks && GoodHeader(c, lh) && k <= |lh|
    ensures |r| == |d|
  {
    if k == 0 then d else Installed(c, d, lh, k - 1)[lh[k - 1] := d[c.start + k]]
  }

  predicate Recoverable(c: Layout, d: Disk) {
    GoodLayout(c) && GoodDisk(c, d) && GoodHeader(c, HeaderOf(d[c.start]))
  }

  /** The disk that an uninterrupted recover_from_log leaves. */
  function Recovered(c: Layout, d: Disk): (r: Disk)
    requires Recoverable(c, d)
  {
    var lh := HeaderOf(d[c.start]);
    Installed(c, d, lh, |lh|)[c.start := PutHeader(d[c.start], [])]
  }

  /** Block b of d has the wanted contents. */
  predicate AtHome(d: Disk, want: Disk, b: nat) {
    b < |d| && b < |want| ==> d[b] == want[b]
  }

  /** Log block i has the wanted contents of block lh[i]. */
  predicate LogHas(c: Layout, d: Disk, want: Disk, lh: seq<nat>, i: nat) {
    i < |lh| && c.start + 1 + i < |d| && lh[i] < |want| ==> d[c.start + 1 + i] == want[lh[i]]
  }

  /** Two disks agree on every block the file system uses. */
  predicate SameHome(c: Layout, d: Disk, e: Disk)
  {
    |d| == c.nblocks && |e| == c.nblocks
    && forall b {:trigger AtHome(d, e, b)} :: 0 <= b < |d| && IsHome(c, b) ==> AtHome(d, e, b)
  }

  /** The log has the wanted contents of the first k blocks of lh. */
  predicate LogHolds(c: Layout, d: Disk, want: Disk, lh: seq<nat>, k: nat) {
    forall i {:trigger LogHas(c, d, want, lh, i)} :: 0 <= i < k && i < |lh| ==> LogHas(c, d, want, lh, i)
  }

  /** The first k blocks of lh have the wanted contents. */
  predicate HomeHolds(d: Disk, want: Disk, lh: seq<nat>, k: nat) {
    forall i {:trigger AtHome(d, want, lh[i])} :: 0 <= i < k && i < |lh| ==> AtHome(d, want, lh[i])
  }

  /** Every home block outside lh has the wanted contents. */
  predicate RestHolds(c: Layout, d: Disk, want: Disk, lh: seq<nat>) {
    forall b {:trigger AtHome(d, want, b)} :: 0 <= b < |d| && IsHome(c, b) && b !in lh ==> AtHome(d, want, b)
  }

  /** Crash safety in one state: the log has the wanted contents of the blocks that the
      header lists, and every other home block is already in place. */
  predicate Holds(c: Layout, d: Disk, want: Disk)
    requires Recoverable(c, d)
  {
    var lh := HeaderOf(d[c.start]);
    |want| == c.nblocks && LogHolds(c, d, want, lh, |lh|) && RestHolds(c, d, want, lh)
  }

  lemma {:induction false} InstalledAt(c: Layout, d: Disk, lh: seq<nat>, k: nat)
    requires GoodLayout(c) && |d| == c.nblocks && GoodHeader(c, lh) && k <= |lh|
    ensures forall i :: 0 <= i < k ==> Installed(c, d, lh, k)[lh[i]] == d[c.start + 1 + i]
    ensures forall b :: 0 <= b < |d| && b !in lh[..k] ==> Installed(c, d, lh, k)[b] == d[b]
  {
    if k > 0 {
      AllDiffer(lh);
      InstalledAt(c, d, lh, k - 1);
      assert lh[..k] == lh[..k - 1] + [lh[k - 1]];
    }
  }

  /** Recovery puts each logged block in place. */
  lemma RecoveredLogged(c: Layout, d: Disk, lh: seq<nat>, i: nat)
    requires Recoverable(c, d) && lh == HeaderOf(d[c.start]) && i < |lh|
    ensures |Recovered(c, d)| == |d| && Recovered(c, d)[lh[i]] == d[c.start + 1 + i]
  {
    InstalledAt(c, d, lh, |lh|);
    assert IsHome(c, lh[i]);
  }

  /** Recovery leaves the other home blocks alone. */
  lemma RecoveredRest(c: Layout, d: Disk, lh: seq<nat>, b: nat)
    requires Recoverable(c, d) && lh == HeaderOf(d[c.start]) && b < |d| && IsHome(c, b) && b !in lh
    ensures |Recovered(c, d)| == |d| && Recovered(c, d)[b] == d[b]
  {
    InstalledAt(c, d, lh, |lh|);
    assert lh[..|lh|] == lh;
  }

  lemma HoldsRecovers(c: Layout, d: Disk, want: Disk, b: nat)
    requires Recoverable(c, d) && Holds(c, d, want) && b < |d| && IsHome(c, b)
    ensures AtHome(Recovered(c, d), want, b)
  {
    var lh := HeaderOf(d[c.start]);
    if b in lh {
      var i :| 0 <= i < |lh| && lh[i] == b;
      RecoveredLogged(c, d, lh, i);
      assert LogHas(c, d, want, lh, i);
    } else {
      RecoveredRest(c, d, lh, b);
      assert AtHome(d, want, b);
    }
  }

  lemma RecoversHolds(c: Layout, d: Disk, want: Disk)
    requires Recoverable(c, d) && SameHome(c, Recovered(c, d), want)
    ensures Holds(c, d, want)
  {
    var lh := HeaderOf(d[c.start]);
    forall i: nat | i < |lh| ensures LogHas(c, d, want, lh, i) {
      RecoveredLogged(c, d, lh, i);
      assert IsHome(c, lh[i]) && AtHome(Recovered(c, d), want, lh[i]);
    }
    forall b: nat | b < |d| && IsHome(c, b) && b !in lh ensures AtHome(d, want, b) {
      RecoveredRest(c, d, lh, b);
      assert AtHome(Recovered(c, d), want, b);
    }
  }

  /** Holds says exactly that recovery produces the wanted home blocks. */
  lemma HoldsIffRecovers(c: Layout, d: Disk, want: Disk)
    requires Recoverable(c, d) && |want| == c.nblocks
    ensures Holds(c, d, want) <==> SameHome(c, Recovered(c, d), want)
  {
    if SameHome(c, Recovered(c, d), want) { RecoversHolds(c, d, want); }
    if Holds(c, d, want) {
      forall b: nat | b < |d| && IsHome(c, b) ensures AtHome(Recovered(c, d), want, b) {
        HoldsRecovers(c, d, want, b);
      }
    }
  }

  // ----- one disk write at a time -----

  /** While the header is empty, writing a log block loses nothing. */
  lemma LogBlockWrite(c: Layout, d: Disk, b: nat, data: Block, want: Disk)
    requires Recoverable(c, d) && Holds(c, d, want) && HeaderOf(d[c.start]) == []
    requires InLog(c, b) && b != c.start && |data.words| == WORDS
    ensures Recoverable(c, d[b := data]) && Holds(c, d[b := data], want)
  {
    forall x | 0 <= x < |d| && IsHome(c, x) ensures AtHome(d[b := data], want, x) {
      assert AtHome(d, want, x);
    }
  }

  /** Writing log block t keeps log blocks before it. */
  lemma OneMoreLogged(c: Layout, d: Disk, lh: seq<nat>, t: nat, want: Disk)
    requires GoodLayout(c) && |d| == c.nblocks == |want| && GoodHeader(c, lh) && t < |lh| && LogHolds(c, d, want, lh, t)
    ensures LogHolds(c, d[c.start + 1 + t := want[lh[t]]], want, lh, t + 1)
  {
    var d' := d[c.start + 1 + t := want[lh[t]]];
    forall i | 0 <= i < t + 1 && i < |lh| ensures LogHas(c, d', want, lh, i) {
      assert LogHas(c, d, want, lh, i) || i == t;
    }
  }

  /** Writing the header over a complete log switches to the new contents at once. */
  lemma HeadCommits(c: Layout, d: Disk, h: Block, lh: seq<nat>, want: Disk)
    requires GoodLayout(c) && GoodDisk(c, d) && |h.words| == WORDS && HeaderOf(h) == lh && GoodHeader(c, lh)
    requires |want| == c.nblocks && LogHolds(c, d, want, lh, |lh|) && RestHolds(c, d, want, lh)
    ensures Recoverable(c, d[c.start := h]) && Holds(c, d[c.start := h], want)
  {
    var d' := d[c.start := h];
    forall i | 0 <= i < |lh| ensures LogHas(c, d', want, lh, i) {
      assert LogHas(c, d, want, lh, i);
    }
    forall b | 0 <= b < |d| && IsHome(c, b) && b !in lh ensures AtHome(d', want, b) {
      assert AtHome(d, want, b);
    }
  }

  /** Writing the wanted contents of a block home changes nothing about recovery. */
  lemma HomeWrite(c: Layout, d: Disk, b: nat, data: Block, want: Disk)
    requires Recoverable(c, d) && Holds(c, d, want) && IsHome(c, b) && |data.words| == WORDS && data == want[b]
    ensures Recoverable(c, d[b := data]) && Holds(c, d[b := data], want)
  {
    var d', lh := d[b := data], HeaderOf(d[c.start]);
    forall i | 0 <= i < |lh| ensures LogHas(c, d', want, lh, i) {
      assert LogHas(c, d, want, lh, i);
    }
    forall x | 0 <= x < |d| && IsHome(c, x) && x !in lh ensures AtHome(d', want, x) {
      assert AtHome(d, want, x);
    }
  }

  /** Writing block lh[t] home keeps the blocks before it at home. */
  lemma OneMoreHome(d: Disk, lh: seq<nat>, t: nat, want: Disk)
    requires |d| == |want| && t < |lh| && lh[t] < |d| && HomeHolds(d, want, lh, t)
    ensures HomeHolds(d[lh[t] := want[lh[t]]], want, lh, t + 1)
  {
    var d' := d[lh[t] := want[lh[t]]];
    forall i | 0 <= i < t + 1 && i < |lh| ensures AtHome(d', want, lh[i]) {
      assert i < t ==> AtHome(d, want, lh[i]);
    }
  }

  /** Once every listed block is home, the header can be emptied. */
  lemma HeadClears(c: Layout, d: Disk, h: Block, want: Disk)
    requires Recoverable(c, d) && Holds(c, d, want) && |h.words| == WORDS && HeaderOf(h) == []
    requires HomeHolds(d, want, HeaderOf(d[c.start]), |HeaderOf(d[c.start])|)
    ensures SameHome(c, d, want)
    ensures Recoverable(c, d[c.start := h]) && Holds(c, d[c.start := h], want)
  {
    var lh := HeaderOf(d[c.start]);
    forall b | 0 <= b < |d| && IsHome(c, b) ensures AtHome(d, want, b) {
      if b in lh {
        var i :| 0 <= i < |lh| && lh[i] == b;
        assert AtHome(d, want, lh[i]);
      }
    }
    HeadCommits(c, d, h, [], want);
  }
}
