/** The invariant of the log and buffer cache machine, kept by every step. */
module LogInvariant {
  import opened Common
  import opened LogFormat
  import opened BufferSlots
  import opened LogProtocol

  // ----- facts about Replay -----

  lemma ReplayAppend(base: Disk, es: seq<Event>, e: Event)
    requires e.blockno < |base|
    ensures Replay(base, es + [e]) == Replay(base, es)[e.blockno := e.data]
  {
    assert (es + [e])[..|es|] == es;
  }

  lemma {:induction false} ReplayGood(c: Layout, base: Disk, es: seq<Event>)
    requires GoodDisk(c, base) && forall j :: 0 <= j < |es| ==> |es[j].data.words| == WORDS
    ensures GoodDisk(c, Replay(base, es))
  {
    if es != [] {
      ReplayGood(c, base, es[..|es| - 1]);
    }
  }

  // ----- the cache -----

  /** What the cache promises: `view` is the contents it stands for, `pinned` the blocks
      that are logged and not yet unpinned, `writers` the calls that may hold a changed
      buffer. */
  datatype Promise = Promise(c: Layout, view: Disk, pinned: set<nat>, writers: set<Pid>)

  ghost predicate GoodBuf(c: Layout, u: Buf) {
    && (u.slot.dev == 0 || u.slot.dev == ROOTDEV)
    && (u.slot.dev == 0 ==> u == FreshBuf)
    && (u.slot.dev == ROOTDEV ==> u.slot.blockno < c.nblocks)
    && (u.slot.valid ==> |u.data.words| == WORDS)
  }

  /** refcnt counts exactly the waiting, holding and leaving processes and the pin. */
  ghost predicate Counted(m: Promise, u: Buf) {
    u.slot.refcnt == |u.waiting| + (if u.holder == None then 0 else 1) + u.leaving
                     + (if u.slot.dev == ROOTDEV && u.slot.blockno in m.pinned then 1 else 0)
  }

  /** A valid buffer has the block's contents, unless a call holds it to change it. */
  ghost predicate Coherent(m: Promise, u: Buf) {
    var b := u.slot.blockno;
    u.slot.valid && b < |m.view| ==>
      u.data == m.view[b] || (IsHome(m.c, b) && u.holder.Some? && u.holder.value in m.writers)
  }

  ghost predicate BufOk(m: Promise, u: Buf) { GoodBuf(m.c, u) && Counted(m, u) && Coherent(m, u) }

  /** At most one buffer holds a given block of the disk. */
  ghost predicate Unique(bufs: seq<Buf>) {
    forall i, j :: 0 <= i < j < |bufs| && bufs[i].slot.dev == ROOTDEV && bufs[j].slot.dev == ROOTDEV
      ==> bufs[i].slot.blockno != bufs[j].slot.blockno
  }

  ghost predicate CachedAt(bufs: seq<Buf>, b: nat, i: nat) {
    i < |bufs| && Caches(bufs[i], b) && bufs[i].slot.valid
  }

  /** A logged block that is not yet installed is in the cache. */
  ghost predicate PinnedCached(m: Promise, bufs: seq<Buf>) {
    forall b :: b in m.pinned ==> exists i: nat :: CachedAt(bufs, b, i)
  }

  ghost predicate CacheInv(m: Promise, bufs: seq<Buf>) {
    && |m.view| == m.c.nblocks && |bufs| == NBUF
    && (forall i :: 0 <= i < |bufs| ==> BufOk(m, bufs[i]))
    && Unique(bufs) && PinnedCached(m, bufs)
  }

  ghost predicate SameBlock(u: Buf, v: Buf) { u.slot.dev == v.slot.dev && u.slot.blockno == v.slot.blockno }

  /** One buffer changes, without changing which block it holds. */
  lemma CacheUpdate(m: Promise, bufs: seq<Buf>, i: nat, v: Buf)
    requires CacheInv(m, bufs) && i < |bufs| && BufOk(m, v) && SameBlock(bufs[i], v)
    requires bufs[i].slot.valid ==> v.slot.valid
    ensures CacheInv(m, bufs[i := v])
  {
    var bufs' := bufs[i := v];
    forall b | b in m.pinned ensures exists k: nat :: CachedAt(bufs', b, k) {
      var k: nat :| CachedAt(bufs, b, k);
      assert CachedAt(bufs', b, k);
    }
  }

  /** An unreferenced buffer is given to a block that is not cached. */
  lemma CacheRecycle(m: Promise, bufs: seq<Buf>, i: nat, v: Buf)
    requires CacheInv(m, bufs) && i < |bufs| && BufOk(m, v)
    requires bufs[i].slot.refcnt == 0 && v.slot.dev == ROOTDEV
    requires forall j :: 0 <= j < |bufs| ==> !Caches(bufs[j], v.slot.blockno)
    ensures CacheInv(m, bufs[i := v])
  {
    var bufs' := bufs[i := v];
    assert BufOk(m, bufs[i]);
    forall b | b in m.pinned ensures exists k: nat :: CachedAt(bufs', b, k) {
      var k: nat :| CachedAt(bufs, b, k);
      assert CachedAt(bufs', b, k);
    }
  }

  /** A held buffer and the contents it stands for change together. */
  lemma CacheWrite(m: Promise, bufs: seq<Buf>, i: nat, v: Buf)
    requires CacheInv(m, bufs) && i < |bufs| && SameBlock(bufs[i], v) && v.slot.blockno < |m.view|
    requires bufs[i].slot.valid && v.slot.valid && v.slot.dev == ROOTDEV
    requires BufOk(m.(view := m.view[v.slot.blockno := v.data]), v)
    ensures CacheInv(m.(view := m.view[v.slot.blockno := v.data]), bufs[i := v])
  {
    var m' := m.(view := m.view[v.slot.blockno := v.data]);
    var bufs' := bufs[i := v];
    forall k | 0 <= k < |bufs'| ensures BufOk(m', bufs'[k]) {
      assert BufOk(m, bufs[k]);
    }
    forall b | b in m'.pinned ensures exists k: nat :: CachedAt(bufs', b, k) {
      var k: nat :| CachedAt(bufs, b, k);
      assert CachedAt(bufs', b, k);
    }
  }

  /** Pinning and unpinning a cached block. */
  lemma CachePin(m: Promise, bufs: seq<Buf>, i: nat)
    requires CacheInv(m, bufs) && i < |bufs| && bufs[i].slot.valid && bufs[i].slot.dev == ROOTDEV
    requires bufs[i].slot.blockno !in m.pinned
    ensures CacheInv(m.(pinned := m.pinned + {bufs[i].slot.blockno}), bufs[i := bufs[i].(slot := Ref(bufs[i].slot))])
  {
    var b := bufs[i].slot.blockno;
    var m' := m.(pinned := m.pinned + {b});
    var bufs' := bufs[i := bufs[i].(slot := Ref(bufs[i].slot))];
    forall k | 0 <= k < |bufs'| ensures BufOk(m', bufs'[k]) {
      assert BufOk(m, bufs[k]);
    }
    forall x | x in m'.pinned ensures exists k: nat :: CachedAt(bufs', x, k) {
      if x == b {
        assert CachedAt(bufs', x, i);
      } else {
        var k: nat :| CachedAt(bufs, x, k);
        assert CachedAt(bufs', x, k);
      }
    }
  }

  lemma CacheUnpin(m: Promise, bufs: seq<Buf>, i: nat)
    requires CacheInv(m, bufs) && i < |bufs| && bufs[i].slot.dev == ROOTDEV
    requires bufs[i].slot.blockno in m.pinned && bufs[i].slot.refcnt > 0
    ensures CacheInv(m.(pinned := m.pinned - {bufs[i].slot.blockno}), bufs[i := bufs[i].(slot := Unref(bufs[i].slot))])
  {
    var b := bufs[i].slot.blockno;
    var m' := m.(pinned := m.pinned - {b});
    var bufs' := bufs[i := bufs[i].(slot := Unref(bufs[i].slot))];
    forall k | 0 <= k < |bufs'| ensures BufOk(m', bufs'[k]) {
      assert BufOk(m, bufs[k]);
    }
    forall x | x in m'.pinned ensures exists k: nat :: CachedAt(bufs', x, k) {
      var k: nat :| CachedAt(bufs, x, k);
      assert CachedAt(bufs', x, k);
    }
  }

  // ----- the disk -----

  ghost predicate BeforeCommit(phase: Phase) {
    phase.Idle? || phase.WriteLog? || phase.CommitHead?
  }

  /** Where the current contents `now` and the durable contents `safe` may differ. */
  ghost predicate Settled(c: Layout, lh: seq<nat>, phase: Phase, now: Disk, safe: Disk) {
    && GoodDisk(c, now) && GoodDisk(c, safe)
    && if BeforeCommit(phase) then RestHolds(c, now, safe, lh) else now == safe
  }

  /** What the phase says about the header `hdr` and the log on disk. */
  ghost predicate PhaseDisk(c: Layout, d: Disk, lh: seq<nat>, phase: Phase, now: Disk, hdr: seq<nat>)
  {
    match phase
    case Idle => hdr == []
    case WriteLog(t) => hdr == [] && t < |lh| && LogHolds(c, d, now, lh, t)
    case CommitHead => hdr == [] && lh != [] && LogHolds(c, d, now, lh, |lh|)
    case Install(t, w) => hdr == lh && t < |lh| && HomeHolds(d, now, lh, if w then t + 1 else t)
    case ClearHead => lh == [] && HomeHolds(d, now, hdr, |hdr|)
    case CommitDone => hdr == [] && lh == []
    case RecReadHead => lh == []
    case RecInstall(t) => hdr == lh && t < |lh| && HomeHolds(d, now, lh, t)
    case RecClear => lh == [] && HomeHolds(d, now, hdr, |hdr|)
  }

  /** The in-memory header is sound, the phase fits the disk, and recovering from a crash
      now yields the contents `safe`. */
  ghost predicate DiskInv(c: Layout, d: Disk, lh: seq<nat>, phase: Phase, now: Disk, safe: Disk) {
    && GoodHeader(c, lh) && Settled(c, lh, phase, now, safe)
    && Recoverable(c, d) && Holds(c, d, safe)
    && PhaseDisk(c, d, lh, phase, now, HeaderOf(d[c.start]))
  }

  // ----- the calls -----

  /** A position that separates calls: no call has log_writes on both sides. */
  ghost predicate Clean(es: seq<Event>, k: nat) {
    forall i, j :: 0 <= i < k <= j < |es| ==> es[i].op != es[j].op
  }

  ghost predicate Calls(l: Log) {
    && l.outstanding == |l.open|
    && l.committing == !(l.phase.Idle? || Recovering(l.phase))
    && (!l.phase.Idle? ==> l.open == map[])
    && (l.phase.Idle? && l.open == map[] ==> l.lh == [])
    && |l.base| == l.c.nblocks && l.returned <= l.stable <= |l.events|
    && (!BeforeCommit(l.phase) || l.lh == [] ==> l.stable == |l.events|)
  }

  /** Call numbers are never reused, and a commit never separates a call's log_writes. */
  ghost predicate Numbered(open: map<Pid, Call>, nextOp: nat, es: seq<Event>, stable: nat) {
    && (forall p :: p in open ==> open[p].op < nextOp)
    && (forall p, q :: p in open && q in open && p != q ==> open[p].op != open[q].op)
    && (forall j :: 0 <= j < |es| ==> es[j].op < nextOp)
    && (forall j, p :: 0 <= j < stable && j < |es| && p in open ==> es[j].op != open[p].op)
    && Clean(es, stable)
  }

  ghost predicate LogInv(l: Log) {
    && Calls(l) && Numbered(l.open, l.nextOp, l.events, l.stable)
    && DiskInv(l.c, l.disk, l.lh, l.phase, Logical(l), Durable(l))
  }

  // ----- the whole machine -----

  /** The contents the cache stands for: the log area and, during recovery, every block
      is what is on disk; otherwise a home block is what the last log_write recorded. */
  ghost function View(c: Layout, d: Disk, phase: Phase, now: Disk): (r: Disk)
    requires |now| == |d|
    ensures |r| == |d|
  {
    seq(|d|, b requires 0 <= b < |d| => if InLog(c, b) || Recovering(phase) then d[b] else now[b])
  }

  ghost function Members(lh: seq<nat>): set<nat> { set b | b in lh }

  ghost function Pinned(lh: seq<nat>, phase: Phase): set<nat> {
    match phase
    case Install(t, _) => if t <= |lh| then Members(lh[t..]) else {}
    case _ => if BeforeCommit(phase) then Members(lh) else {}
  }

  ghost function PromiseOf(l: Log): Promise
    requires |l.base| == |l.disk|
  { Promise(l.c, View(l.c, l.disk, l.phase, Logical(l)), Pinned(l.lh, l.phase), l.open.Keys) }

  ghost predicate Inv(s: State) {
    LogInv(s.l) && CacheInv(PromiseOf(s.l), s.bufs)
  }

  lemma InitInv(s: State)
    requires Init(s)
    ensures Inv(s)
  {
  }
}
