/** Every step of the log and buffer cache machine keeps the invariant. */
module LogSteps {
  import opened Common
  import opened LogFormat
  import opened BufferSlots
  import opened LogProtocol
  import opened LogInvariant

  // ----- steps of one buffer: the log does not change -----

  lemma GetKeeps(m: Promise, s: State, p: Pid, b: nat, i: nat)
    requires CacheInv(m, s.bufs) && CanGet(s, p, b, i) && m.c == s.l.c
    ensures CacheInv(m, DoGet(s, p, b, i).bufs)
  {
    var u, v := s.bufs[i], DoGet(s, p, b, i).bufs[i];
    assert BufOk(m, u);
    assert |v.waiting| == |u.waiting| + 1;
    if Caches(u, b) {
      CacheUpdate(m, s.bufs, i, v);
    } else {
      assert BufOk(m, v) by {
        forall k: nat ensures !CachedAt(s.bufs, b, k) {}
      }
      CacheRecycle(m, s.bufs, i, v);
    }
  }

  lemma LockKeeps(m: Promise, s: State, p: Pid, i: nat)
    requires CacheInv(m, s.bufs) && CanLock(s, p, i)
    ensures CacheInv(m, DoLock(s, p, i).bufs)
  {
    assert BufOk(m, s.bufs[i]);
    CacheUpdate(m, s.bufs, i, DoLock(s, p, i).bufs[i]);
  }

  /** brelse needs the contents to be logged: that is what it leaves for others to see. */
  lemma UnlockKeeps(m: Promise, s: State, p: Pid, i: nat)
    requires CacheInv(m, s.bufs) && CanUnlock(s, p, i)
    requires s.bufs[i].slot.valid && IsHome(m.c, s.bufs[i].slot.blockno) && p in m.writers
             ==> s.bufs[i].data == m.view[s.bufs[i].slot.blockno]
    ensures CacheInv(m, DoUnlock(s, p, i).bufs)
  {
    assert BufOk(m, s.bufs[i]);
    CacheUpdate(m, s.bufs, i, DoUnlock(s, p, i).bufs[i]);
  }

  lemma PutKeeps(m: Promise, s: State, i: nat)
    requires CacheInv(m, s.bufs) && CanPut(s, i)
    ensures CacheInv(m, DoPut(s, i).bufs)
  {
    assert BufOk(m, s.bufs[i]);
    CacheUpdate(m, s.bufs, i, DoPut(s, i).bufs[i]);
  }

  lemma ModifyKeeps(m: Promise, s: State, p: Pid, i: nat, data: Block)
    requires CacheInv(m, s.bufs) && CanModify(s, p, i, data) && m.c == s.l.c && m.writers == s.l.open.Keys
    ensures CacheInv(m, DoModify(s, p, i, data).bufs)
  {
    assert BufOk(m, s.bufs[i]);
    CacheUpdate(m, s.bufs, i, DoModify(s, p, i, data).bufs[i]);
  }

  /** A block that is not pinned is on disk as the cache stands for it. */
  lemma UnpinnedOnDisk(c: Layout, d: Disk, lh: seq<nat>, phase: Phase, now: Disk, safe: Disk, b: nat)
    requires DiskInv(c, d, lh, phase, now, safe) && b < |d| && b !in Pinned(lh, phase)
    ensures View(c, d, phase, now)[b] == d[b]
  {
    if IsHome(c, b) && !Recovering(phase) {
      var hdr := HeaderOf(d[c.start]);
      assert b !in hdr ==> AtHome(d, safe, b);
      assert BeforeCommit(phase) ==> AtHome(now, safe, b);
      if b in hdr {
        var i :| 0 <= i < |hdr| && hdr[i] == b;
        assert AtHome(d, now, hdr[i]);
      }
    }
  }

  lemma FillKeeps(m: Promise, s: State, p: Pid, i: nat)
    requires CacheInv(m, s.bufs) && CanFill(s, p, i) && |s.l.disk| == |m.view| && GoodDisk(s.l.c, s.l.disk)
    requires s.bufs[i].slot.blockno !in m.pinned ==> m.view[s.bufs[i].slot.blockno] == s.l.disk[s.bufs[i].slot.blockno]
    ensures CacheInv(m, DoFill(s, p, i).bufs)
  {
    var b := s.bufs[i].slot.blockno;
    assert BufOk(m, s.bufs[i]);
    if b in m.pinned {
      assert false;
    }
    CacheUpdate(m, s.bufs, i, DoFill(s, p, i).bufs[i]);
  }

  // ----- begin_op, end_op -----

  lemma CacheWith(m: Promise, bufs: seq<Buf>, p: Pid)
    requires CacheInv(m, bufs)
    ensures CacheInv(m.(writers := m.writers + {p}), bufs)
  {
    forall k | 0 <= k < |bufs| ensures BufOk(m.(writers := m.writers + {p}), bufs[k]) {
      assert BufOk(m, bufs[k]);
    }
  }

  /** A call that ends holds no changed buffer, so the cache no longer excuses it. */
  lemma CacheWithout(m: Promise, bufs: seq<Buf>, p: Pid)
    requires CacheInv(m, bufs)
    requires forall i :: 0 <= i < |bufs| && bufs[i].holder == Some(p) && bufs[i].slot.valid
               && bufs[i].slot.blockno < |m.view| && IsHome(m.c, bufs[i].slot.blockno)
               ==> bufs[i].data == m.view[bufs[i].slot.blockno]
    ensures CacheInv(m.(writers := m.writers - {p}), bufs)
  {
    forall k | 0 <= k < |bufs| ensures BufOk(m.(writers := m.writers - {p}), bufs[k]) {
      assert BufOk(m, bufs[k]);
    }
  }

  lemma BeginKeepsLog(s: State, p: Pid)
    requires LogInv(s.l) && CanBeginOp(s, p)
    ensures LogInv(DoBeginOp(s, p).l)
    ensures PromiseOf(DoBeginOp(s, p).l) == PromiseOf(s.l).(writers := s.l.open.Keys + {p})
  {
    var l, l' := s.l, DoBeginOp(s, p).l;
    assert l'.open.Keys == l.open.Keys + {p};
    assert Logical(l') == Logical(l) && Durable(l') == Durable(l);
  }

  lemma BeginKeeps(s: State, p: Pid)
    requires Inv(s) && CanBeginOp(s, p)
    ensures Inv(DoBeginOp(s, p))
  {
    BeginKeepsLog(s, p);
    CacheWith(PromiseOf(s.l), s.bufs, p);
  }

  lemma EndKeepsLog(s: State, p: Pid)
    requires LogInv(s.l) && CanEndOp(s, p)
    ensures LogInv(DoEndOp(s, p).l)
    ensures PromiseOf(DoEndOp(s, p).l) == PromiseOf(s.l).(writers := s.l.open.Keys - {p})
  {
    var l, l' := s.l, DoEndOp(s, p).l;
    assert l'.open.Keys == l.open.Keys - {p};
    assert |l'.open.Keys| == |l.open.Keys| - 1;
    assert l.events[..|l.events|] == l.events;
    assert Logical(l') == Logical(l) && Durable(l') == Durable(l);
  }

  lemma EndKeeps(s: State, p: Pid)
    requires Inv(s) && CanEndOp(s, p)
    ensures Inv(DoEndOp(s, p))
  {
    var m := PromiseOf(s.l);
    EndKeepsLog(s, p);
    forall i | 0 <= i < |s.bufs| && s.bufs[i].holder == Some(p) && s.bufs[i].slot.valid
               && s.bufs[i].slot.blockno < |m.view| && IsHome(m.c, s.bufs[i].slot.blockno)
      ensures s.bufs[i].data == m.view[s.bufs[i].slot.blockno]
    {
      assert BufOk(m, s.bufs[i]);
    }
    CacheWithout(m, s.bufs, p);
  }

  // ----- log_write -----

  ghost function Absorb(lh: seq<nat>, b: nat): seq<nat> { if b in lh then lh else lh + [b] }

  lemma AbsorbKeepsDisk(c: Layout, d: Disk, lh: seq<nat>, now: Disk, safe: Disk, b: nat, data: Block)
    requires DiskInv(c, d, lh, Idle, now, safe) && IsHome(c, b) && |data.words| == WORDS
    requires |lh| < LOGSIZE && |lh| < c.size - 1
    ensures DiskInv(c, d, Absorb(lh, b), Idle, now[b := data], safe)
  {
    if b !in lh { DistinctMore(lh, b); }
    forall x | 0 <= x < |now| && IsHome(c, x) && x !in Absorb(lh, b) ensures AtHome(now[b := data], safe, x) {
      assert AtHome(now, safe, x);
    }
  }

  lemma EventKeepsNumbers(open: map<Pid, Call>, nextOp: nat, es: seq<Event>, stable: nat, p: Pid, e: Event, b: nat)
    requires Numbered(open, nextOp, es, stable) && p in open && e.op == open[p].op && stable <= |es|
    ensures Numbered(open[p := open[p].(logged := open[p].logged + {b})], nextOp, es + [e], stable)
  {
    var es' := es + [e];
    forall i, j | 0 <= i < stable <= j < |es'| ensures es'[i].op != es'[j].op {
      if j == |es| { assert es[i].op != open[p].op; }
    }
  }

  lemma LogWriteKeepsLog(s: State, p: Pid, i: nat)
    requires LogInv(s.l) && CanLogWrite(s, p, i) && |s.bufs[i].data.words| == WORDS
    ensures LogInv(DoLogWrite(s, p, i).l)
    ensures Logical(DoLogWrite(s, p, i).l) == Logical(s.l)[s.bufs[i].slot.blockno := s.bufs[i].data]
  {
    var l, l', u := s.l, DoLogWrite(s, p, i).l, s.bufs[i];
    var b, e := u.slot.blockno, Event(l.open[p].op, u.slot.blockno, u.data);
    AbsorbKeepsDisk(l.c, l.disk, l.lh, Logical(l), Durable(l), b, u.data);
    EventKeepsNumbers(l.open, l.nextOp, l.events, l.stable, p, e, b);
    ReplayAppend(l.base, l.events, e);
    assert l'.events[..l.stable] == l.events[..l.stable];
    assert l'.open.Keys == l.open.Keys;
  }

  lemma LogWritePromise(s: State, p: Pid, i: nat)
    requires LogInv(s.l) && CanLogWrite(s, p, i) && LogInv(DoLogWrite(s, p, i).l)
    requires Logical(DoLogWrite(s, p, i).l) == Logical(s.l)[s.bufs[i].slot.blockno := s.bufs[i].data]
    ensures PromiseOf(DoLogWrite(s, p, i).l)
         == PromiseOf(s.l).(view := PromiseOf(s.l).view[s.bufs[i].slot.blockno := s.bufs[i].data],
                            pinned := Pinned(s.l.lh, Idle) + {s.bufs[i].slot.blockno})
  {
    var l, l', b, data := s.l, DoLogWrite(s, p, i).l, s.bufs[i].slot.blockno, s.bufs[i].data;
    assert PromiseOf(l').view == PromiseOf(l).view[b := data];
    assert l'.open.Keys == l.open.Keys;
    assert Members(l'.lh) == Members(l.lh) + {b};
  }

  lemma LogWriteKeepsCache(m: Promise, bufs: seq<Buf>, i: nat)
    requires CacheInv(m, bufs) && i < |bufs| && bufs[i].slot.valid && bufs[i].slot.dev == ROOTDEV
    ensures var u, b := bufs[i], bufs[i].slot.blockno;
            b < |m.view| && CacheInv(m.(view := m.view[b := u.data], pinned := m.pinned + {b}),
                                     if b in m.pinned then bufs else bufs[i := u.(slot := Ref(u.slot))])
  {
    var u, b := bufs[i], bufs[i].slot.blockno;
    assert BufOk(m, u);
    CacheWrite(m, bufs, i, u);
    assert bufs[i := u] == bufs;
    if b !in m.pinned {
      CachePin(m.(view := m.view[b := u.data]), bufs, i);
    } else {
      assert m.pinned + {b} == m.pinned;
    }
  }

  lemma LogWriteKeeps(s: State, p: Pid, i: nat)
    requires Inv(s) && CanLogWrite(s, p, i)
    ensures Inv(DoLogWrite(s, p, i))
  {
    assert BufOk(PromiseOf(s.l), s.bufs[i]);
    LogWriteKeepsLog(s, p, i);
    LogWritePromise(s, p, i);
    LogWriteKeepsCache(PromiseOf(s.l), s.bufs, i);
  }

  // ----- disk writes: what they do to the disk invariant -----

  lemma WriteLogKeepsDisk(c: Layout, d: Disk, lh: seq<nat>, t: nat, now: Disk, safe: Disk)
    requires DiskInv(c, d, lh, WriteLog(t), now, safe)
    ensures InLog(c, c.start + 1 + t) && IsHome(c, lh[t])
    ensures DiskInv(c, d[c.start + 1 + t := now[lh[t]]], lh, if t + 1 < |lh| then WriteLog(t + 1) else CommitHead, now,
        safe)
  {
    assert IsHome(c, lh[t]);
    LogBlockWrite(c, d, c.start + 1 + t, now[lh[t]], safe);
    OneMoreLogged(c, d, lh, t, now);
  }

  lemma CommitHeadKeepsDisk(c: Layout, d: Disk, lh: seq<nat>, h: Block, now: Disk, safe: Disk)
    requires DiskInv(c, d, lh, CommitHead, now, safe) && |h.words| == WORDS && HeaderOf(h) == lh
    ensures DiskInv(c, d[c.start := h], lh, Install(0, false), now, now)
  {
    forall b | 0 <= b < |d| && IsHome(c, b) && b !in lh ensures AtHome(d, now, b) {
      assert AtHome(now, safe, b) && AtHome(d, safe, b);
    }
    HeadCommits(c, d, h, lh, now);
  }

  lemma InstallKeepsDisk(c: Layout, d: Disk, lh: seq<nat>, t: nat, now: Disk, safe: Disk)
    requires DiskInv(c, d, lh, Install(t, false), now, safe)
    ensures IsHome(c, lh[t]) && DiskInv(c, d[lh[t] := now[lh[t]]], lh, Install(t, true), now, safe)
  {
    assert IsHome(c, lh[t]);
    HomeWrite(c, d, lh[t], now[lh[t]], safe);
    OneMoreHome(d, lh, t, now);
  }

  lemma UnpinKeepsDisk(c: Layout, d: Disk, lh: seq<nat>, t: nat, now: Disk, safe: Disk)
    requires DiskInv(c, d, lh, Install(t, true), now, safe)
    ensures if t + 1 < |lh| then DiskInv(c, d, lh, Install(t + 1, false), now, safe)
            else DiskInv(c, d, [], ClearHead, now, safe)
  {
  }

  lemma ClearHeadKeepsDisk(c: Layout, d: Disk, phase: Phase, h: Block, now: Disk, safe: Disk)
    requires DiskInv(c, d, [], phase, now, safe) && (phase.ClearHead? || phase.RecClear?)
    requires |h.words| == WORDS && HeaderOf(h) == []
    ensures DiskInv(c, d[c.start := h], [], if phase.ClearHead? then CommitDone else Idle, now, safe)
    ensures SameHome(c, d, now)
  {
    HeadClears(c, d, h, now);
    forall b | 0 <= b < |now| && IsHome(c, b) ensures AtHome(now, safe, b) {}
  }

  lemma RecInstallKeepsDisk(c: Layout, d: Disk, lh: seq<nat>, t: nat, now: Disk, safe: Disk)
    requires DiskInv(c, d, lh, RecInstall(t), now, safe)
    ensures IsHome(c, lh[t])
    ensures var d' := d[lh[t] := now[lh[t]]];
            if t + 1 < |lh| then DiskInv(c, d', lh, RecInstall(t + 1), now, safe)
            else DiskInv(c, d', [], RecClear, now, safe)
  {
    assert IsHome(c, lh[t]);
    HomeWrite(c, d, lh[t], now[lh[t]], safe);
    OneMoreHome(d, lh, t, now);
  }

  /** While installing, log block t has the contents that block lh[t] should have. */
  lemma LogBlockData(c: Layout, d: Disk, lh: seq<nat>, phase: Phase, now: Disk, safe: Disk, t: nat)
    requires DiskInv(c, d, lh, phase, now, safe) && (phase.Install? || phase.RecInstall?) && t < |lh|
    ensures IsHome(c, lh[t]) && InLog(c, c.start + 1 + t)
    ensures View(c, d, phase, now)[c.start + 1 + t] == now[lh[t]]
  {
    assert LogHas(c, d, safe, lh, t);
  }

  // ----- disk writes: what they do to the whole machine -----

  /** Overwriting a held buffer together with the contents it stands for. */
  lemma CacheOverwrite(m: Promise, bufs: seq<Buf>, p: Pid, d: nat, b: nat, data: Block)
    requires CacheInv(m, bufs) && Holding(bufs, p, d, b) && b < |m.view| && |data.words| == WORDS
    ensures CacheInv(m.(view := m.view[b := data]), bufs[d := bufs[d].(data := data)])
  {
    assert BufOk(m, bufs[d]);
    CacheWrite(m, bufs, d, bufs[d].(data := data));
  }

  /** A held buffer that no call may have changed has its block's contents. */
  lemma HeldData(m: Promise, bufs: seq<Buf>, p: Pid, i: nat, b: nat)
    requires CacheInv(m, bufs) && Holding(bufs, p, i, b) && p !in m.writers
    ensures b < |m.view| && bufs[i].data == m.view[b] && |bufs[i].data.words| == WORDS
  {
    assert BufOk(m, bufs[i]);
  }

  lemma WriteLogKeepsLog(s: State, to: nat, from: nat)
    requires LogInv(s.l) && CanWriteLogBlock(s, to, from)
        && s.bufs[from].data == PromiseOf(s.l).view[s.l.lh[s.l.phase.tail]]
    ensures LogInv(DoWriteLogBlock(s, to, from).l)
    ensures PromiseOf(DoWriteLogBlock(s, to, from).l)
         == PromiseOf(s.l).(view := PromiseOf(s.l).view[s.l.c.start + 1 + s.l.phase.tail := s.bufs[from].data])
  {
    var l, l' := s.l, DoWriteLogBlock(s, to, from).l;
    WriteLogKeepsDisk(l.c, l.disk, l.lh, l.phase.tail, Logical(l), Durable(l));
    assert Logical(l') == Logical(l) && Durable(l') == Durable(l);
    assert PromiseOf(l').view == PromiseOf(l).view[l.c.start + 1 + l.phase.tail := s.bufs[from].data];
  }

  lemma WriteLogKeeps(s: State, to: nat, from: nat)
    requires Inv(s) && CanWriteLogBlock(s, to, from)
    ensures Inv(DoWriteLogBlock(s, to, from))
  {
    var l := s.l;
    HeldData(PromiseOf(l), s.bufs, l.driver, from, l.lh[l.phase.tail]);
    HeldData(PromiseOf(l), s.bufs, l.driver, to, l.c.start + 1 + l.phase.tail);
    WriteLogKeepsLog(s, to, from);
    CacheOverwrite(PromiseOf(l), s.bufs, l.driver, to, l.c.start + 1 + l.phase.tail, s.bufs[from].data);
  }

  lemma CommitHeadKeepsLog(s: State, i: nat)
    requires LogInv(s.l) && CanWriteCommitHead(s, i)
    ensures LogInv(DoWriteCommitHead(s, i).l)
    ensures PromiseOf(DoWriteCommitHead(s, i).l)
         == PromiseOf(s.l).(view := PromiseOf(s.l).view[s.l.c.start := PutHeader(s.bufs[i].data, s.l.lh)])
  {
    var l, l', h := s.l, DoWriteCommitHead(s, i).l, PutHeader(s.bufs[i].data, s.l.lh);
    CommitHeadKeepsDisk(l.c, l.disk, l.lh, h, Logical(l), Durable(l));
    assert l'.events[..l'.stable] == l.events;
    assert PromiseOf(l').view == PromiseOf(l).view[l.c.start := h];
    assert l.lh[0..] == l.lh;
  }

  lemma CommitHeadKeeps(s: State, i: nat)
    requires Inv(s) && CanWriteCommitHead(s, i)
    ensures Inv(DoWriteCommitHead(s, i))
  {
    CommitHeadKeepsLog(s, i);
    CacheOverwrite(PromiseOf(s.l), s.bufs, s.l.driver, i, s.l.c.start, PutHeader(s.bufs[i].data, s.l.lh));
  }

  lemma InstallKeepsLog(s: State, b: nat, d: nat)
    requires LogInv(s.l) && CanInstallBlock(s, b, d) && s.l.c.start + 1 + s.l.phase.tail < |s.l.disk|
    requires s.bufs[b].data == PromiseOf(s.l).view[s.l.c.start + 1 + s.l.phase.tail]
    ensures LogInv(DoInstallBlock(s, b, d).l)
    ensures PromiseOf(DoInstallBlock(s, b, d).l) == PromiseOf(s.l)
    ensures PromiseOf(s.l).view[s.l.lh[s.l.phase.tail]] == s.bufs[b].data
  {
    var l, l', t := s.l, DoInstallBlock(s, b, d).l, s.l.phase.tail;
    LogBlockData(l.c, l.disk, l.lh, l.phase, Logical(l), Durable(l), t);
    InstallKeepsDisk(l.c, l.disk, l.lh, t, Logical(l), Durable(l));
    assert Logical(l') == Logical(l) && Durable(l') == Durable(l);
    assert PromiseOf(l').view == PromiseOf(l).view;
  }

  /** The buffers that the committer holds have their blocks' contents. */
  lemma InstallHeld(l: Log, bufs: seq<Buf>, b: nat, d: nat, lb: nat, home: nat)
    requires LogInv(l) && CacheInv(PromiseOf(l), bufs) && !l.phase.Idle?
    requires Holding(bufs, l.driver, b, lb) && Holding(bufs, l.driver, d, home)
    ensures lb < |l.disk| && bufs[b].data == PromiseOf(l).view[lb] && |bufs[b].data.words| == WORDS
    ensures home < |l.disk| && bufs[d].data == PromiseOf(l).view[home]
  {
    HeldData(PromiseOf(l), bufs, l.driver, b, lb);
    HeldData(PromiseOf(l), bufs, l.driver, d, home);
  }

  /** The cache keeps its promise when a buffer is overwritten with what it has. */
  lemma RewriteSame(m: Promise, bufs: seq<Buf>, d: nat, data: Block)
    requires CacheInv(m, bufs) && d < |bufs| && bufs[d].data == data
    ensures CacheInv(m, bufs[d := bufs[d].(data := data)])
  {
    assert bufs[d := bufs[d].(data := data)] == bufs;
  }

  lemma InvIs(s: State, m: Promise)
    requires LogInv(s.l) && PromiseOf(s.l) == m && CacheInv(m, s.bufs)
    ensures Inv(s)
  {
  }

  lemma InstallKeepsBoth(s: State, b: nat, d: nat)
    requires Inv(s) && CanInstallBlock(s, b, d)
    ensures LogInv(DoInstallBlock(s, b, d).l) && PromiseOf(DoInstallBlock(s, b, d).l) == PromiseOf(s.l)
    ensures s.bufs[d].data == s.bufs[b].data
  {
    var l := s.l;
    InstallHeld(l, s.bufs, b, d, l.c.start + 1 + l.phase.tail, l.lh[l.phase.tail]);
    InstallKeepsLog(s, b, d);
  }

  lemma InstallKeeps(s: State, b: nat, d: nat)
    requires Inv(s) && CanInstallBlock(s, b, d)
    ensures Inv(DoInstallBlock(s, b, d))
  {
    InstallKeepsBoth(s, b, d);
    RewriteSame(PromiseOf(s.l), s.bufs, d, s.bufs[b].data);
    InvIs(DoInstallBlock(s, b, d), PromiseOf(s.l));
  }

  lemma TailWithout(lh: seq<nat>, t: nat)
    requires Distinct(lh) && t < |lh|
    ensures Members(lh[t + 1..]) == Members(lh[t..]) - {lh[t]} && lh[t] in lh[t..]
    ensures t + 1 == |lh| ==> Members(lh[t..]) - {lh[t]} == {}
  {
    AllDiffer(lh);
    assert lh[t..] == [lh[t]] + lh[t + 1..];
    assert lh[t] !in lh[t + 1..];
  }

  lemma UnpinKeepsLog(s: State, d: nat)
    requires LogInv(s.l) && CanUnpin(s, d)
    ensures LogInv(DoUnpin(s, d).l) && s.l.lh[s.l.phase.tail] in Pinned(s.l.lh, s.l.phase)
    ensures PromiseOf(DoUnpin(s, d).l)
        == PromiseOf(s.l).(pinned := Pinned(s.l.lh, s.l.phase) - {s.l.lh[s.l.phase.tail]})
  {
    var l, l' := s.l, DoUnpin(s, d).l;
    UnpinKeepsDisk(l.c, l.disk, l.lh, l.phase.tail, Logical(l), Durable(l));
    assert Logical(l') == Logical(l) && Durable(l') == Durable(l);
    TailWithout(l.lh, l.phase.tail);
  }

  lemma UnpinKeeps(s: State, d: nat)
    requires Inv(s) && CanUnpin(s, d)
    ensures Inv(DoUnpin(s, d))
  {
    UnpinKeepsLog(s, d);
    CacheUnpin(PromiseOf(s.l), s.bufs, d);
  }

  lemma ClearHeadKeepsLog(s: State, i: nat)
    requires LogInv(s.l) && CanWriteClearHead(s, i)
    ensures LogInv(DoWriteClearHead(s, i).l)
    ensures PromiseOf(DoWriteClearHead(s, i).l)
         == PromiseOf(s.l).(view := PromiseOf(s.l).view[s.l.c.start := PutHeader(s.bufs[i].data, [])])
  {
    var l, l', h := s.l, DoWriteClearHead(s, i).l, PutHeader(s.bufs[i].data, []);
    ClearHeadKeepsDisk(l.c, l.disk, l.phase, h, Logical(l), Durable(l));
    assert Logical(l') == Logical(l) && Durable(l') == Durable(l);
    assert PromiseOf(l').view == PromiseOf(l).view[l.c.start := h];
  }

  lemma ClearHeadKeeps(s: State, i: nat)
    requires Inv(s) && CanWriteClearHead(s, i)
    ensures Inv(DoWriteClearHead(s, i))
  {
    ClearHeadKeepsLog(s, i);
    CacheOverwrite(PromiseOf(s.l), s.bufs, s.l.driver, i, s.l.c.start, PutHeader(s.bufs[i].data, []));
  }

  lemma FinishKeeps(s: State)
    requires Inv(s) && CanFinishCommit(s)
    ensures Inv(DoFinishCommit(s))
  {
    var l, l' := s.l, DoFinishCommit(s).l;
    assert Logical(l') == Logical(l) && Durable(l') == Durable(l);
    forall b | 0 <= b < |Logical(l)| && IsHome(l.c, b) ensures AtHome(Logical(l), Durable(l), b) {}
    assert PromiseOf(l') == PromiseOf(l);
  }

  // ----- recovery and crash -----

  lemma RecHeadKeeps(s: State, i: nat)
    requires Inv(s) && CanRecHead(s, i)
    ensures Inv(DoRecHead(s, i))
  {
    var l, l' := s.l, DoRecHead(s, i).l;
    HeldData(PromiseOf(l), s.bufs, l.driver, i, l.c.start);
    assert Logical(l') == Logical(l) && Durable(l') == Durable(l);
    assert PromiseOf(l') == PromiseOf(l);
  }

  lemma RecInstallKeepsLog(s: State, b: nat, d: nat)
    requires LogInv(s.l) && CanRecInstallBlock(s, b, d) && s.l.c.start + 1 + s.l.phase.tail < |s.l.disk|
    requires s.bufs[b].data == PromiseOf(s.l).view[s.l.c.start + 1 + s.l.phase.tail]
    ensures LogInv(DoRecInstallBlock(s, b, d).l)
    ensures PromiseOf(DoRecInstallBlock(s, b, d).l)
         == PromiseOf(s.l).(view := PromiseOf(s.l).view[s.l.lh[s.l.phase.tail] := s.bufs[b].data])
  {
    var l, l', t := s.l, DoRecInstallBlock(s, b, d).l, s.l.phase.tail;
    LogBlockData(l.c, l.disk, l.lh, l.phase, Logical(l), Durable(l), t);
    RecInstallKeepsDisk(l.c, l.disk, l.lh, t, Logical(l), Durable(l));
    assert Logical(l') == Logical(l) && Durable(l') == Durable(l);
    assert PromiseOf(l').view == PromiseOf(l).view[l.lh[t] := s.bufs[b].data];
  }

  lemma RecInstallCache(l: Log, bufs: seq<Buf>, d: nat, home: nat, data: Block)
    requires LogInv(l) && CacheInv(PromiseOf(l), bufs) && !l.phase.Idle? && Holding(bufs, l.driver, d, home)
    requires home < |PromiseOf(l).view| && |data.words| == WORDS
    ensures CacheInv(PromiseOf(l).(view := PromiseOf(l).view[home := data]), bufs[d := bufs[d].(data := data)])
  {
    CacheOverwrite(PromiseOf(l), bufs, l.driver, d, home, data);
  }

  lemma RecInstallKeeps(s: State, b: nat, d: nat)
    requires Inv(s) && CanRecInstallBlock(s, b, d)
    ensures Inv(DoRecInstallBlock(s, b, d))
  {
    var l, home, data := s.l, s.l.lh[s.l.phase.tail], s.bufs[b].data;
    InstallHeld(l, s.bufs, b, d, l.c.start + 1 + l.phase.tail, home);
    RecInstallKeepsLog(s, b, d);
    RecInstallCache(l, s.bufs, d, home, data);
    InvIs(DoRecInstallBlock(s, b, d), PromiseOf(l).(view := PromiseOf(l).view[home := data]));
  }

  lemma RecClearKeepsLog(s: State, i: nat)
    requires LogInv(s.l) && CanRecClearHead(s, i)
    ensures LogInv(DoRecClearHead(s, i).l)
    ensures PromiseOf(DoRecClearHead(s, i).l)
         == PromiseOf(s.l).(view := PromiseOf(s.l).view[s.l.c.start := PutHeader(s.bufs[i].data, [])])
  {
    var l, l', h := s.l, DoRecClearHead(s, i).l, PutHeader(s.bufs[i].data, []);
    ClearHeadKeepsDisk(l.c, l.disk, l.phase, h, Logical(l), Durable(l));
    assert Logical(l') == Logical(l) && Durable(l') == Durable(l);
    forall b | 0 <= b < |l.disk| ensures PromiseOf(l').view[b] == PromiseOf(l).view[l.c.start := h][b] {
      assert IsHome(l.c, b) ==> AtHome(l.disk, Logical(l), b);
    }
  }

  lemma RecClearKeeps(s: State, i: nat)
    requires Inv(s) && CanRecClearHead(s, i)
    ensures Inv(DoRecClearHead(s, i))
  {
    RecClearKeepsLog(s, i);
    CacheOverwrite(PromiseOf(s.l), s.bufs, s.l.driver, i, s.l.c.start, PutHeader(s.bufs[i].data, []));
  }

  lemma CrashKeeps(s: State, driver: Pid)
    requires Inv(s) && CanCrash(s, driver)
    ensures Inv(DoCrash(s, driver))
  {
    var l, l' := s.l, DoCrash(s, driver).l;
    assert l'.events[..l'.stable] == l'.events;
    assert Logical(l') == Durable(l) && Durable(l') == Durable(l);
  }

  // ----- any step -----

  lemma CacheStepKeeps(s: State, step: Step)
    requires Inv(s) && Enabled(s, step)
    requires step.Get? || step.Lock? || step.Fill? || step.Modify? || step.Unlock? || step.Put?
    ensures Inv(Take(s, step))
  {
    var l, m := s.l, PromiseOf(s.l);
    match step
    case Get(p, b, i) => GetKeeps(m, s, p, b, i);
    case Lock(p, i) => LockKeeps(m, s, p, i);
    case Fill(p, i) =>
      if s.bufs[i].slot.blockno !in m.pinned {
        UnpinnedOnDisk(l.c, l.disk, l.lh, l.phase, Logical(l), Durable(l), s.bufs[i].slot.blockno);
      }
      FillKeeps(m, s, p, i);
    case Modify(p, i, data) => ModifyKeeps(m, s, p, i, data);
    case Unlock(p, i) =>
      assert BufOk(m, s.bufs[i]);
      UnlockKeeps(m, s, p, i);
    case Put(i) => PutKeeps(m, s, i);
    case _ =>
  }

  /** Every step keeps the invariant. */
  lemma StepKeeps(s: State, step: Step)
    requires Inv(s) && Enabled(s, step)
    ensures Inv(Take(s, step))
  {
    match step
    case BeginOp(p) => BeginKeeps(s, p);
    case EndOp(p) => EndKeeps(s, p);
    case LogWrite(p, i) => LogWriteKeeps(s, p, i);
    case WriteLogBlock(to, from) => WriteLogKeeps(s, to, from);
    case WriteCommitHead(i) => CommitHeadKeeps(s, i);
    case InstallBlock(b, d) => InstallKeeps(s, b, d);
    case Unpin(d) => UnpinKeeps(s, d);
    case WriteClearHead(i) => ClearHeadKeeps(s, i);
    case FinishCommit => FinishKeeps(s);
    case RecHead(i) => RecHeadKeeps(s, i);
    case RecInstallBlock(b, d) => RecInstallKeeps(s, b, d);
    case RecClearHead(i) => RecClearKeeps(s, i);
    case Crash(driver) => CrashKeeps(s, driver);
    case _ => CacheStepKeeps(s, step);
  }
}
