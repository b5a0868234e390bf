/** How much log space calls need: begin_op's reservation, and exactly when log_write can
    reach its "too big a transaction" panic (kernel/log.c). */
module LogSpace {
  import opened Common
  import opened LogFormat
  import opened BufferSlots
  import opened LogProtocol
  import opened LogInvariant
  import opened LogTheorems

  /** No call has logged more than k distinct blocks. */
  ghost predicate Within(l: Log, k: nat) {
    forall p :: p in l.open ==> |l.open[p].logged| <= k
  }

  /** What the calls in progress may still log, at k distinct blocks each. */
  ghost function Unspent(open: map<Pid, Call>, k: nat): (n: int)
    decreases |open|
  {
    if open == map[] then 0
    else
      var p :| p in open;
      (k - |open[p].logged|) + Unspent(open - {p}, k)
  }

  lemma {:induction false} UnspentPick(open: map<Pid, Call>, k: nat, q: Pid)
    requires q in open
    ensures Unspent(open, k) == (k - |open[q].logged|) + Unspent(open - {q}, k)
    decreases |open|
  {
    var p :| p in open && Unspent(open, k) == (k - |open[p].logged|) + Unspent(open - {p}, k);
    if p != q {
      assert |open - {p}| < |open| && |open - {q}| < |open|;
      UnspentPick(open - {p}, k, q);
      UnspentPick(open - {q}, k, p);
      assert open - {p} - {q} == open - {q} - {p};
    }
  }

  lemma {:induction false} UnspentAtMost(open: map<Pid, Call>, k: nat)
    ensures Unspent(open, k) <= k * |open|
    decreases |open|
  {
    if open != map[] {
      var p :| p in open;
      UnspentPick(open, k, p);
      assert |open - {p}| == |open| - 1;
      UnspentAtMost(open - {p}, k);
    }
  }

  lemma {:induction false} UnspentNonNegative(open: map<Pid, Call>, k: nat)
    requires forall p :: p in open ==> |open[p].logged| <= k
    ensures Unspent(open, k) >= 0
    ensures forall p :: p in open ==> Unspent(open, k) >= k - |open[p].logged|
    decreases |open|
  {
    forall p | p in open ensures Unspent(open, k) >= k - |open[p].logged| {
      UnspentPick(open, k, p);
      assert |open - {p}| < |open|;
      UnspentNonNegative(open - {p}, k);
    }
    if open != map[] { var p :| p in open; }
  }

  /** Logged blocks plus unspent reservations fit in cap. */
  ghost predicate Fits(l: Log, k: nat, cap: nat) {
    && |l.lh| + Unspent(l.open, k) <= cap
    && forall p, b :: p in l.open && b in l.open[p].logged ==> b in l.lh
  }

  /** begin_op's test leaves room for one more call: all of LOGSIZE when a call may use all
      of MAXOPBLOCKS, and two blocks less when it stays below. */
  ghost predicate Plan(k: nat, cap: nat) {
    (k == MAXOPBLOCKS && cap == LOGSIZE) || (k == MAXOPBLOCKS - 1 && cap == LOGSIZE - 2)
  }

  lemma BeginFits(s: State, p: Pid, k: nat, cap: nat)
    requires Plan(k, cap) && Calls(s.l) && Fits(s.l, k, cap) && CanBeginOp(s, p)
    ensures Fits(DoBeginOp(s, p).l, k, cap)
  {
    var l, l' := s.l, DoBeginOp(s, p).l;
    UnspentPick(l'.open, k, p);
    assert l'.open - {p} == l.open;
    UnspentAtMost(l.open, k);
    if l.open == map[] {
      assert |l.lh| == 0;
    }
  }

  lemma EndFits(s: State, p: Pid, k: nat, cap: nat)
    requires Fits(s.l, k, cap) && CanEndOp(s, p) && |s.l.open[p].logged| <= k
    ensures Fits(DoEndOp(s, p).l, k, cap)
  {
    UnspentPick(s.l.open, k, p);
  }

  lemma LogWriteFits(s: State, p: Pid, i: nat, k: nat, cap: nat)
    requires Fits(s.l, k, cap) && CanLogWrite(s, p, i)
    ensures Fits(DoLogWrite(s, p, i).l, k, cap)
  {
    var l, l', b := s.l, DoLogWrite(s, p, i).l, s.bufs[i].slot.blockno;
    UnspentPick(l.open, k, p);
    UnspentPick(l'.open, k, p);
    assert l'.open - {p} == l.open - {p};
    if b !in l.lh {
      assert |l.open[p].logged + {b}| == |l.open[p].logged| + 1;
    } else {
      assert |l.open[p].logged + {b}| >= |l.open[p].logged| by {
        if b in l.open[p].logged { assert l.open[p].logged + {b} == l.open[p].logged; }
      }
    }
  }

  /** No other step adds a call or a block while calls are in progress. */
  lemma OtherFits(s: State, step: Step, k: nat, cap: nat)
    requires Fits(s.l, k, cap) && Calls(s.l) && Enabled(s, step) && Within(s.l, k) && !Recovering(s.l.phase)
    requires !step.BeginOp? && !step.EndOp? && !step.LogWrite?
    ensures Recovering(Take(s, step).l.phase) || Fits(Take(s, step).l, k, cap)
  {
    UnspentNonNegative(s.l.open, k);
  }

  /** What the count of blocks needs of the invariant. */
  ghost predicate Orderly(l: Log) { Calls(l) && (l.phase.RecClear? ==> l.lh == []) }

  lemma RecoveryFits(s: State, step: Step, k: nat, cap: nat)
    requires Orderly(s.l) && Enabled(s, step) && Recovering(s.l.phase)
    ensures Recovering(Take(s, step).l.phase) || Fits(Take(s, step).l, k, cap)
  {
  }

  lemma StepFits(s: State, step: Step, k: nat, cap: nat)
    requires Plan(k, cap) && Orderly(s.l) && Enabled(s, step) && Within(s.l, k)
    requires Recovering(s.l.phase) || Fits(s.l, k, cap)
    ensures Recovering(Take(s, step).l.phase) || Fits(Take(s, step).l, k, cap)
  {
    if Recovering(s.l.phase) {
      RecoveryFits(s, step, k, cap);
    } else {
      match step
      case BeginOp(p) => BeginFits(s, p, k, cap);
      case EndOp(p) => EndFits(s, p, k, cap);
      case LogWrite(p, i) => LogWriteFits(s, p, i, k, cap);
      case _ => OtherFits(s, step, k, cap);
    }
  }

  ghost predicate FitsNow(l: Log, k: nat, cap: nat) { Recovering(l.phase) || Fits(l, k, cap) }

  lemma NextFits(ss: seq<State>, steps: seq<Step>, i: nat, k: nat, cap: nat)
    requires Plan(k, cap) && IsRun(ss, steps) && i < |steps| && Within(ss[i].l, k) && FitsNow(ss[i].l, k, cap)
    ensures FitsNow(ss[i + 1].l, k, cap)
  {
    assert Orderly(ss[i].l) by { RunInv(ss, steps, i); }
    assert StepAt(ss, steps, i);
    StepFits(ss[i], steps[i], k, cap);
  }

  lemma {:induction false} RunFits(ss: seq<State>, steps: seq<Step>, i: nat, k: nat, cap: nat)
    requires Plan(k, cap) && IsRun(ss, steps) && i < |ss| && forall j :: 0 <= j < |ss| ==> Within(ss[j].l, k)
    ensures FitsNow(ss[i].l, k, cap)
  {
    if i > 0 {
      RunFits(ss, steps, i - 1, k, cap);
      NextFits(ss, steps, i - 1, k, cap);
    }
  }

  /** While calls keep to MAXOPBLOCKS distinct blocks, the logged blocks and everything the
      calls in progress may still log fit in LOGSIZE. */
  lemma ReservationsFit(ss: seq<State>, steps: seq<Step>, i: nat)
    requires IsRun(ss, steps) && i < |ss| && ss[i].l.phase.Idle?
    requires forall j :: 0 <= j < |ss| ==> Within(ss[j].l, MAXOPBLOCKS)
    ensures |ss[i].l.lh| + Unspent(ss[i].l.open, MAXOPBLOCKS) <= LOGSIZE
  {
    RunFits(ss, steps, i, MAXOPBLOCKS, LOGSIZE);
  }

  /** With the log that mkfs makes, calls that log at most MAXOPBLOCKS - 1 distinct blocks
      never reach "too big a transaction". */
  lemma NeverTooBig(ss: seq<State>, steps: seq<Step>, i: nat, p: Pid)
    requires IsRun(ss, steps) && i < |ss| && p in ss[i].l.open && ss[i].l.c.size >= LOGSIZE
    requires forall j :: 0 <= j < |ss| ==> Within(ss[j].l, MAXOPBLOCKS - 1)
    ensures !TooBig(ss[i].l)
  {
    assert ss[i].l.phase.Idle? by { RunInv(ss, steps, i); }
    RunFits(ss, steps, i, MAXOPBLOCKS - 1, LOGSIZE - 2);
    UnspentNonNegative(ss[i].l.open, MAXOPBLOCKS - 1);
  }

  // ----- three calls of MAXOPBLOCKS blocks reach the panic -----

  const MKFS := Layout(2, 30, 2000)       // logstart, nlog and FSSIZE of mkfs.c

  /** A run that reaches s and in which no call logs more than MAXOPBLOCKS blocks. */
  ghost predicate Reaches(ss: seq<State>, steps: seq<Step>, s: State) {
    IsRun(ss, steps) && ss[|ss| - 1] == s && forall j :: 0 <= j < |ss| ==> Within(ss[j].l, MAXOPBLOCKS)
  }

  ghost predicate Reachable(s: State) { exists ss, steps :: Reaches(ss, steps, s) }

  lemma ReachStep(s: State, step: Step)
    requires Reachable(s) && Enabled(s, step) && Within(Take(s, step).l, MAXOPBLOCKS)
    ensures Reachable(Take(s, step))
  {
    var ss, steps :| Reaches(ss, steps, s);
    var ss', steps' := ss + [Take(s, step)], steps + [step];
    forall i | 0 <= i < |steps'| ensures StepAt(ss', steps', i) {
      assert i < |steps| ==> StepAt(ss, steps, i);
    }
    assert Reaches(ss', steps', Take(s, step));
  }

  ghost function Reread(b: nat, data: Block, refcnt: nat): Buf {
    Buf(Slot(true, ROOTDEV, b, refcnt), data, None, multiset{}, 0)
  }

  /** The next call to log something, and how many blocks it has logged, after n in all. */
  ghost function Turn(n: nat): Pid { n / MAXOPBLOCKS }

  ghost predicate Spent(open: map<Pid, Call>, n: nat) {
    && open.Keys == {0, 1, 2}
    && (forall q :: q in open ==> |open[q].logged| <= MAXOPBLOCKS)
    && (forall q :: q in open && q >= Turn(n) ==> |open[q].logged| <= if q == Turn(n) then n % MAXOPBLOCKS else 0)
  }

  ghost predicate StageLog(l: Log, n: nat) {
    && l.c == MKFS && l.phase == Idle && |l.disk| == |l.base| == MKFS.nblocks && !l.committing
    && l.outstanding == 3 && Spent(l.open, n) && Logical(l) == l.disk && GoodDisk(MKFS, l.disk)
    && l.lh == seq(n, k => 100 + k)
  }

  ghost predicate StageBufs(bufs: seq<Buf>, n: nat) {
    && |bufs| == NBUF && Caches(bufs[0], MKFS.start)
    && (forall k :: 1 <= k <= n && k < NBUF ==> Caches(bufs[k], 99 + k))
    && (forall k :: n < k < NBUF && k > 0 ==> bufs[k] == FreshBuf)
  }

  /** Three calls are in progress and n distinct blocks are logged. */
  ghost predicate Stage(s: State, n: nat) { StageLog(s.l, n) && StageBufs(s.bufs, n) }

  /** bread of a block that is not cached into an unused buffer. */
  lemma ReachBread(s: State, p: Pid, b: nat, i: nat)
    requires Reachable(s) && Within(s.l, MAXOPBLOCKS) && (Recovering(s.l.phase) ==> p == s.l.driver)
    requires i < |s.bufs| && s.bufs[i] == FreshBuf && b < s.l.c.nblocks == |s.l.disk|
    requires forall k :: 0 <= k < |s.bufs| ==> !Caches(s.bufs[k], b)
    ensures Reachable(s.(bufs := s.bufs[i := Reread(b, s.l.disk[b], 1).(holder := Some(p))]))
  {
    ReachStep(s, Get(p, b, i));
    var s1 := DoGet(s, p, b, i);
    ReachStep(s1, Lock(p, i));
    var s2 := DoLock(s1, p, i);
    assert s2.bufs[i].waiting == multiset{};
    ReachStep(s2, Fill(p, i));
    assert DoFill(s2, p, i).bufs == s.bufs[i := Reread(b, s.l.disk[b], 1).(holder := Some(p))];
  }

  /** brelse of a buffer that is pinned, or not logged at all. */
  lemma ReachBrelse(s: State, p: Pid, i: nat, u: Buf)
    requires Reachable(s) && Within(s.l, MAXOPBLOCKS) && i < |s.bufs| && s.bufs[i] == u && u.slot.refcnt > 0
    requires u.holder == Some(p) && u.leaving == 0 && Logged(s.l, u)
    ensures Reachable(s.(bufs := s.bufs[i := u.(holder := None, slot := Unref(u.slot))]))
  {
    ReachStep(s, Unlock(p, i));
    var s1 := DoUnlock(s, p, i);
    ReachStep(s1, Put(i));
    assert DoPut(s1, i).bufs == s.bufs[i := u.(holder := None, slot := Unref(u.slot))];
  }

  /** The log after the n-th log_write, which rewrites its block unchanged. */
  ghost function LogOneLog(l: Log, n: nat): Log
    requires StageLog(l, n) && n < 29
  {
    var p := Turn(n);
    var b := 100 + n;
    l.(lh := l.lh + [b], events := l.events + [Event(l.open[p].op, b, l.disk[b])],
       open := l.open[p := l.open[p].(logged := l.open[p].logged + {b})])
  }

  ghost function LogOneState(s: State, n: nat): State
    requires Stage(s, n) && n < 29
  {
    State(s.bufs[n + 1 := Reread(100 + n, s.l.disk[100 + n], 1)], LogOneLog(s.l, n))
  }

  lemma LogOneSpent(open: map<Pid, Call>, n: nat, b: nat)
    requires Spent(open, n) && n < 29
    ensures var p := Turn(n); p in open && Spent(open[p := open[p].(logged := open[p].logged + {b})], n + 1)
  {
    var p := Turn(n);
    var open' := open[p := open[p].(logged := open[p].logged + {b})];
    assert open'.Keys == open.Keys;
    assert |open[p].logged + {b}| <= |open[p].logged| + 1;
  }

  lemma LogOneStage(l: Log, n: nat)
    requires StageLog(l, n) && n < 29
    ensures StageLog(LogOneLog(l, n), n + 1) && Within(LogOneLog(l, n), MAXOPBLOCKS)
  {
    var l' := LogOneLog(l, n);
    LogOneSpent(l.open, n, 100 + n);
    ReplayAppend(l.base, l.events, Event(l.open[Turn(n)].op, 100 + n, l.disk[100 + n]));
    assert l.disk[100 + n := l.disk[100 + n]] == l.disk;
    assert l'.lh == seq(n + 1, k => 100 + k);
  }

  lemma LogOneWrite(s: State, n: nat)
    requires Reachable(s) && StageLog(s.l, n) && n < 29
    requires n + 1 < |s.bufs| && s.bufs[n + 1] == Reread(100 + n, s.l.disk[100 + n], 1).(holder := Some(Turn(n)))
    ensures Reachable(State(s.bufs[n + 1 := Reread(100 + n, s.l.disk[100 + n], 1)], LogOneLog(s.l, n)))
  {
    var p, i := Turn(n), n + 1;
    LogOneStage(s.l, n);
    assert 100 + n !in s.l.lh;
    ReachStep(s, LogWrite(p, i));
    var s2 := DoLogWrite(s, p, i);
    assert s2.l == LogOneLog(s.l, n);
    ReachBrelse(s2, p, i, s2.bufs[i]);
    assert s2.bufs[i := s2.bufs[i].(holder := None, slot := Unref(s2.bufs[i].slot))]
        == s.bufs[n + 1 := Reread(100 + n, s.l.disk[100 + n], 1)];
  }

  lemma LogOne(s: State, n: nat)
    requires Reachable(s) && Stage(s, n) && n < 29
    ensures Reachable(LogOneState(s, n)) && StageBufs(LogOneState(s, n).bufs, n + 1)
  {
    var p, b, i := Turn(n), 100 + n, n + 1;
    ReachBread(s, p, b, i);
    var s1 := s.(bufs := s.bufs[i := Reread(b, s.l.disk[b], 1).(holder := Some(p))]);
    LogOneWrite(s1, n);
    assert s1.bufs[i := Reread(b, s.l.disk[b], 1)] == s.bufs[i := Reread(b, s.l.disk[b], 1)];
  }

  lemma {:induction false} LogMany(s: State, n: nat) returns (s': State)
    requires Reachable(s) && Stage(s, n) && n <= 29
    ensures Reachable(s') && Stage(s', 29)
    decreases 29 - n
  {
    s' := s;
    if n < 29 {
      LogOne(s, n);
      LogOneStage(s.l, n);
      s' := LogMany(LogOneState(s, n), n + 1);
    }
  }

  ghost const ZERO := Block(seq(WORDS, k => 0))

  /** A formatted disk at boot, about to recover. */
  ghost const BOOT := State(seq(NBUF, k => FreshBuf),
    Log(MKFS, seq(MKFS.nblocks, k => ZERO), [], 0, false, RecReadHead, 0, map[], 0, seq(MKFS.nblocks, k => ZERO), [],
        0, 0))

  lemma Boot()
    ensures Init(BOOT) && Reachable(BOOT)
  {
    assert Entries(ZERO, 0) == [];
    assert Reaches([BOOT], [], BOOT);
  }

  /** The state after boot's recovery of an empty log. */
  ghost const BOOTED := State(BOOT.bufs[0 := Reread(MKFS.start, PutHeader(ZERO, []), 0)],
    BOOT.l.(disk := BOOT.l.disk[MKFS.start := PutHeader(ZERO, [])], phase := Idle))

  lemma Recover()
    ensures Reachable(BOOTED)
  {
    Boot();
    ReachBread(BOOT, 0, MKFS.start, 0);
    var u := Reread(MKFS.start, ZERO, 1).(holder := Some(0));
    var s1 := BOOT.(bufs := BOOT.bufs[0 := u]);
    RecoverEmpty(s1);
    var u' := u.(data := PutHeader(ZERO, []));
    var s2 := State(s1.bufs[0 := u'], BOOTED.l);
    ReachBrelse(s2, 0, 0, u');
    assert BOOTED.bufs == s2.bufs[0 := u'.(holder := None, slot := Unref(u'.slot))];
  }

  /** read_head and write_head of an empty log. */
  lemma RecoverEmpty(s: State)
    requires Reachable(s) && s.l == BOOT.l && Holding(s.bufs, 0, 0, MKFS.start) && s.bufs[0].data == ZERO
    ensures Reachable(State(s.bufs[0 := s.bufs[0].(data := PutHeader(ZERO, []))], BOOTED.l))
  {
    assert HeaderOf(ZERO) == [] by { assert Entries(ZERO, 0) == []; }
    ReachStep(s, RecHead(0));
    var s1 := DoRecHead(s, 0);
    assert s1.l == BOOT.l.(phase := RecClear);
    ReachStep(s1, RecClearHead(0));
  }

  lemma ReachBegin(s: State, p: Pid)
    requires Reachable(s) && Within(s.l, MAXOPBLOCKS) && CanBeginOp(s, p)
    ensures Reachable(DoBeginOp(s, p)) && Within(DoBeginOp(s, p).l, MAXOPBLOCKS)
  {
    ReachStep(s, BeginOp(p));
  }

  lemma ThreeCalls() returns (s: State)
    ensures Reachable(s) && Stage(s, 0)
  {
    Recover();
    s := BOOTED;
    assert PutHeader(ZERO, []).words == ZERO.words;
    assert s.l.disk == BOOT.l.disk;
    ReachBegin(s, 0);
    s := DoBeginOp(s, 0);
    ReachBegin(s, 1);
    s := DoBeginOp(s, 1);
    ReachBegin(s, 2);
    s := DoBeginOp(s, 2);
    assert StageLog(s.l, 0);
  }

  /** mkfs makes a log of LOGSIZE blocks including its header, so three calls that log
      MAXOPBLOCKS blocks each reach "too big a transaction". */
  lemma ThreeFullCallsPanic() returns (s: State)
    ensures Reachable(s) && s.l.c == MKFS && TooBig(s.l)
    ensures 2 in s.l.open && |s.l.open[2].logged| < MAXOPBLOCKS
  {
    s := ThreeCalls();
    s := LogMany(s, 0);
  }

  /** State i of a run on the disk of mkfs, in which no call logs more than k distinct blocks,
      has a call in progress whose next log_write would panic. */
  ghost predicate Panics(ss: seq<State>, steps: seq<Step>, i: nat, p: Pid, k: nat) {
    && IsRun(ss, steps) && i < |ss| && p in ss[i].l.open && ss[i].l.c == MKFS && TooBig(ss[i].l)
    && forall j :: 0 <= j < |ss| ==> Within(ss[j].l, k)
  }

  /** With the log that mkfs makes, a budget of k distinct blocks for each call keeps log_write
      from "too big a transaction" if and only if it is less than MAXOPBLOCKS. */
  lemma BudgetIff(k: nat)
    ensures k < MAXOPBLOCKS <==> forall ss, steps, i, p :: !Panics(ss, steps, i, p, k)
  {
    if k < MAXOPBLOCKS {
      forall ss, steps, i, p ensures !Panics(ss, steps, i, p, k) {
        if Panics(ss, steps, i, p, k) { NeverTooBig(ss, steps, i, p); }
      }
    } else {
      var s := ThreeFullCallsPanic();
      var ss, steps :| Reaches(ss, steps, s);
      assert Panics(ss, steps, |ss| - 1, 2, k);
    }
  }
}
