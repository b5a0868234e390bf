/** Every step keeps the invariant of the process table. */
module ProcSteps {
  import opened Common
  import opened ProcTable
  import opened ProcInvariant

  // ----- CPUs -----

  /** A process on a CPU changes its own fields, and may take or release wait_lock. */
  lemma OwnKeepsCpus(s: State, p: nat, st': ProcState, lock': Holder, pc': Pc, chan': Option<nat>, w: Option<nat>)
    requires CpuInv(s.st, s.lock, s.pc, s.on, s.chan, s.cpus, s.waitLock) && p < |s.pc|
    requires s.on[p].Some? && OnOk(st', lock', pc') && !lock'.Scheduler? && (st' == SLEEPING ==> chan' == Some(p))
    requires pc'.WaitScan? || pc'.Reparent? || pc'.Waking? ==> pc'.i <= |s.pc|
    requires if HoldsWait(pc') then w == Some(p) && (s.waitLock == None || s.waitLock == w)
        else w == if HoldsWait(s.pc[p]) then None else s.waitLock
    ensures CpuInv(s.st[p := st'], s.lock[p := lock'], s.pc[p := pc'], s.on, s.chan[p := chan'], s.cpus, w)
  {
    var st, lock, pc, chan := s.st[p := st'], s.lock[p := lock'], s.pc[p := pc'], s.chan[p := chan'];
    assert RunOk(s.st, s.lock, s.pc, s.on, p) && PlaceOk(s.lock, s.on, s.cpus, p) && WaitLockOk(s.pc, s.waitLock, p);
    forall q: nat | q < |pc| ensures RunOk(st, lock, pc, s.on, q) && PlaceOk(lock, s.on, s.cpus, q) {
      assert RunOk(s.st, s.lock, s.pc, s.on, q) && PlaceOk(s.lock, s.on, s.cpus, q);
    }
    forall q: nat | q < |pc| ensures WaitLockOk(pc, w, q) && ChanOk(st, chan, q) {
      assert WaitLockOk(s.pc, s.waitLock, q) && ChanOk(s.st, s.chan, q);
    }
    forall c: nat | c < |s.cpus| ensures CpuOk(lock, s.on, s.cpus, c) {
      assert CpuOk(s.lock, s.on, s.cpus, c);
    }
  }

  /** A process goes on from its pc to another. */
  lemma MoveKeepsCpus(s: State, p: nat, pc': Pc, w: Option<nat>)
    requires CpuInv(s.st, s.lock, s.pc, s.on, s.chan, s.cpus, s.waitLock) && p < |s.pc|
    requires s.on[p].Some? && OnOk(s.st[p], s.lock[p], pc')
    requires pc'.WaitScan? || pc'.Reparent? || pc'.Waking? ==> pc'.i <= |s.pc|
    requires if HoldsWait(pc') then w == Some(p) && (s.waitLock == None || s.waitLock == w)
        else w == if HoldsWait(s.pc[p]) then None else s.waitLock
    ensures CpuInv(s.st, s.lock, s.pc[p := pc'], s.on, s.chan, s.cpus, w)
  {
    assert PlaceOk(s.lock, s.on, s.cpus, p) && ChanOk(s.st, s.chan, p) && RunOk(s.st, s.lock, s.pc, s.on, p);
    OwnKeepsCpus(s, p, s.st[p], s.lock[p], pc', s.chan[p], w);
    assert s.st[p := s.st[p]] == s.st && s.lock[p := s.lock[p]] == s.lock && s.chan[p := s.chan[p]] == s.chan;
  }

  /** The state of a process on no CPU changes, and it may get a thread. */
  lemma OffKeepsCpus(s: State, q: nat, st': ProcState, pc': Pc)
    requires CpuInv(s.st, s.lock, s.pc, s.on, s.chan, s.cpus, s.waitLock) && q < |s.pc|
    requires s.on[q] == None && OffOk(st', s.lock[q], pc') && st' != SLEEPING && !HoldsWait(pc')
    ensures CpuInv(s.st[q := st'], s.lock, s.pc[q := pc'], s.on, s.chan, s.cpus, s.waitLock)
  {
    var st, pc := s.st[q := st'], s.pc[q := pc'];
    assert RunOk(s.st, s.lock, s.pc, s.on, q) && WaitLockOk(s.pc, s.waitLock, q);
    forall x: nat | x < |pc| ensures RunOk(st, s.lock, pc, s.on, x) && WaitLockOk(pc, s.waitLock, x)
        && ChanOk(st, s.chan, x) {
      assert RunOk(s.st, s.lock, s.pc, s.on, x) && WaitLockOk(s.pc, s.waitLock, x) && ChanOk(s.st, s.chan, x);
    }
  }

  // ----- families -----

  ghost predicate Forks(pc: Pc) { pc.ForkedUsed? || pc.ForkedChild? }

  /** A process that is not in fork goes on from its pc to another. */
  lemma MoveKeepsFamily(s: State, p: nat, pc': Pc)
    requires FamilyInv(s.st, s.parent, s.pc, s.maker) && p < |s.pc| && !Forks(s.pc[p]) && !Forks(pc')
        && s.pc[p] != NoThread && pc' != NoThread
    requires forall i: nat :: i < |s.pc| && s.parent[i] == Some(p) ==> i >= Given(pc', |s.pc|)
    requires ExitOk(s.parent, s.pc[p := pc'], p)
    ensures FamilyInv(s.st, s.parent, s.pc[p := pc'], s.maker)
  {
    var pc := s.pc[p := pc'];
    forall i: nat | i < |pc| ensures ParentOk(s.st, s.parent, pc, i) && HasParent(s.st, s.parent, pc, i)
        && ExitOk(s.parent, pc, i) {
      assert ParentOk(s.st, s.parent, s.pc, i) && HasParent(s.st, s.parent, s.pc, i) && ExitOk(s.parent, s.pc, i);
    }
    forall i: nat | i < |pc| ensures MakerOk(s.st, pc, s.maker, i) && ChildOk(s.st, s.parent, pc, s.maker, i) {
      assert MakerOk(s.st, s.pc, s.maker, i) && ChildOk(s.st, s.parent, s.pc, s.maker, i);
    }
  }

  /** A process changes between living states. */
  lemma AliveKeepsFamily(s: State, q: nat, st': ProcState)
    requires FamilyInv(s.st, s.parent, s.pc, s.maker) && q < |s.pc| && Alive(s.st[q]) && Alive(st')
    ensures FamilyInv(s.st[q := st'], s.parent, s.pc, s.maker)
  {
    var st := s.st[q := st'];
    forall i: nat | i < |s.pc| ensures ParentOk(st, s.parent, s.pc, i) && HasParent(st, s.parent, s.pc, i) {
      assert ParentOk(s.st, s.parent, s.pc, i) && HasParent(s.st, s.parent, s.pc, i);
    }
    forall i: nat | i < |s.pc| ensures MakerOk(st, s.pc, s.maker, i) && ChildOk(st, s.parent, s.pc, s.maker, i) {
      assert MakerOk(s.st, s.pc, s.maker, i) && ChildOk(s.st, s.parent, s.pc, s.maker, i);
    }
  }

  // ----- waiting -----

  /** Not in a loop of wait or wakeup, nor about to become a zombie. */
  ghost predicate Calm(pc: Pc) {
    !pc.WaitScan? && pc != WaitSleep && pc != SleepLocked && !pc.Waking? && pc != ExitLock
  }

  /** A process goes on from one calm pc to another, and no process starts to wait. */
  lemma CalmKeepsWait(s: State, p: nat, st': ProcState, pc': Pc)
    requires WaitInv(s.st, s.parent, s.pc, s.waitLock) && p < |s.pc| == |s.st| && Calm(s.pc[p]) && Calm(pc')
    requires (Waiting(st', pc') ==> Waiting(s.st[p], s.pc[p])) && (st' == ZOMBIE ==> s.st[p] == ZOMBIE)
    ensures WaitInv(s.st[p := st'], s.parent, s.pc[p := pc'], s.waitLock)
  {
    var st, pc := s.st[p := st'], s.pc[p := pc'];
    forall q: nat, i: nat ensures NotForgotten(st, s.parent, pc, s.waitLock, q, i) {
      assert NotForgotten(s.st, s.parent, s.pc, s.waitLock, q, i);
    }
    forall q: nat, i: nat ensures Scanned(st, s.parent, pc, q, i) {
      assert Scanned(s.st, s.parent, s.pc, q, i);
    }
    forall x: nat ensures ParentWoken(st, s.parent, pc, x) {
      assert ParentWoken(s.st, s.parent, s.pc, x);
    }
  }

  // ----- pids -----

  lemma UsedKeepsPids(s: State, p: nat, st': ProcState)
    requires PidInv(s.st, s.parent, s.pid, s.born, s.nextpid, s.reaped) && p < |s.st| && s.st[p] != UNUSED
        && st' != UNUSED
    ensures PidInv(s.st[p := st'], s.parent, s.pid, s.born, s.nextpid, s.reaped)
  {
    var st := s.st[p := st'];
    forall q: nat | q < |s.pid| ensures PidOk(st, s.pid, s.nextpid, s.reaped, q) {
      assert PidOk(s.st, s.pid, s.nextpid, s.reaped, q);
    }
    forall q: nat, r: nat ensures PidsDiffer(st, s.pid, q, r) {
      assert PidsDiffer(s.st, s.pid, q, r);
    }
  }

  // ----- scheduling -----

  lemma PickKeeps(s: State, p: nat, c: nat)
    requires Inv(s) && CanPick(s, p, c)
    ensures Inv(DoPick(s, p, c))
  {
    var t := DoPick(s, p, c);
    Look(s, p);
    assert CpuOk(s.lock, s.on, s.cpus, c);
    forall q: nat | q < |t.pc| ensures RunOk(t.st, t.lock, t.pc, t.on, q) && PlaceOk(t.lock, t.on, t.cpus, q)
        && ChanOk(t.st, t.chan, q) {
      Look(s, q);
    }
    forall d: nat | d < |t.cpus| ensures CpuOk(t.lock, t.on, t.cpus, d) {
      assert CpuOk(s.lock, s.on, s.cpus, d);
    }
    AliveKeepsFamily(s, p, RUNNING);
    CalmKeepsWait(s, p, RUNNING, s.pc[p]);
    assert s.pc[p := s.pc[p]] == s.pc;
    UsedKeepsPids(s, p, RUNNING);
  }

  lemma ResumeKeeps(s: State, p: nat)
    requires Inv(s) && CanResume(s, p)
    ensures Inv(DoResume(s, p))
  {
    var pc' := if s.pc[p].k == ToWait then WaitBack else User;
    Look(s, p);
    OwnKeepsCpus(s, p, RUNNING, Free, pc', None, s.waitLock);
    assert s.st[p := RUNNING] == s.st;
    MoveKeepsFamily(s, p, pc');
    CalmKeepsWait(s, p, RUNNING, pc');
  }

  lemma YieldKeeps(s: State, p: nat)
    requires Inv(s) && CanYield(s, p)
    ensures Inv(DoYield(s, p))
  {
    Look(s, p);
    OwnKeepsCpus(s, p, RUNNABLE, Thread, Sched(ToUser), s.chan[p], s.waitLock);
    assert s.chan[p := s.chan[p]] == s.chan;
    AliveKeepsFamily(s, p, RUNNABLE);
    MoveKeepsFamily(s.(st := s.st[p := RUNNABLE]), p, Sched(ToUser));
    CalmKeepsWait(s, p, RUNNABLE, Sched(ToUser));
    UsedKeepsPids(s, p, RUNNABLE);
  }

  lemma SwtchKeepsCpus(s: State, p: nat)
    requires Inv(s) && CanSwtch(s, p)
    ensures var t := DoSwtch(s, p); CpuInv(t.st, t.lock, t.pc, t.on, t.chan, t.cpus, t.waitLock)
  {
    var t := DoSwtch(s, p);
    Look(s, p);
    forall q: nat | q < |t.pc| ensures RunOk(t.st, t.lock, t.pc, t.on, q) && PlaceOk(t.lock, t.on, t.cpus, q)
        && WaitLockOk(t.pc, t.waitLock, q) {
      Look(s, q);
    }
    forall d: nat | d < |t.cpus| ensures CpuOk(t.lock, t.on, t.cpus, d) {
      assert CpuOk(s.lock, s.on, s.cpus, d);
    }
  }

  lemma SwtchKeeps(s: State, p: nat)
    requires Inv(s) && CanSwtch(s, p)
    ensures Inv(DoSwtch(s, p))
  {
    var t := DoSwtch(s, p);
    SwtchKeepsCpus(s, p);
    Look(s, p);
    MoveKeepsFamily(s, p, t.pc[p]);
    CalmKeepsWait(s, p, s.st[p], t.pc[p]);
    assert s.st[p := s.st[p]] == s.st;
  }

  lemma UnpickKeeps(s: State, p: nat, c: nat)
    requires Inv(s) && CanUnpick(s, p, c)
    ensures Inv(DoUnpick(s, p, c))
  {
    var t := DoUnpick(s, p, c);
    Look(s, p);
    assert CpuOk(s.lock, s.on, s.cpus, c);
    forall q: nat | q < |t.pc| ensures RunOk(t.st, t.lock, t.pc, t.on, q) && PlaceOk(t.lock, t.on, t.cpus, q) {
      Look(s, q);
    }
    forall d: nat | d < |t.cpus| ensures CpuOk(t.lock, t.on, t.cpus, d) {
      assert CpuOk(s.lock, s.on, s.cpus, d);
    }
  }

  lemma KillKeeps(s: State, p: nat)
    requires Inv(s) && CanKill(s, p)
    ensures Inv(DoKill(s, p))
  {
    Look(s, p);
    if s.st[p] == SLEEPING {
      OffKeepsCpus(s, p, RUNNABLE, s.pc[p]);
      assert s.pc[p := s.pc[p]] == s.pc;
      AliveKeepsFamily(s, p, RUNNABLE);
      CalmKeepsWait(s, p, RUNNABLE, s.pc[p]);
      UsedKeepsPids(s, p, RUNNABLE);
    } else {
      assert s.st[p := s.st[p]] == s.st;
    }
  }

  // ----- fork -----

  lemma ForkAllocKeepsFamily(s: State, p: nat, np: nat)
    requires Inv(s) && CanForkAlloc(s, p, np)
    ensures var t := DoForkAlloc(s, p, np); FamilyInv(t.st, t.parent, t.pc, t.maker)
  {
    var t := DoForkAlloc(s, p, np);
    Look(s, p);
    Look(s, np);
    forall i: nat | i < |t.pc| ensures ParentOk(t.st, t.parent, t.pc, i) && HasParent(t.st, t.parent, t.pc, i)
        && ExitOk(t.parent, t.pc, i) {
      Look(s, i);
    }
    forall i: nat | i < |t.pc| ensures MakerOk(t.st, t.pc, t.maker, i) && ChildOk(t.st, t.parent, t.pc, t.maker, i) {
      Look(s, i);
    }
  }

  lemma ForkAllocKeepsPids(s: State, p: nat, np: nat)
    requires Inv(s) && CanForkAlloc(s, p, np)
    ensures var t := DoForkAlloc(s, p, np); PidInv(t.st, t.parent, t.pid, t.born, t.nextpid, t.reaped)
  {
    var t := DoForkAlloc(s, p, np);
    Look(s, np);
    forall k: nat | k < |t.reaped| ensures ReapOk(t.born, t.nextpid, t.reaped, k) {
      assert ReapOk(s.born, s.nextpid, s.reaped, k);
    }
    forall k | 0 <= k < |s.reaped| ensures s.reaped[k].0 < s.nextpid {
      assert ReapOk(s.born, s.nextpid, s.reaped, k);
    }
    forall q: nat | q < |t.pid| ensures PidOk(t.st, t.pid, t.nextpid, t.reaped, q)
        && BornOk(t.parent, t.pid, t.born, q) {
      assert PidOk(s.st, s.pid, s.nextpid, s.reaped, q) && BornOk(s.parent, s.pid, s.born, q)
          && ParentOk(s.st, s.parent, s.pc, q);
    }
    forall q: nat, r: nat ensures PidsDiffer(t.st, t.pid, q, r) {
      assert PidsDiffer(s.st, s.pid, q, r);
      assert q < |s.pid| ==> PidOk(s.st, s.pid, s.nextpid, s.reaped, q);
      assert r < |s.pid| ==> PidOk(s.st, s.pid, s.nextpid, s.reaped, r);
    }
  }

  lemma ForkAllocKeeps(s: State, p: nat, np: nat)
    requires Inv(s) && CanForkAlloc(s, p, np)
    ensures Inv(DoForkAlloc(s, p, np))
  {
    var t := DoForkAlloc(s, p, np);
    Look(s, p);
    Look(s, np);
    OffKeepsCpus(s, np, USED, NoThread);
    assert s.pc[np := NoThread] == s.pc;
    MoveKeepsCpus(s.(st := t.st), p, ForkedUsed(np), s.waitLock);
    ForkAllocKeepsFamily(s, p, np);
    CalmKeepsWait(s, np, USED, NoThread);
    CalmKeepsWait(s.(st := t.st), p, RUNNING, ForkedUsed(np));
    assert t.st[p := RUNNING] == t.st;
    ForkAllocKeepsPids(s, p, np);
  }

  lemma ForkFailKeepsFamily(s: State, p: nat)
    requires Inv(s) && CanForkFail(s, p)
    ensures var t := DoForkFail(s, p); FamilyInv(t.st, t.parent, t.pc, t.maker)
  {
    var t, np := DoForkFail(s, p), s.pc[p].np;
    Look(s, p);
    Look(s, np);
    forall i: nat | i < |t.pc| ensures ParentOk(t.st, t.parent, t.pc, i) && HasParent(t.st, t.parent, t.pc, i)
        && ExitOk(t.parent, t.pc, i) {
      Look(s, i);
    }
    forall i: nat | i < |t.pc| ensures MakerOk(t.st, t.pc, t.maker, i) && ChildOk(t.st, t.parent, t.pc, t.maker, i) {
      Look(s, i);
    }
  }

  lemma ForkFailKeeps(s: State, p: nat)
    requires Inv(s) && CanForkFail(s, p)
    ensures Inv(DoForkFail(s, p))
  {
    var t, np := DoForkFail(s, p), s.pc[p].np;
    Look(s, p);
    Look(s, np);
    OffKeepsCpus(s, np, UNUSED, NoThread);
    assert s.pc[np := NoThread] == s.pc;
    MoveKeepsCpus(s.(st := t.st), p, User, s.waitLock);
    ForkFailKeepsFamily(s, p);
    CalmKeepsWait(s, np, UNUSED, NoThread);
    CalmKeepsWait(s.(st := t.st), p, RUNNING, User);
    assert t.st[p := RUNNING] == t.st;
    forall q: nat | q < |t.pid| ensures PidOk(t.st, t.pid, t.nextpid, t.reaped, q)
        && BornOk(t.parent, t.pid, t.born, q) {
      Look(s, q);
    }
    forall q: nat, r: nat ensures PidsDiffer(t.st, t.pid, q, r) {
      assert PidsDiffer(s.st, s.pid, q, r);
    }
  }

  lemma ForkParentKeepsFamily(s: State, p: nat)
    requires Inv(s) && CanForkParent(s, p)
    ensures var t := DoForkParent(s, p); FamilyInv(t.st, t.parent, t.pc, t.maker)
  {
    var t, np := DoForkParent(s, p), s.pc[p].np;
    Look(s, p);
    Look(s, np);
    forall i: nat | i < |t.pc| ensures ParentOk(t.st, t.parent, t.pc, i) && HasParent(t.st, t.parent, t.pc, i)
        && ExitOk(t.parent, t.pc, i) {
      Look(s, i);
    }
    forall i: nat | i < |t.pc| ensures MakerOk(t.st, t.pc, t.maker, i) && ChildOk(t.st, t.parent, t.pc, t.maker, i) {
      Look(s, i);
    }
  }

  /** A process that has no zombie status gets another parent, outside of exit. */
  lemma ParentKeepsWait(s: State, i: nat, q: nat)
    requires WaitInv(s.st, s.parent, s.pc, s.waitLock) && i < |s.pc| == |s.st| == |s.parent| && Calm(s.pc[i])
        && s.st[i] != ZOMBIE
    ensures WaitInv(s.st, s.parent[i := Some(q)], s.pc, s.waitLock)
  {
    var parent := s.parent[i := Some(q)];
    forall x: nat, j: nat ensures NotForgotten(s.st, parent, s.pc, s.waitLock, x, j)
        && Scanned(s.st, parent, s.pc, x, j) {
      assert NotForgotten(s.st, s.parent, s.pc, s.waitLock, x, j) && Scanned(s.st, s.parent, s.pc, x, j);
    }
    forall x: nat ensures ParentWoken(s.st, parent, s.pc, x) {
      assert ParentWoken(s.st, s.parent, s.pc, x);
    }
  }

  lemma ForkParentKeeps(s: State, p: nat)
    requires Inv(s) && CanForkParent(s, p)
    ensures Inv(DoForkParent(s, p))
  {
    var t, np := DoForkParent(s, p), s.pc[p].np;
    Look(s, p);
    Look(s, np);
    MoveKeepsCpus(s, p, ForkedChild(np), s.waitLock);
    ForkParentKeepsFamily(s, p);
    ParentKeepsWait(s, np, p);
    CalmKeepsWait(s.(parent := t.parent), p, RUNNING, ForkedChild(np));
    assert s.st[p := RUNNING] == s.st;
    forall q: nat | q < |t.pid| ensures BornOk(t.parent, t.pid, t.born, q) {
      Look(s, q);
      assert PidsDiffer(s.st, s.pid, q, np);
    }
    forall k: nat | k < |t.reaped| ensures ReapOk(t.born, t.nextpid, t.reaped, k) {
      assert ReapOk(s.born, s.nextpid, s.reaped, k);
    }
  }

  lemma ForkRunKeepsFamily(s: State, p: nat)
    requires Inv(s) && CanForkRun(s, p)
    ensures var t := DoForkRun(s, p); FamilyInv(t.st, t.parent, t.pc, t.maker)
  {
    var t, np := DoForkRun(s, p), s.pc[p].np;
    Look(s, p);
    Look(s, np);
    forall i: nat | i < |t.pc| ensures ParentOk(t.st, t.parent, t.pc, i) && HasParent(t.st, t.parent, t.pc, i)
        && ExitOk(t.parent, t.pc, i) {
      Look(s, i);
    }
    forall i: nat | i < |t.pc| ensures MakerOk(t.st, t.pc, t.maker, i) && ChildOk(t.st, t.parent, t.pc, t.maker, i) {
      Look(s, i);
    }
  }

  lemma ForkRunKeeps(s: State, p: nat)
    requires Inv(s) && CanForkRun(s, p)
    ensures Inv(DoForkRun(s, p))
  {
    var t, np := DoForkRun(s, p), s.pc[p].np;
    Look(s, p);
    Look(s, np);
    OffKeepsCpus(s, np, RUNNABLE, Off(ToUser));
    var u := s.(st := t.st, pc := s.pc[np := Off(ToUser)]);
    MoveKeepsCpus(u, p, User, s.waitLock);
    ForkRunKeepsFamily(s, p);
    CalmKeepsWait(s, np, RUNNABLE, Off(ToUser));
    CalmKeepsWait(u, p, RUNNING, User);
    assert t.st[p := RUNNING] == t.st;
    UsedKeepsPids(s, np, RUNNABLE);
  }

  // ----- wait -----

  lemma WaitBeginKeeps(s: State, p: nat)
    requires Inv(s) && CanWaitBegin(s, p)
    ensures Inv(DoWaitBegin(s, p))
  {
    var t := DoWaitBegin(s, p);
    Look(s, p);
    MoveKeepsCpus(s, p, WaitScan(0, false), Some(p));
    MoveKeepsFamily(s, p, WaitScan(0, false));
    forall q: nat, i: nat ensures NotForgotten(t.st, t.parent, t.pc, t.waitLock, q, i)
        && Scanned(t.st, t.parent, t.pc, q, i) {
      assert NotForgotten(s.st, s.parent, s.pc, s.waitLock, q, i) && Scanned(s.st, s.parent, s.pc, q, i);
    }
    forall x: nat ensures ParentWoken(t.st, t.parent, t.pc, x) {
      assert ParentWoken(s.st, s.parent, s.pc, x);
    }
  }

  lemma WaitPassKeeps(s: State, p: nat)
    requires Inv(s) && CanWaitPass(s, p)
    ensures Inv(DoWaitPass(s, p))
  {
    var t := DoWaitPass(s, p);
    Look(s, p);
    MoveKeepsCpus(s, p, t.pc[p], s.waitLock);
    MoveKeepsFamily(s, p, t.pc[p]);
    forall q: nat, i: nat ensures NotForgotten(t.st, t.parent, t.pc, t.waitLock, q, i)
        && Scanned(t.st, t.parent, t.pc, q, i) {
      assert NotForgotten(s.st, s.parent, s.pc, s.waitLock, q, i) && Scanned(s.st, s.parent, s.pc, q, i);
    }
    forall x: nat ensures ParentWoken(t.st, t.parent, t.pc, x) {
      assert ParentWoken(s.st, s.parent, s.pc, x);
    }
  }

  lemma WaitReturnKeeps(s: State, p: nat)
    requires Inv(s) && CanWaitReturn(s, p)
    ensures Inv(DoWaitReturn(s, p))
  {
    var t := DoWaitReturn(s, p);
    Look(s, p);
    MoveKeepsCpus(s, p, User, None);
    MoveKeepsFamily(s, p, User);
    forall q: nat, i: nat ensures NotForgotten(t.st, t.parent, t.pc, t.waitLock, q, i)
        && Scanned(t.st, t.parent, t.pc, q, i) {
      assert NotForgotten(s.st, s.parent, s.pc, s.waitLock, q, i) && Scanned(s.st, s.parent, s.pc, q, i);
    }
    forall x: nat ensures ParentWoken(t.st, t.parent, t.pc, x) {
      assert ParentWoken(s.st, s.parent, s.pc, x);
    }
  }

  lemma WaitMoreKeeps(s: State, p: nat)
    requires Inv(s) && CanWaitMore(s, p)
    ensures Inv(DoWaitMore(s, p))
  {
    var t := DoWaitMore(s, p);
    Look(s, p);
    MoveKeepsCpus(s, p, t.pc[p], s.waitLock);
    MoveKeepsFamily(s, p, t.pc[p]);
    forall q: nat, i: nat ensures NotForgotten(t.st, t.parent, t.pc, t.waitLock, q, i)
        && Scanned(t.st, t.parent, t.pc, q, i) {
      assert NotForgotten(s.st, s.parent, s.pc, s.waitLock, q, i) && Scanned(s.st, s.parent, s.pc, q, i);
    }
    forall x: nat ensures ParentWoken(t.st, t.parent, t.pc, x) {
      assert ParentWoken(s.st, s.parent, s.pc, x);
    }
  }

  lemma WaitReapKeepsCpus(s: State, p: nat)
    requires Inv(s) && CanWaitReap(s, p)
    ensures var t := DoWaitReap(s, p); CpuInv(t.st, t.lock, t.pc, t.on, t.chan, t.cpus, t.waitLock)
  {
    var t, i := DoWaitReap(s, p), s.pc[p].i;
    Look(s, p);
    Look(s, i);
    OffKeepsCpus(s, i, UNUSED, NoThread);
    var u := s.(st := t.st, pc := s.pc[i := NoThread]);
    MoveKeepsCpus(u, p, User, None);
    forall x: nat | x < |t.pc| ensures ChanOk(t.st, t.chan, x) {
      Look(s, x);
    }
  }

  lemma WaitReapKeepsParent(s: State, p: nat, x: nat)
    requires Inv(s) && CanWaitReap(s, p) && x < |s.pc|
    ensures var t := DoWaitReap(s, p);
            ParentOk(t.st, t.parent, t.pc, x) && HasParent(t.st, t.parent, t.pc, x) && ExitOk(t.parent, t.pc, x)
  {
    Look(s, p);
    Look(s, s.pc[p].i);
    Look(s, x);
  }

  lemma WaitReapKeepsFamily(s: State, p: nat)
    requires Inv(s) && CanWaitReap(s, p)
    ensures var t := DoWaitReap(s, p); FamilyInv(t.st, t.parent, t.pc, t.maker)
  {
    var t, i := DoWaitReap(s, p), s.pc[p].i;
    Look(s, p);
    Look(s, i);
    forall x: nat | x < |t.pc| ensures ParentOk(t.st, t.parent, t.pc, x) && HasParent(t.st, t.parent, t.pc, x)
        && ExitOk(t.parent, t.pc, x) {
      WaitReapKeepsParent(s, p, x);
    }
    forall x: nat | x < |t.pc| ensures MakerOk(t.st, t.pc, t.maker, x) && ChildOk(t.st, t.parent, t.pc, t.maker, x) {
      Look(s, x);
    }
  }

  lemma WaitReapKeepsPids(s: State, p: nat)
    requires Inv(s) && CanWaitReap(s, p)
    ensures var t := DoWaitReap(s, p); PidInv(t.st, t.parent, t.pid, t.born, t.nextpid, t.reaped)
  {
    var t, i := DoWaitReap(s, p), s.pc[p].i;
    Look(s, p);
    Look(s, i);
    forall q: nat | q < |t.pid| ensures PidOk(t.st, t.pid, t.nextpid, t.reaped, q)
        && BornOk(t.parent, t.pid, t.born, q) {
      Look(s, q);
      assert PidsDiffer(s.st, s.pid, q, i);
    }
    forall q: nat, r: nat ensures PidsDiffer(t.st, t.pid, q, r) {
      assert PidsDiffer(s.st, s.pid, q, r);
    }
    forall k: nat | k < |t.reaped| ensures ReapOk(t.born, t.nextpid, t.reaped, k) {
      if k < |s.reaped| { assert ReapOk(s.born, s.nextpid, s.reaped, k); }
    }
  }

  lemma WaitReapKeeps(s: State, p: nat)
    requires Inv(s) && CanWaitReap(s, p)
    ensures Inv(DoWaitReap(s, p))
  {
    var t := DoWaitReap(s, p);
    Look(s, p);
    WaitReapKeepsCpus(s, p);
    WaitReapKeepsFamily(s, p);
    WaitReapKeepsPids(s, p);
    Look(s, s.pc[p].i);
    forall q: nat, i: nat ensures NotForgotten(t.st, t.parent, t.pc, t.waitLock, q, i)
        && Scanned(t.st, t.parent, t.pc, q, i) {
      assert NotForgotten(s.st, s.parent, s.pc, s.waitLock, q, i) && Scanned(s.st, s.parent, s.pc, q, i);
    }
    forall x: nat ensures ParentWoken(t.st, t.parent, t.pc, x) {
      assert ParentWoken(s.st, s.parent, s.pc, x);
    }
  }

  lemma SleepLockKeeps(s: State, p: nat)
    requires Inv(s) && CanSleepLock(s, p)
    ensures Inv(DoSleepLock(s, p))
  {
    var t := DoSleepLock(s, p);
    Look(s, p);
    OwnKeepsCpus(s, p, s.st[p], Thread, SleepLocked, s.chan[p], s.waitLock);
    assert s.st[p := s.st[p]] == s.st && s.chan[p := s.chan[p]] == s.chan;
    MoveKeepsFamily(s, p, SleepLocked);
    forall q: nat, i: nat ensures NotForgotten(t.st, t.parent, t.pc, t.waitLock, q, i)
        && Scanned(t.st, t.parent, t.pc, q, i) {
      assert NotForgotten(s.st, s.parent, s.pc, s.waitLock, q, i) && Scanned(s.st, s.parent, s.pc, q, i);
    }
    forall x: nat ensures ParentWoken(t.st, t.parent, t.pc, x) {
      assert ParentWoken(s.st, s.parent, s.pc, x);
    }
  }

  lemma SleepReleaseKeeps(s: State, p: nat)
    requires Inv(s) && CanSleepRelease(s, p)
    ensures Inv(DoSleepRelease(s, p))
  {
    var t := DoSleepRelease(s, p);
    Look(s, p);
    MoveKeepsCpus(s, p, t.pc[p], None);
    MoveKeepsFamily(s, p, t.pc[p]);
    forall q: nat, i: nat ensures NotForgotten(t.st, t.parent, t.pc, t.waitLock, q, i)
        && Scanned(t.st, t.parent, t.pc, q, i) {
      assert NotForgotten(s.st, s.parent, s.pc, s.waitLock, q, i) && Scanned(s.st, s.parent, s.pc, q, i);
    }
    forall x: nat ensures ParentWoken(t.st, t.parent, t.pc, x) {
      assert ParentWoken(s.st, s.parent, s.pc, x);
      if x < |s.pc| { Look(s, x); }
    }
  }

  lemma SleepMarkKeeps(s: State, p: nat)
    requires Inv(s) && CanSleepMark(s, p)
    ensures Inv(DoSleepMark(s, p))
  {
    var t := DoSleepMark(s, p);
    Look(s, p);
    OwnKeepsCpus(s, p, SLEEPING, Thread, Sched(ToWait), Some(p), s.waitLock);
    assert s.lock[p := Thread] == s.lock;
    AliveKeepsFamily(s, p, SLEEPING);
    MoveKeepsFamily(s.(st := t.st), p, Sched(ToWait));
    CalmKeepsWait(s, p, SLEEPING, Sched(ToWait));
    UsedKeepsPids(s, p, SLEEPING);
  }

  // ----- exit -----

  lemma ExitBeginKeeps(s: State, p: nat)
    requires Inv(s) && CanExitBegin(s, p)
    ensures Inv(DoExitBegin(s, p))
  {
    var t := DoExitBegin(s, p);
    Look(s, p);
    MoveKeepsCpus(s, p, t.pc[p], Some(p));
    MoveKeepsFamily(s, p, t.pc[p]);
    forall q: nat, i: nat ensures NotForgotten(t.st, t.parent, t.pc, t.waitLock, q, i)
        && Scanned(t.st, t.parent, t.pc, q, i) {
      assert NotForgotten(s.st, s.parent, s.pc, s.waitLock, q, i) && Scanned(s.st, s.parent, s.pc, q, i);
    }
    forall x: nat ensures ParentWoken(t.st, t.parent, t.pc, x) {
      assert ParentWoken(s.st, s.parent, s.pc, x);
    }
  }

  lemma ReparentPassKeeps(s: State, p: nat)
    requires Inv(s) && CanReparentPass(s, p)
    ensures Inv(DoReparentPass(s, p))
  {
    var t := DoReparentPass(s, p);
    Look(s, p);
    forall i: nat | i < |s.pc| && s.parent[i] == Some(p) ensures i >= s.pc[p].i + 1 {
      Look(s, i);
    }
    MoveKeepsCpus(s, p, t.pc[p], s.waitLock);
    MoveKeepsFamily(s, p, t.pc[p]);
    forall q: nat, i: nat ensures NotForgotten(t.st, t.parent, t.pc, t.waitLock, q, i)
        && Scanned(t.st, t.parent, t.pc, q, i) {
      assert NotForgotten(s.st, s.parent, s.pc, s.waitLock, q, i) && Scanned(s.st, s.parent, s.pc, q, i);
    }
    forall x: nat ensures ParentWoken(t.st, t.parent, t.pc, x) {
      assert ParentWoken(s.st, s.parent, s.pc, x);
    }
  }

  lemma ReparentGiveKeeps(s: State, p: nat)
    requires Inv(s) && CanReparentGive(s, p)
    ensures Inv(DoReparentGive(s, p))
  {
    var t := DoReparentGive(s, p);
    Look(s, p);
    ReparentGiveKeepsFamily(s, p);
    MoveKeepsCpus(s, p, t.pc[p], s.waitLock);
    Look(s, s.pc[p].i);
    forall q: nat, i: nat ensures NotForgotten(t.st, t.parent, t.pc, t.waitLock, q, i)
        && Scanned(t.st, t.parent, t.pc, q, i) {
      assert NotForgotten(s.st, s.parent, s.pc, s.waitLock, q, i) && Scanned(s.st, s.parent, s.pc, q, i);
      if q < |s.pc| { assert WaitLockOk(s.pc, s.waitLock, q); }
    }
    forall x: nat ensures ParentWoken(t.st, t.parent, t.pc, x) {
      assert ParentWoken(s.st, s.parent, s.pc, x);
    }
    forall q: nat | q < |t.pid| ensures BornOk(t.parent, t.pid, t.born, q) {
      Look(s, q);
    }
  }

  lemma ReparentGiveKeepsParents(s: State, p: nat, x: nat)
    requires Inv(s) && CanReparentGive(s, p) && x < |s.pc|
    ensures var t := DoReparentGive(s, p);
            ParentOk(t.st, t.parent, t.pc, x) && HasParent(t.st, t.parent, t.pc, x) && ExitOk(t.parent, t.pc, x)
  {
    Look(s, p);
    Look(s, s.pc[p].i);
    assert ExitOk(s.parent, s.pc, INIT);
    Look(s, x);
  }

  lemma ReparentGiveKeepsFamily(s: State, p: nat)
    requires Inv(s) && CanReparentGive(s, p)
    ensures var t := DoReparentGive(s, p); FamilyInv(t.st, t.parent, t.pc, t.maker)
  {
    var t := DoReparentGive(s, p);
    Look(s, p);
    Look(s, s.pc[p].i);
    forall x: nat | x < |t.pc| ensures ParentOk(t.st, t.parent, t.pc, x) && HasParent(t.st, t.parent, t.pc, x)
        && ExitOk(t.parent, t.pc, x) {
      ReparentGiveKeepsParents(s, p, x);
    }
    forall x: nat | x < |t.pc| ensures MakerOk(t.st, t.pc, t.maker, x) && ChildOk(t.st, t.parent, t.pc, t.maker, x) {
      Look(s, x);
    }
  }

  lemma ReparentEndKeeps(s: State, p: nat)
    requires Inv(s) && CanReparentEnd(s, p)
    ensures Inv(DoReparentEnd(s, p))
  {
    var t := DoReparentEnd(s, p);
    Look(s, p);
    forall i: nat | i < |s.pc| ensures s.parent[i] != Some(p) {
      Look(s, i);
    }
    MoveKeepsCpus(s, p, t.pc[p], s.waitLock);
    MoveKeepsFamily(s, p, t.pc[p]);
    forall q: nat, i: nat ensures NotForgotten(t.st, t.parent, t.pc, t.waitLock, q, i)
        && Scanned(t.st, t.parent, t.pc, q, i) {
      assert NotForgotten(s.st, s.parent, s.pc, s.waitLock, q, i) && Scanned(s.st, s.parent, s.pc, q, i);
    }
    forall x: nat ensures ParentWoken(t.st, t.parent, t.pc, x) {
      assert ParentWoken(s.st, s.parent, s.pc, x);
    }
  }

  lemma WakePassKeepsWait(s: State, p: nat)
    requires Inv(s) && CanWakePass(s, p)
    ensures var t := DoWakePass(s, p); WaitInv(t.st, t.parent, t.pc, t.waitLock)
  {
    var t := DoWakePass(s, p);
    Look(s, p);
    Look(s, s.pc[p].i);
    forall q: nat, i: nat ensures NotForgotten(t.st, t.parent, t.pc, t.waitLock, q, i)
        && Scanned(t.st, t.parent, t.pc, q, i) {
      assert NotForgotten(s.st, s.parent, s.pc, s.waitLock, q, i) && Scanned(s.st, s.parent, s.pc, q, i);
    }
    forall x: nat ensures ParentWoken(t.st, t.parent, t.pc, x) {
      assert ParentWoken(s.st, s.parent, s.pc, x);
    }
  }

  lemma WakePassKeeps(s: State, p: nat)
    requires Inv(s) && CanWakePass(s, p)
    ensures Inv(DoWakePass(s, p))
  {
    var t := DoWakePass(s, p);
    Look(s, p);
    forall i: nat | i < |s.pc| && s.parent[i] == Some(p) ensures i >= Given(t.pc[p], |s.pc|) {
      Look(s, i);
    }
    Look(s, s.pc[p].i);
    MoveKeepsCpus(s, p, t.pc[p], s.waitLock);
    MoveKeepsFamily(s, p, t.pc[p]);
    WakePassKeepsWait(s, p);
  }

  lemma WakeUpKeepsWait(s: State, p: nat)
    requires Inv(s) && CanWakeUp(s, p)
    ensures var t := DoWakeUp(s, p); WaitInv(t.st, t.parent, t.pc, t.waitLock)
  {
    var t := DoWakeUp(s, p);
    Look(s, p);
    Look(s, s.pc[p].i);
    forall q: nat, j: nat ensures NotForgotten(t.st, t.parent, t.pc, t.waitLock, q, j)
        && Scanned(t.st, t.parent, t.pc, q, j) {
      assert NotForgotten(s.st, s.parent, s.pc, s.waitLock, q, j) && Scanned(s.st, s.parent, s.pc, q, j);
    }
    forall x: nat ensures ParentWoken(t.st, t.parent, t.pc, x) {
      assert ParentWoken(s.st, s.parent, s.pc, x);
    }
  }

  lemma WakeUpKeeps(s: State, p: nat)
    requires Inv(s) && CanWakeUp(s, p)
    ensures Inv(DoWakeUp(s, p))
  {
    var t := DoWakeUp(s, p);
    Look(s, p);
    var i := s.pc[p].i;
    Look(s, i);
    OffKeepsCpus(s, i, RUNNABLE, s.pc[i]);
    assert s.pc[i := s.pc[i]] == s.pc;
    MoveKeepsCpus(s.(st := t.st), p, t.pc[p], s.waitLock);
    AliveKeepsFamily(s, i, RUNNABLE);
    forall x: nat | x < |s.pc| && s.parent[x] == Some(p) ensures x >= Given(t.pc[p], |s.pc|) {
      Look(s, x);
    }
    MoveKeepsFamily(s.(st := t.st), p, t.pc[p]);
    UsedKeepsPids(s, i, RUNNABLE);
    WakeUpKeepsWait(s, p);
  }

  lemma WakeEndKeeps(s: State, p: nat)
    requires Inv(s) && CanWakeEnd(s, p)
    ensures Inv(DoWakeEnd(s, p))
  {
    var t := DoWakeEnd(s, p);
    Look(s, p);
    forall i: nat | i < |s.pc| && s.parent[i] == Some(p) ensures i >= Given(t.pc[p], |s.pc|) {
      Look(s, i);
    }
    MoveKeepsCpus(s, p, t.pc[p], s.waitLock);
    MoveKeepsFamily(s, p, t.pc[p]);
    forall q: nat, i: nat ensures NotForgotten(t.st, t.parent, t.pc, t.waitLock, q, i)
        && Scanned(t.st, t.parent, t.pc, q, i) {
      assert NotForgotten(s.st, s.parent, s.pc, s.waitLock, q, i) && Scanned(s.st, s.parent, s.pc, q, i);
    }
    forall x: nat ensures ParentWoken(t.st, t.parent, t.pc, x) {
      assert ParentWoken(s.st, s.parent, s.pc, x);
    }
  }

  lemma ExitMarkKeeps(s: State, p: nat, status: int)
    requires Inv(s) && CanExitMark(s, p)
    ensures Inv(DoExitMark(s, p, status))
  {
    var t := DoExitMark(s, p, status);
    Look(s, p);
    OwnKeepsCpus(s, p, ZOMBIE, Thread, ExitRelease, s.chan[p], s.waitLock);
    assert s.chan[p := s.chan[p]] == s.chan;
    ExitMarkKeepsFamily(s, p, status);
    UsedKeepsPids(s, p, ZOMBIE);
    forall q: nat, i: nat ensures NotForgotten(t.st, t.parent, t.pc, t.waitLock, q, i)
        && Scanned(t.st, t.parent, t.pc, q, i) {
      assert NotForgotten(s.st, s.parent, s.pc, s.waitLock, q, i) && Scanned(s.st, s.parent, s.pc, q, i);
      if q < |s.pc| { assert WaitLockOk(s.pc, s.waitLock, q); }
    }
    forall x: nat ensures ParentWoken(t.st, t.parent, t.pc, x) {
      assert ParentWoken(s.st, s.parent, s.pc, x);
    }
  }

  lemma ExitMarkKeepsFamily(s: State, p: nat, status: int)
    requires Inv(s) && CanExitMark(s, p)
    ensures var t := DoExitMark(s, p, status); FamilyInv(t.st, t.parent, t.pc, t.maker)
  {
    var t := DoExitMark(s, p, status);
    Look(s, p);
    forall x: nat | x < |t.pc| ensures ParentOk(t.st, t.parent, t.pc, x) && HasParent(t.st, t.parent, t.pc, x)
        && ExitOk(t.parent, t.pc, x) {
      Look(s, x);
    }
    forall x: nat | x < |t.pc| ensures MakerOk(t.st, t.pc, t.maker, x) && ChildOk(t.st, t.parent, t.pc, t.maker, x) {
      Look(s, x);
    }
  }

  lemma ExitUnlockKeeps(s: State, p: nat)
    requires Inv(s) && CanExitUnlock(s, p)
    ensures Inv(DoExitUnlock(s, p))
  {
    var t := DoExitUnlock(s, p);
    Look(s, p);
    forall i: nat | i < |s.pc| ensures s.parent[i] != Some(p) {
      Look(s, i);
    }
    MoveKeepsCpus(s, p, t.pc[p], None);
    MoveKeepsFamily(s, p, t.pc[p]);
    forall q: nat, i: nat ensures NotForgotten(t.st, t.parent, t.pc, t.waitLock, q, i)
        && Scanned(t.st, t.parent, t.pc, q, i) {
      assert NotForgotten(s.st, s.parent, s.pc, s.waitLock, q, i) && Scanned(s.st, s.parent, s.pc, q, i);
    }
    forall x: nat ensures ParentWoken(t.st, t.parent, t.pc, x) {
      assert ParentWoken(s.st, s.parent, s.pc, x);
    }
  }
}
