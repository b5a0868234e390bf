/** What holds in every run of the process table (kernel/proc.c). */
module ProcTheorems {
  import opened Common
  import opened ProcTable
  import opened ProcInvariant
  import opened ProcSteps
  import opened ProcOrphans

  lemma SchedulesKeeps(s: State, a: Step, s': State)
    requires Inv(s) && Schedules(s, a, s')
    ensures Inv(s')
  {
    match a {
      case Pick(p, c) => PickKeeps(s, p, c);
      case Resume(p) => ResumeKeeps(s, p);
      case Yield(p) => YieldKeeps(s, p);
      case Swtch(p) => SwtchKeeps(s, p);
      case Unpick(p, c) => UnpickKeeps(s, p, c);
      case Kill(p) => KillKeeps(s, p);
    }
  }

  lemma ForksOnKeeps(s: State, a: Step, s': State)
    requires Inv(s) && ForksOn(s, a, s')
    ensures Inv(s')
  {
    match a {
      case ForkAlloc(p, np) => ForkAllocKeeps(s, p, np);
      case ForkFail(p) => ForkFailKeeps(s, p);
      case ForkParent(p) => ForkParentKeeps(s, p);
      case ForkRun(p) => ForkRunKeeps(s, p);
    }
  }

  lemma WaitsOnKeeps(s: State, a: Step, s': State)
    requires Inv(s) && WaitsOn(s, a, s')
    ensures Inv(s')
  {
    match a {
      case WaitBegin(p) => WaitBeginKeeps(s, p);
      case WaitPass(p) => WaitPassKeeps(s, p);
      case WaitReap(p) => WaitReapKeeps(s, p);
      case WaitReturn(p) => WaitReturnKeeps(s, p);
      case WaitMore(p) => WaitMoreKeeps(s, p);
      case SleepLock(p) => SleepLockKeeps(s, p);
      case SleepRelease(p) => SleepReleaseKeeps(s, p);
      case SleepMark(p) => SleepMarkKeeps(s, p);
    }
  }

  lemma ExitsOnKeeps(s: State, a: Step, s': State)
    requires Inv(s) && ExitsOn(s, a, s')
    ensures Inv(s')
  {
    match a {
      case ExitBegin(p) => ExitBeginKeeps(s, p);
      case ReparentPass(p) => ReparentPassKeeps(s, p);
      case ReparentGive(p) => ReparentGiveKeeps(s, p);
      case ReparentEnd(p) => ReparentEndKeeps(s, p);
      case WakePass(p) => WakePassKeeps(s, p);
      case WakeUp(p) => WakeUpKeeps(s, p);
      case WakeEnd(p) => WakeEndKeeps(s, p);
      case ExitMark(p, status) => ExitMarkKeeps(s, p, status);
      case ExitUnlock(p) => ExitUnlockKeeps(s, p);
    }
  }

  lemma StepKeeps(s: State, a: Step, s': State)
    requires Inv(s) && Does(s, a, s')
    ensures Inv(s')
  {
    if Schedules(s, a, s') { SchedulesKeeps(s, a, s'); }
    else if ForksOn(s, a, s') { ForksOnKeeps(s, a, s'); }
    else if WaitsOn(s, a, s') { WaitsOnKeeps(s, a, s'); }
    else { ExitsOnKeeps(s, a, s'); }
  }

  lemma {:induction false} RunInv(ss: seq<State>, k: nat)
    requires IsRun(ss) && k < |ss|
    ensures Inv(ss[k])
  {
    if k == 0 {
      InitInv(ss[0]);
    } else {
      RunInv(ss, k - 1);
      assert StepAt(ss, k - 1);
      var a :| Does(ss[k - 1], a, ss[k]);
      StepKeeps(ss[k - 1], a, ss[k]);
    }
  }

  ghost predicate HasProc(s: State, c: nat, p: nat) { c < |s.cpus| && s.cpus[c].proc == Some(p) }

  /** Whenever p->lock is free, p is RUNNING if and only if some CPU has it as c->proc, and
      then only one does. */
  lemma RunningOnOneCpu(ss: seq<State>, k: nat, p: nat)
    requires IsRun(ss) && k < |ss| && p < |ss[k].pc| && Sized(ss[k]) && ss[k].lock[p] == Free
    ensures ss[k].st[p] == RUNNING <==> exists c: nat :: HasProc(ss[k], c, p)
    ensures forall c: nat, d: nat :: HasProc(ss[k], c, p) && HasProc(ss[k], d, p) ==> c == d
  {
    var s := ss[k];
    RunInv(ss, k);
    Look(s, p);
    forall c: nat | HasProc(s, c, p) ensures s.on[p] == Some(c) {
      assert CpuOk(s.lock, s.on, s.cpus, c);
    }
    if s.st[p] == RUNNING { assert HasProc(s, s.on[p].value, p); }
  }

  /** At most one CPU executes the thread of a process, also while p->lock is handed over. */
  lemma OneCpuPerThread(ss: seq<State>, k: nat, p: nat, c: nat, d: nat)
    requires IsRun(ss) && k < |ss| && HasProc(ss[k], c, p) && HasProc(ss[k], d, p)
    ensures c == d
  {
    var s := ss[k];
    RunInv(ss, k);
    assert CpuOk(s.lock, s.on, s.cpus, c) && CpuOk(s.lock, s.on, s.cpus, d);
    Look(s, p);
  }

  /** wait frees a slot only when its process has left its kernel stack for good: no CPU
      executes it or has it as c->proc. */
  lemma ReapedIsOffCpu(ss: seq<State>, k: nat, p: nat, c: nat)
    requires IsRun(ss) && k < |ss| && CanWaitReap(ss[k], p)
    ensures var i := ss[k].pc[p].i; ss[k].on[i] == None && ss[k].pc[i] == Off(Never) && !HasProc(ss[k], c, i)
  {
    var s := ss[k];
    RunInv(ss, k);
    Look(s, s.pc[p].i);
    if c < |s.cpus| { assert CpuOk(s.lock, s.on, s.cpus, c); }
  }

  /** Every parent is a living process, and every zombie has one. */
  lemma ParentsLive(ss: seq<State>, k: nat, i: nat)
    requires IsRun(ss) && k < |ss| && i < |ss[k].pc| && Sized(ss[k])
    ensures ss[k].parent[i].Some? ==> ss[k].parent[i].value < |ss[k].st| && Alive(ss[k].st[ss[k].parent[i].value])
    ensures ss[k].st[i] == ZOMBIE ==> ss[k].parent[i].Some?
  {
    RunInv(ss, k);
    Look(ss[k], i);
  }

  /** Each exited child is returned by at most one wait. */
  lemma ReapedOnce(ss: seq<State>, k: nat, i: nat, j: nat)
    requires IsRun(ss) && k < |ss| && i < j < |ss[k].reaped|
    ensures ss[k].reaped[i].0 != ss[k].reaped[j].0
  {
    RunInv(ss, k);
    assert ReapOk(ss[k].born, ss[k].nextpid, ss[k].reaped, j);
  }

  lemma {:induction false} RunGave(ss: seq<State>, k: nat)
    requires IsRun(ss) && k < |ss|
    ensures Gave(ss[k])
  {
    if k == 0 {
      InitGave(ss[0]);
    } else {
      RunGave(ss, k - 1);
      RunInv(ss, k - 1);
      assert StepAt(ss, k - 1);
      var a :| Does(ss[k - 1], a, ss[k]);
      StepGives(ss[k - 1], a, ss[k]);
    }
  }

  /** It is returned to the process that made it, or else to the first process, when the one
      that made it has exited: no slot with that pid is anything but a zombie any more. */
  lemma ReapedByParent(ss: seq<State>, k: nat, i: nat, q: nat)
    requires IsRun(ss) && k < |ss| && i < |ss[k].reaped| && q < |ss[k].pid| && Sized(ss[k])
    ensures ss[k].reaped[i].0 in ss[k].born
    ensures var maker := ss[k].born[ss[k].reaped[i].0];
            || ss[k].reaped[i].1 == maker
            || (ss[k].reaped[i].1 == INITPID && maker in ss[k].exited
                && (ss[k].pid[q] == maker ==> ss[k].st[q] == ZOMBIE))
  {
    RunGave(ss, k);
    assert CallerOk(ss[k].born, ss[k].exited, ss[k].reaped, i) && ExitedOk(ss[k].st, ss[k].pid, ss[k].exited, q);
  }

  ghost predicate IsZombie(s: State, p: nat, m: nat) {
    p < |s.st| && p < |s.pid| && s.st[p] == ZOMBIE && s.pid[p] == m
  }

  ghost predicate ZombieBy(ss: seq<State>, k: nat, j: nat, p: nat, m: nat) {
    j <= k && j < |ss| && IsZombie(ss[j], p, m)
  }

  lemma ExitedStep(s: State, s': State, m: nat)
    requires Inv(s) && StepTo(s, s')
    ensures m in s.exited ==> m in s'.exited
    ensures m in s'.exited && m !in s.exited ==> exists p: nat :: IsZombie(s', p, m)
  {
    var a :| Does(s, a, s');
    Records(s, a, s');
    if a.ExitMark? && m !in s.exited {
      Look(s, a.p);
      if m in s'.exited { assert IsZombie(s', a.p, m); }
    }
  }

  lemma {:induction false} ExitedStays(ss: seq<State>, j: nat, k: nat, m: nat)
    requires IsRun(ss) && j <= k < |ss| && m in ss[j].exited
    ensures m in ss[k].exited
  {
    if j < k {
      ExitedStays(ss, j, k - 1, m);
      assert Inv(ss[k - 1]) by { RunInv(ss, k - 1); }
      assert StepAt(ss, k - 1);
      ExitedStep(ss[k - 1], ss[k], m);
    }
  }

  lemma {:induction false} WasZombie(ss: seq<State>, k: nat, m: nat) returns (j: nat, p: nat)
    requires IsRun(ss) && k < |ss| && m in ss[k].exited
    ensures ZombieBy(ss, k, j, p, m)
  {
    assert k > 0;
    if m in ss[k - 1].exited {
      j, p := WasZombie(ss, k - 1, m);
    } else {
      assert Inv(ss[k - 1]) by { RunInv(ss, k - 1); }
      assert StepAt(ss, k - 1);
      ExitedStep(ss[k - 1], ss[k], m);
      j := k;
      p :| IsZombie(ss[k], p, m);
    }
  }

  /** The exited pids are those of processes that have been zombies. */
  lemma ExitedWasZombie(ss: seq<State>, k: nat, m: nat)
    requires IsRun(ss) && k < |ss|
    ensures m in ss[k].exited <==> exists j: nat, p: nat :: ZombieBy(ss, k, j, p, m)
  {
    if m in ss[k].exited { var j, p := WasZombie(ss, k, m); }
    forall j: nat, p: nat | ZombieBy(ss, k, j, p, m) ensures m in ss[k].exited {
      assert m in ss[j].exited by {
        RunGave(ss, j);
        assert ZombieOk(ss[j].st, ss[j].pid, ss[j].exited, p);
      }
      ExitedStays(ss, j, k, m);
    }
  }

  /** A pid that was returned is not the pid of any process any more. */
  lemma ReapedIsGone(ss: seq<State>, k: nat, i: nat, p: nat)
    requires IsRun(ss) && k < |ss| && i < |ss[k].reaped| && p < |ss[k].pid| && Sized(ss[k]) && ss[k].st[p] != UNUSED
    ensures ss[k].pid[p] != ss[k].reaped[i].0
  {
    RunInv(ss, k);
    Look(ss[k], p);
  }

  /** No parent sleeps in wait while it has a zombie child and wait_lock is free. */
  lemma NoForgottenZombie(ss: seq<State>, k: nat, q: nat, i: nat)
    requires IsRun(ss) && k < |ss| && ss[k].waitLock == None && q < |ss[k].pc| && Sized(ss[k])
        && ss[k].st[q] == SLEEPING && ss[k].chan[q] == Some(q)
    ensures i < |ss[k].pc| && ss[k].parent[i] == Some(q) ==> ss[k].st[i] != ZOMBIE
  {
    RunInv(ss, k);
    Look(ss[k], q);
    assert NotForgotten(ss[k].st, ss[k].parent, ss[k].pc, ss[k].waitLock, q, i);
  }
}
