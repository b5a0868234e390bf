/** What every step of the process table keeps, field by field. */
module ProcInvariant {
  import opened Common
  import opened ProcTable

  type States = seq<ProcState>
  type Links = seq<Option<nat>>
  type Locks = seq<Holder>
  type Pcs = seq<Pc>

  // ----- CPUs and states -----

  /** The code at pc runs with wait_lock held. */
  ghost predicate HoldsWait(pc: Pc) {
    || pc.WaitScan? || pc == WaitSleep || pc == SleepLocked
    || pc.Reparent? || pc.Waking? || pc == ExitLock || pc == ExitRelease
  }

  /** The state that a process has set when it calls sched. */
  ghost function Left(k: Cont): ProcState {
    match k
    case ToUser => RUNNABLE
    case ToWait => SLEEPING
    case Never => ZOMBIE
  }

  /** State and p->lock of a process that is on a CPU. */
  ghost predicate OnOk(st: ProcState, lock: Holder, pc: Pc) {
    match pc
    case NoThread => false
    case SleepLocked => lock == Thread && st == RUNNING
    case SleepUnlocked => lock == Thread && st == RUNNING
    case ExitRelease => lock == Thread && st == ZOMBIE
    case Sched(k) => lock == Thread && st == Left(k)
    case Off(k) => lock == Thread && st == RUNNING && k != Never
    case _ => lock == Free && st == RUNNING
  }

  /** State and p->lock of a process that is on no CPU. */
  ghost predicate OffOk(st: ProcState, lock: Holder, pc: Pc) {
    match pc
    case NoThread => lock == Free && (st == UNUSED || st == USED)
    case Off(k) => lock != Thread && (st == Left(k) || (k == ToWait && st == RUNNABLE))
    case _ => false
  }

  ghost predicate RunOk(st: States, lock: Locks, pc: Pcs, on: Links, p: nat) {
    p < |st| && p < |lock| && p < |pc| && p < |on| && if on[p].Some? then OnOk(st[p], lock[p], pc[p])
        else OffOk(st[p], lock[p], pc[p])
  }

  ghost predicate PlaceOk(lock: Locks, on: Links, cpus: seq<Cpu>, p: nat) {
    && p < |lock| && p < |on|
    && (on[p].Some? ==> on[p].value < |cpus| && cpus[on[p].value] == Cpu(Some(p), Ran(p)))
    && (lock[p].Scheduler? ==> lock[p].c < |cpus| && cpus[lock[p].c] == Cpu(Some(p), Back(p)))
  }

  ghost predicate CpuOk(lock: Locks, on: Links, cpus: seq<Cpu>, c: nat) {
    && c < |cpus|
    && match cpus[c].sched
       case Looking => cpus[c].proc == None
       case Ran(p) => cpus[c].proc == Some(p) && p < |on| && on[p] == Some(c)
       case Back(p) => cpus[c].proc == Some(p) && p < |on| && p < |lock| && on[p] == None && lock[p] == Scheduler(c)
  }

  ghost predicate WaitLockOk(pc: Pcs, waitLock: Option<nat>, p: nat) {
    p < |pc| && (waitLock == Some(p) <==> HoldsWait(pc[p]))
        && (pc[p].WaitScan? || pc[p].Reparent? || pc[p].Waking? ==> pc[p].i <= |pc|)
  }

  ghost predicate ChanOk(st: States, chan: Links, p: nat) {
    p < |st| && p < |chan| && (st[p] == SLEEPING ==> chan[p] == Some(p))
  }

  // ----- parents -----

  ghost predicate Alive(st: ProcState) { st == SLEEPING || st == RUNNABLE || st == RUNNING }

  /** How far the process has come in giving its children away. */
  ghost function Given(pc: Pc, n: nat): nat {
    match pc
    case Reparent(i) => i
    case Waking(ch, i, next) => if next.NextChild? then next.i else n
    case ExitLock => n
    case _ => 0
  }

  /** A parent is a living process that has not given this child away. */
  ghost predicate ParentOk(st: States, parent: Links, pc: Pcs, i: nat) {
    && i < |parent| && |st| == |pc| == |parent|
    && (parent[i].Some? ==>
        parent[i].value < |pc| && parent[i].value != i && Alive(st[parent[i].value])
        && i >= Given(pc[parent[i].value], |pc|))
  }

  ghost predicate HasParent(st: States, parent: Links, pc: Pcs, i: nat) {
    && i < |parent| && i < |st| && i < |pc|
    && (pc[i] != NoThread && i != INIT ==> parent[i].Some?) && (st[i] == UNUSED ==> parent[i] == None)
  }

  ghost predicate Makes(pc: Pc, i: nat) { pc == ForkedUsed(i) || pc == ForkedChild(i) }

  ghost predicate MakerOk(st: States, pc: Pcs, maker: Links, i: nat) {
    && i < |st| && |st| == |pc| == |maker|
    && (if st[i] == USED then maker[i].Some? && maker[i].value < |pc| && Makes(pc[maker[i].value], i)
        else maker[i] == None)
  }

  ghost predicate ChildOk(st: States, parent: Links, pc: Pcs, maker: Links, i: nat) {
    && i < |pc| && |st| == |pc| == |maker| == |parent|
    && (pc[i].ForkedUsed? || pc[i].ForkedChild? ==>
        pc[i].np < |pc| && st[pc[i].np] == USED && maker[pc[i].np] == Some(i))
    && (pc[i].ForkedUsed? ==> parent[pc[i].np] == None)
    && (pc[i].ForkedChild? ==> parent[pc[i].np] == Some(i))
  }

  ghost predicate ExitOk(parent: Links, pc: Pcs, i: nat) {
    && i < |pc| && i < |parent|
    && (pc[i].Reparent? || pc[i].Waking? || pc[i] == ExitLock || pc[i] == ExitRelease ==> i != INIT)
    && (pc[i].Waking? && pc[i].next.NextChild? ==> pc[i].next.i <= |pc| && pc[i].ch == INIT)
    && (pc[i].Waking? && pc[i].next.NextZombie? ==> parent[i] == Some(pc[i].ch))
  }

  // ----- waiting for children -----

  /** The process sleeps in wait, or will before it looks at its children again. */
  ghost predicate Waiting(st: ProcState, pc: Pc) {
    pc == SleepUnlocked || (st == SLEEPING && (pc == Sched(ToWait) || pc == Off(ToWait)))
  }

  ghost predicate ZombieChild(st: States, parent: Links, q: nat, i: nat) {
    i < |st| && i < |parent| && parent[i] == Some(q) && st[i] == ZOMBIE
  }

  /** wakeup on the channel of q has not come past q. */
  ghost predicate WillWake(pc: Pc, q: nat) { pc.Waking? && pc.ch == q && pc.i <= q }

  /** A process that waits although it has a zombie child is about to be woken. */
  ghost predicate NotForgotten(st: States, parent: Links, pc: Pcs, waitLock: Option<nat>, q: nat, i: nat) {
    q < |st| && q < |pc| && Waiting(st[q], pc[q]) && ZombieChild(st, parent, q, i) ==>
      waitLock.Some? && waitLock.value < |pc| && WillWake(pc[waitLock.value], q)
  }

  /** wait has found no zombie among the children that it has looked at. */
  ghost predicate Scanned(st: States, parent: Links, pc: Pcs, q: nat, i: nat) {
    q < |pc| && ZombieChild(st, parent, q, i) ==>
        pc[q] != WaitSleep && pc[q] != SleepLocked && (pc[q].WaitScan? ==> i >= pc[q].i)
  }

  /** exit wakes its parent before it becomes a zombie. */
  ghost predicate ParentWoken(st: States, parent: Links, pc: Pcs, p: nat) {
    p < |pc| && p < |parent| && parent[p].Some? && parent[p].value < |st| && parent[p].value < |pc|
        && Waiting(st[parent[p].value], pc[parent[p].value]) ==>
      pc[p] != ExitLock && (pc[p].Waking? && pc[p].next.NextZombie? ==> pc[p].i <= parent[p].value)
  }

  // ----- pids -----

  ghost predicate PidOk(st: States, pid: seq<nat>, nextpid: nat, reaped: seq<(nat, nat, int)>, p: nat) {
    && p < |st| && p < |pid|
    && if st[p] == UNUSED then pid[p] == 0 else 0 < pid[p] < nextpid && forall k {:trigger reaped[k]} ::
        0 <= k < |reaped| ==> reaped[k].0 != pid[p]
  }

  ghost predicate BornOk(parent: Links, pid: seq<nat>, born: map<nat, nat>, p: nat) {
    && p < |pid| && p < |parent|
    && (parent[p].Some? ==>
        parent[p].value < |pid| && pid[p] in born && (pid[parent[p].value] == born[pid[p]] || parent[p].value == INIT))
  }

  ghost predicate PidsDiffer(st: States, pid: seq<nat>, p: nat, q: nat) {
    p < |st| && q < |st| && p < |pid| && q < |pid| && p != q && st[p] != UNUSED && st[q] != UNUSED ==> pid[p] != pid[q]
  }

  /** Each child was returned once, to the process that made it or to the first process. */
  ghost predicate ReapOk(born: map<nat, nat>, nextpid: nat, reaped: seq<(nat, nat, int)>, k: nat) {
    && k < |reaped| && reaped[k].0 in born && reaped[k].0 < nextpid
    && (reaped[k].1 == born[reaped[k].0] || reaped[k].1 == INITPID)
    && forall j {:trigger reaped[j]} :: 0 <= j < k ==> reaped[j].0 != reaped[k].0
  }

  // ----- the invariant -----

  ghost predicate CpuInv(st: States, lock: Locks, pc: Pcs, on: Links, chan: Links, cpus: seq<Cpu>,
      waitLock: Option<nat>) {
    && |st| == |lock| == |pc| == |on| == |chan| && (waitLock.Some? ==> waitLock.value < |pc|)
    && (forall p: nat {:trigger RunOk(st, lock, pc, on, p)} :: p < |pc| ==> RunOk(st, lock, pc, on, p))
    && (forall p: nat {:trigger PlaceOk(lock, on, cpus, p)} :: p < |pc| ==> PlaceOk(lock, on, cpus, p))
    && (forall c: nat {:trigger CpuOk(lock, on, cpus, c)} :: c < |cpus| ==> CpuOk(lock, on, cpus, c))
    && (forall p: nat {:trigger WaitLockOk(pc, waitLock, p)} :: p < |pc| ==> WaitLockOk(pc, waitLock, p))
    && (forall p: nat {:trigger ChanOk(st, chan, p)} :: p < |pc| ==> ChanOk(st, chan, p))
  }

  ghost predicate FamilyInv(st: States, parent: Links, pc: Pcs, maker: Links) {
    && |st| == |parent| == |pc| == |maker| && |pc| > INIT && Alive(st[INIT]) && parent[INIT] == None
    && (forall i: nat {:trigger ParentOk(st, parent, pc, i)} :: i < |pc| ==> ParentOk(st, parent, pc, i))
    && (forall i: nat {:trigger HasParent(st, parent, pc, i)} :: i < |pc| ==> HasParent(st, parent, pc, i))
    && (forall i: nat {:trigger MakerOk(st, pc, maker, i)} :: i < |pc| ==> MakerOk(st, pc, maker, i))
    && (forall i: nat {:trigger ChildOk(st, parent, pc, maker, i)} :: i < |pc| ==> ChildOk(st, parent, pc, maker, i))
    && (forall i: nat {:trigger ExitOk(parent, pc, i)} :: i < |pc| ==> ExitOk(parent, pc, i))
  }

  ghost predicate WaitInv(st: States, parent: Links, pc: Pcs, waitLock: Option<nat>) {
    && (forall q: nat, i: nat {:trigger NotForgotten(st, parent, pc, waitLock, q, i)} ::
        NotForgotten(st, parent, pc, waitLock, q, i))
    && (forall q: nat, i: nat {:trigger Scanned(st, parent, pc, q, i)} :: Scanned(st, parent, pc, q, i))
    && (forall p: nat {:trigger ParentWoken(st, parent, pc, p)} :: ParentWoken(st, parent, pc, p))
  }

  ghost predicate PidInv(st: States, parent: Links, pid: seq<nat>, born: map<nat, nat>, nextpid: nat,
      reaped: seq<(nat, nat, int)>) {
    && |st| == |pid| == |parent| && |pid| > INIT && pid[INIT] == INITPID < nextpid
    && (forall p: nat {:trigger PidOk(st, pid, nextpid, reaped, p)} :: p < |pid| ==> PidOk(st, pid, nextpid, reaped, p))
    && (forall p: nat {:trigger BornOk(parent, pid, born, p)} :: p < |pid| ==> BornOk(parent, pid, born, p))
    && (forall p: nat, q: nat {:trigger PidsDiffer(st, pid, p, q)} :: PidsDiffer(st, pid, p, q))
    && (forall k: nat {:trigger ReapOk(born, nextpid, reaped, k)} :: k < |reaped| ==> ReapOk(born, nextpid, reaped, k))
  }

  ghost predicate Inv(s: State) {
    && Sized(s) && CpuInv(s.st, s.lock, s.pc, s.on, s.chan, s.cpus, s.waitLock)
        && FamilyInv(s.st, s.parent, s.pc, s.maker)
    && WaitInv(s.st, s.parent, s.pc, s.waitLock) && PidInv(s.st, s.parent, s.pid, s.born, s.nextpid, s.reaped)
  }

  lemma InitInv(s: State)
    requires Init(s)
    ensures Inv(s)
  {
    assert s.pc[INIT] == Off(ToUser);
    assert forall c: nat :: c < |s.cpus| ==> s.cpus[c] == Cpu(None, Looking) && CpuOk(s.lock, s.on, s.cpus, c);
    forall p: nat | p < |s.pc|
      ensures RunOk(s.st, s.lock, s.pc, s.on, p) && PlaceOk(s.lock, s.on, s.cpus, p) && WaitLockOk(s.pc, s.waitLock, p)
          && ChanOk(s.st, s.chan, p)
      ensures ParentOk(s.st, s.parent, s.pc, p) && HasParent(s.st, s.parent, s.pc, p) && MakerOk(s.st, s.pc, s.maker, p)
      ensures ChildOk(s.st, s.parent, s.pc, s.maker, p) && ExitOk(s.parent, s.pc, p)
      ensures PidOk(s.st, s.pid, s.nextpid, s.reaped, p) && BornOk(s.parent, s.pid, s.born, p)
    {
      assert s.pc[p] == if p == INIT then Off(ToUser) else NoThread;
    }
    forall p: nat, q: nat ensures PidsDiffer(s.st, s.pid, p, q) {
      assert p < |s.pc| && q < |s.pc| ==> s.pc[p] == s.pc[p] && s.pc[q] == s.pc[q];
    }
    forall q: nat, i: nat ensures NotForgotten(s.st, s.parent, s.pc, s.waitLock, q, i)
        && Scanned(s.st, s.parent, s.pc, q, i) {
      assert i < |s.pc| ==> s.pc[i] == s.pc[i];
    }
    forall p: nat ensures ParentWoken(s.st, s.parent, s.pc, p) {
      assert p < |s.pc| ==> s.pc[p] == s.pc[p];
    }
  }

  /** What the invariant says of process p. */
  lemma Look(s: State, p: nat)
    requires Inv(s) && p < |s.pc|
    ensures RunOk(s.st, s.lock, s.pc, s.on, p) && PlaceOk(s.lock, s.on, s.cpus, p) && WaitLockOk(s.pc, s.waitLock, p)
        && ChanOk(s.st, s.chan, p)
    ensures ParentOk(s.st, s.parent, s.pc, p) && HasParent(s.st, s.parent, s.pc, p) && MakerOk(s.st, s.pc, s.maker, p)
    ensures ChildOk(s.st, s.parent, s.pc, s.maker, p) && ExitOk(s.parent, s.pc, p)
        && ParentWoken(s.st, s.parent, s.pc, p)
    ensures PidOk(s.st, s.pid, s.nextpid, s.reaped, p) && BornOk(s.parent, s.pid, s.born, p)
  {
    assert RunOk(s.st, s.lock, s.pc, s.on, p) && PlaceOk(s.lock, s.on, s.cpus, p) && WaitLockOk(s.pc, s.waitLock, p)
        && ChanOk(s.st, s.chan, p);
    assert ParentOk(s.st, s.parent, s.pc, p) && HasParent(s.st, s.parent, s.pc, p) && MakerOk(s.st, s.pc, s.maker, p);
    assert ChildOk(s.st, s.parent, s.pc, s.maker, p) && ExitOk(s.parent, s.pc, p)
        && ParentWoken(s.st, s.parent, s.pc, p);
    assert PidOk(s.st, s.pid, s.nextpid, s.reaped, p) && BornOk(s.parent, s.pid, s.born, p);
  }
}
