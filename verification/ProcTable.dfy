/** The process table (kernel/proc.c): scheduler, yield, fork, exit, wait and reparent, on any
    number of CPUs, as a machine whose steps interleave freely.

    A spinlock that is taken, used and released within one step is free before and after it;
    p->lock stays held from where a process gives up its CPU until the scheduler has it back,
    and wait_lock throughout the loops of wait and exit. */
module ProcTable {
  import opened Common

  datatype ProcState = UNUSED | USED | SLEEPING | RUNNABLE | RUNNING | ZOMBIE

  /** Who holds p->lock: nobody, the thread of p itself, or the scheduler of CPU c, which took
      it over in swtch. */
  datatype Holder = Free | Thread | Scheduler(c: nat)

  /** Where a thread goes on after it was switched away from. */
  datatype Cont = ToUser | ToWait | Never

  /** What exit does after a wakeup. */
  datatype Next = NextChild(i: nat) | NextZombie

  /** Where the kernel thread of a process is. None: no thread. User: holds no lock. ForkedUsed,
      ForkedChild: in fork, the child np has no parent yet, or has one. WaitScan: in wait, at
      process i of its loop. WaitSleep: in wait, about to sleep. SleepLocked, SleepUnlocked: in
      sleep, before and after it releases wait_lock. WaitBack: in sleep, before it takes
      wait_lock again. Reparent: in exit, at process i of reparent's loop. Waking: in wakeup on
      channel ch, at process i of its loop. ExitLock: in exit, about to become a zombie.
      ExitRelease: a zombie, about to release wait_lock. Sched: in sched. Off: switched away
      from, or switched back to and about to release p->lock. */
  datatype Pc =
    | NoThread
    | User
    | ForkedUsed(np: nat)
    | ForkedChild(np: nat)
    | WaitScan(i: nat, kids: bool)
    | WaitSleep
    | SleepLocked
    | SleepUnlocked
    | WaitBack
    | Reparent(i: nat)
    | Waking(ch: nat, i: nat, next: Next)
    | ExitLock
    | ExitRelease
    | Sched(k: Cont)
    | Off(k: Cont)

  /** A CPU's c->proc, and its scheduler: it looks for a process, has switched to p, or was
      switched back to by p. */
  datatype Cpu = Cpu(proc: Option<nat>, sched: Sched)

  datatype Sched = Looking | Ran(p: nat) | Back(p: nat)

  /** The fields of struct proc, each for all processes. Besides those of the program, pc and
      on say where the thread of a process is and which CPU executes it, and maker which
      process is setting up the slot in fork. born gives the pid of the process that made each
      child, exited has the pids of the processes that have become zombies, with the status that
      they gave to exit, and reaped lists the children that wait has returned, each with its
      caller and the status that the caller got. */
  datatype State = State(
    st: seq<ProcState>, chan: seq<Option<nat>>, parent: seq<Option<nat>>, lock: seq<Holder>, pid: seq<nat>,
    killed: seq<bool>, xstate: seq<int>, pc: seq<Pc>, on: seq<Option<nat>>, maker: seq<Option<nat>>,
    cpus: seq<Cpu>, waitLock: Option<nat>, nextpid: nat, born: map<nat, nat>,
    exited: map<nat, int>, reaped: seq<(nat, nat, int)>)

  ghost predicate Sized(s: State) {
    |s.st| == |s.chan| == |s.parent| == |s.lock| == |s.pid| == |s.killed| == |s.xstate| == |s.pc| == |s.on| == |s.maker|
  }

  /** The slot of the first process, and its pid. */
  const INIT: nat := 0
  const INITPID: nat := 1

  ghost predicate Zombie(s: State, p: nat, i: nat)
    requires Sized(s) && i < |s.pc|
  {
    s.parent[i] == Some(p) && s.lock[i] == Free && s.st[i] == ZOMBIE
  }

  ghost predicate Sleeps(s: State, i: nat, ch: nat)
    requires Sized(s) && i < |s.pc|
  {
    s.st[i] == SLEEPING && s.chan[i] == Some(ch)
  }

  datatype Step =
    | Pick(p: nat, c: nat)
    | Resume(p: nat)
    | Yield(p: nat)
    | Swtch(p: nat)
    | Unpick(p: nat, c: nat)
    | ForkAlloc(p: nat, np: nat)
    | ForkFail(p: nat)
    | ForkParent(p: nat)
    | ForkRun(p: nat)
    | WaitBegin(p: nat)
    | WaitPass(p: nat)
    | WaitReap(p: nat)
    | WaitReturn(p: nat)
    | WaitMore(p: nat)
    | SleepLock(p: nat)
    | SleepRelease(p: nat)
    | SleepMark(p: nat)
    | ExitBegin(p: nat)
    | ReparentPass(p: nat)
    | ReparentGive(p: nat)
    | ReparentEnd(p: nat)
    | WakePass(p: nat)
    | WakeUp(p: nat)
    | WakeEnd(p: nat)
    | ExitMark(p: nat, status: int)
    | ExitUnlock(p: nat)
    | Kill(p: nat)

  /** The scheduler of CPU c takes p->lock and switches to p. */
  ghost predicate CanPick(s: State, p: nat, c: nat) {
    Sized(s) && p < |s.pc| && c < |s.cpus| && s.cpus[c].sched == Looking && s.lock[p] == Free && s.st[p] == RUNNABLE
  }

  ghost function DoPick(s: State, p: nat, c: nat): State
    requires CanPick(s, p, c)
  {
    s.(st := s.st[p := RUNNING], lock := s.lock[p := Thread], on := s.on[p := Some(c)],
        cpus := s.cpus[c := Cpu(Some(p), Ran(p))])
  }

  /** Back from swtch, p releases its lock. */
  ghost predicate CanResume(s: State, p: nat) {
    Sized(s) && p < |s.pc| && s.pc[p].Off? && s.on[p].Some?
  }

  ghost function DoResume(s: State, p: nat): State
    requires CanResume(s, p)
  {
    s.(lock := s.lock[p := Free], chan := s.chan[p := None],
        pc := s.pc[p := if s.pc[p].k == ToWait then WaitBack else User])
  }

  ghost predicate CanYield(s: State, p: nat) {
    Sized(s) && p < |s.pc| && s.pc[p] == User && s.lock[p] == Free
  }

  ghost function DoYield(s: State, p: nat): State
    requires CanYield(s, p)
  {
    s.(lock := s.lock[p := Thread], st := s.st[p := RUNNABLE], pc := s.pc[p := Sched(ToUser)])
  }

  /** p switches to the scheduler of its CPU, which then holds p->lock. */
  ghost predicate CanSwtch(s: State, p: nat) {
    Sized(s) && p < |s.pc| && s.pc[p].Sched? && s.on[p].Some? && s.on[p].value < |s.cpus|
  }

  ghost function DoSwtch(s: State, p: nat): State
    requires CanSwtch(s, p)
  {
    var c := s.on[p].value;
    s.(lock := s.lock[p := Scheduler(c)], on := s.on[p := None], pc := s.pc[p := Off(s.pc[p].k)],
        cpus := s.cpus[c := s.cpus[c].(sched := Back(p))])
  }

  /** The scheduler clears c->proc and releases p->lock. */
  ghost predicate CanUnpick(s: State, p: nat, c: nat) {
    Sized(s) && p < |s.pc| && c < |s.cpus| && s.cpus[c].sched == Back(p)
  }

  ghost function DoUnpick(s: State, p: nat, c: nat): State
    requires CanUnpick(s, p, c)
  {
    s.(lock := s.lock[p := Free], cpus := s.cpus[c := Cpu(None, Looking)])
  }

  /** allocproc for fork. */
  ghost predicate CanForkAlloc(s: State, p: nat, np: nat) {
    Sized(s) && p < |s.pc| && s.pc[p] == User && np < |s.pc| && s.st[np] == UNUSED && s.lock[np] == Free
  }

  ghost function DoForkAlloc(s: State, p: nat, np: nat): State
    requires CanForkAlloc(s, p, np)
  {
    s.(st := s.st[np := USED], pid := s.pid[np := s.nextpid], maker := s.maker[np := Some(p)],
        pc := s.pc[p := ForkedUsed(np)], nextpid := s.nextpid + 1)
  }

  /** There is no memory for the child, and freeproc takes it back. */
  ghost predicate CanForkFail(s: State, p: nat) {
    Sized(s) && p < |s.pc| && s.pc[p].ForkedUsed? && s.pc[p].np < |s.pc| && s.lock[s.pc[p].np] == Free
  }

  ghost function DoForkFail(s: State, p: nat): State
    requires CanForkFail(s, p)
  {
    var np := s.pc[p].np;
    s.(st := s.st[np := UNUSED], pid := s.pid[np := 0], maker := s.maker[np := None], killed := s.killed[np := false],
        xstate := s.xstate[np := 0],
        pc := s.pc[p := User])
  }

  ghost predicate CanForkParent(s: State, p: nat) {
    Sized(s) && p < |s.pc| && s.pc[p].ForkedUsed? && s.pc[p].np < |s.pc| && s.waitLock == None
  }

  ghost function DoForkParent(s: State, p: nat): State
    requires CanForkParent(s, p)
  {
    var np := s.pc[p].np;
    s.(parent := s.parent[np := Some(p)], pc := s.pc[p := ForkedChild(np)], born := s.born[s.pid[np] := s.pid[p]])
  }

  ghost predicate CanForkRun(s: State, p: nat) {
    Sized(s) && p < |s.pc| && s.pc[p].ForkedChild? && s.pc[p].np < |s.pc| && s.lock[s.pc[p].np] == Free
  }

  ghost function DoForkRun(s: State, p: nat): State
    requires CanForkRun(s, p)
  {
    var np := s.pc[p].np;
    s.(st := s.st[np := RUNNABLE], maker := s.maker[np := None], pc := s.pc[np := Off(ToUser)][p := User])
  }

  /** wait, or its loop again after sleep. */
  ghost predicate CanWaitBegin(s: State, p: nat) {
    Sized(s) && p < |s.pc| && (s.pc[p] == User || s.pc[p] == WaitBack) && s.waitLock == None
  }

  ghost function DoWaitBegin(s: State, p: nat): State
    requires CanWaitBegin(s, p)
  {
    s.(pc := s.pc[p := WaitScan(0, false)], waitLock := Some(p))
  }

  /** One round of wait's loop, at a process that is not a zombie child. */
  ghost predicate CanWaitPass(s: State, p: nat) {
    Sized(s) && p < |s.pc| && s.pc[p].WaitScan? && s.pc[p].i < |s.pc|
    && (s.parent[s.pc[p].i] == Some(p) ==> s.lock[s.pc[p].i] == Free && s.st[s.pc[p].i] != ZOMBIE)
  }

  ghost function DoWaitPass(s: State, p: nat): State
    requires CanWaitPass(s, p)
  {
    s.(pc := s.pc[p := WaitScan(s.pc[p].i + 1, s.pc[p].kids || s.parent[s.pc[p].i] == Some(p))])
  }

  /** wait returns a zombie child, whose slot is freed. */
  ghost predicate CanWaitReap(s: State, p: nat) {
    Sized(s) && p < |s.pc| && s.pc[p].WaitScan? && s.pc[p].i < |s.pc| && Zombie(s, p, s.pc[p].i)
  }

  ghost function DoWaitReap(s: State, p: nat): State
    requires CanWaitReap(s, p)
  {
    var i := s.pc[p].i;
    s.(st := s.st[i := UNUSED], chan := s.chan[i := None], parent := s.parent[i := None], pid := s.pid[i := 0],
        killed := s.killed[i := false],
       pc := s.pc[i := NoThread][p := User], waitLock := None, xstate := s.xstate[i := 0],
       reaped := s.reaped + [(s.pid[i], s.pid[p], s.xstate[i])])
  }

  /** wait returns -1: there are no children, the process was killed, or the status of a zombie
      child cannot be copied out. */
  ghost predicate CanWaitReturn(s: State, p: nat) {
    Sized(s) && p < |s.pc| && s.pc[p].WaitScan?
    && if s.pc[p].i < |s.pc| then Zombie(s, p, s.pc[p].i) else !s.pc[p].kids || s.killed[p]
  }

  ghost function DoWaitReturn(s: State, p: nat): State
    requires CanWaitReturn(s, p)
  {
    s.(pc := s.pc[p := User], waitLock := None)
  }

  ghost predicate CanWaitMore(s: State, p: nat) {
    Sized(s) && p < |s.pc| && s.pc[p].WaitScan? && s.pc[p].i == |s.pc| && s.pc[p].kids && !s.killed[p]
  }

  ghost function DoWaitMore(s: State, p: nat): State
    requires CanWaitMore(s, p)
  {
    s.(pc := s.pc[p := WaitSleep])
  }

  ghost predicate CanSleepLock(s: State, p: nat) {
    Sized(s) && p < |s.pc| && s.pc[p] == WaitSleep && s.lock[p] == Free
  }

  ghost function DoSleepLock(s: State, p: nat): State
    requires CanSleepLock(s, p)
  {
    s.(lock := s.lock[p := Thread], pc := s.pc[p := SleepLocked])
  }

  ghost predicate CanSleepRelease(s: State, p: nat) {
    Sized(s) && p < |s.pc| && s.pc[p] == SleepLocked
  }

  ghost function DoSleepRelease(s: State, p: nat): State
    requires CanSleepRelease(s, p)
  {
    s.(pc := s.pc[p := SleepUnlocked], waitLock := None)
  }

  ghost predicate CanSleepMark(s: State, p: nat) {
    Sized(s) && p < |s.pc| && s.pc[p] == SleepUnlocked
  }

  ghost function DoSleepMark(s: State, p: nat): State
    requires CanSleepMark(s, p)
  {
    s.(chan := s.chan[p := Some(p)], st := s.st[p := SLEEPING], pc := s.pc[p := Sched(ToWait)])
  }

  ghost predicate CanExitBegin(s: State, p: nat) {
    Sized(s) && p < |s.pc| && s.pc[p] == User && p != INIT && s.waitLock == None
  }

  ghost function DoExitBegin(s: State, p: nat): State
    requires CanExitBegin(s, p)
  {
    s.(pc := s.pc[p := Reparent(0)], waitLock := Some(p))
  }

  ghost predicate CanReparentPass(s: State, p: nat) {
    Sized(s) && p < |s.pc| && s.pc[p].Reparent? && s.pc[p].i < |s.pc| && s.parent[s.pc[p].i] != Some(p)
  }

  ghost function DoReparentPass(s: State, p: nat): State
    requires CanReparentPass(s, p)
  {
    s.(pc := s.pc[p := Reparent(s.pc[p].i + 1)])
  }

  /** reparent gives a child to the first process, and wakes that. */
  ghost predicate CanReparentGive(s: State, p: nat) {
    Sized(s) && p < |s.pc| && s.pc[p].Reparent? && s.pc[p].i < |s.pc| && s.parent[s.pc[p].i] == Some(p)
  }

  ghost function DoReparentGive(s: State, p: nat): State
    requires CanReparentGive(s, p)
  {
    s.(parent := s.parent[s.pc[p].i := Some(INIT)], pc := s.pc[p := Waking(INIT, 0, NextChild(s.pc[p].i + 1))])
  }

  ghost predicate CanReparentEnd(s: State, p: nat) {
    Sized(s) && p < |s.pc| && s.pc[p].Reparent? && s.pc[p].i == |s.pc| && s.parent[p].Some?
  }

  ghost function DoReparentEnd(s: State, p: nat): State
    requires CanReparentEnd(s, p)
  {
    s.(pc := s.pc[p := Waking(s.parent[p].value, 0, NextZombie)])
  }

  /** One round of wakeup's loop, at a process that does not sleep on the channel. */
  ghost predicate CanWakePass(s: State, p: nat) {
    Sized(s) && p < |s.pc| && s.pc[p].Waking? && s.pc[p].i < |s.pc|
        && (s.pc[p].i == p || (s.lock[s.pc[p].i] == Free && !Sleeps(s, s.pc[p].i, s.pc[p].ch)))
  }

  ghost function DoWakePass(s: State, p: nat): State
    requires CanWakePass(s, p)
  {
    s.(pc := s.pc[p := Waking(s.pc[p].ch, s.pc[p].i + 1, s.pc[p].next)])
  }

  ghost predicate CanWakeUp(s: State, p: nat) {
    Sized(s) && p < |s.pc| && s.pc[p].Waking? && s.pc[p].i < |s.pc| && s.pc[p].i != p && s.lock[s.pc[p].i] == Free
        && Sleeps(s, s.pc[p].i, s.pc[p].ch)
  }

  ghost function DoWakeUp(s: State, p: nat): State
    requires CanWakeUp(s, p)
  {
    s.(st := s.st[s.pc[p].i := RUNNABLE], pc := s.pc[p := Waking(s.pc[p].ch, s.pc[p].i + 1, s.pc[p].next)])
  }

  ghost predicate CanWakeEnd(s: State, p: nat) {
    Sized(s) && p < |s.pc| && s.pc[p].Waking? && s.pc[p].i == |s.pc|
  }

  ghost function DoWakeEnd(s: State, p: nat): State
    requires CanWakeEnd(s, p)
  {
    s.(pc := s.pc[p := if s.pc[p].next.NextChild? then Reparent(s.pc[p].next.i) else ExitLock])
  }

  ghost predicate CanExitMark(s: State, p: nat) {
    Sized(s) && p < |s.pc| && s.pc[p] == ExitLock && s.lock[p] == Free
  }

  ghost function DoExitMark(s: State, p: nat, status: int): State
    requires CanExitMark(s, p)
  {
    s.(lock := s.lock[p := Thread], xstate := s.xstate[p := status], st := s.st[p := ZOMBIE],
        pc := s.pc[p := ExitRelease], exited := s.exited[s.pid[p] := status])
  }

  ghost predicate CanExitUnlock(s: State, p: nat) {
    Sized(s) && p < |s.pc| && s.pc[p] == ExitRelease
  }

  ghost function DoExitUnlock(s: State, p: nat): State
    requires CanExitUnlock(s, p)
  {
    s.(pc := s.pc[p := Sched(Never)], waitLock := None)
  }

  ghost predicate CanKill(s: State, p: nat) {
    Sized(s) && p < |s.pc| && s.lock[p] == Free && s.pid[p] != 0
  }

  ghost function DoKill(s: State, p: nat): State
    requires CanKill(s, p)
  {
    s.(killed := s.killed[p := true], st := s.st[p := if s.st[p] == SLEEPING then RUNNABLE else s.st[p]])
  }

  /** Steps of the scheduler, of the processes that it switches to, and kill. */
  ghost predicate Schedules(s: State, a: Step, s': State) {
    match a
    case Pick(p, c) => CanPick(s, p, c) && s' == DoPick(s, p, c)
    case Resume(p) => CanResume(s, p) && s' == DoResume(s, p)
    case Yield(p) => CanYield(s, p) && s' == DoYield(s, p)
    case Swtch(p) => CanSwtch(s, p) && s' == DoSwtch(s, p)
    case Unpick(p, c) => CanUnpick(s, p, c) && s' == DoUnpick(s, p, c)
    case Kill(p) => CanKill(s, p) && s' == DoKill(s, p)
    case _ => false
  }

  /** Steps of fork. */
  ghost predicate ForksOn(s: State, a: Step, s': State) {
    match a
    case ForkAlloc(p, np) => CanForkAlloc(s, p, np) && s' == DoForkAlloc(s, p, np)
    case ForkFail(p) => CanForkFail(s, p) && s' == DoForkFail(s, p)
    case ForkParent(p) => CanForkParent(s, p) && s' == DoForkParent(s, p)
    case ForkRun(p) => CanForkRun(s, p) && s' == DoForkRun(s, p)
    case _ => false
  }

  /** Steps of wait, and of sleep in it. */
  ghost predicate WaitsOn(s: State, a: Step, s': State) {
    match a
    case WaitBegin(p) => CanWaitBegin(s, p) && s' == DoWaitBegin(s, p)
    case WaitPass(p) => CanWaitPass(s, p) && s' == DoWaitPass(s, p)
    case WaitReap(p) => CanWaitReap(s, p) && s' == DoWaitReap(s, p)
    case WaitReturn(p) => CanWaitReturn(s, p) && s' == DoWaitReturn(s, p)
    case WaitMore(p) => CanWaitMore(s, p) && s' == DoWaitMore(s, p)
    case SleepLock(p) => CanSleepLock(s, p) && s' == DoSleepLock(s, p)
    case SleepRelease(p) => CanSleepRelease(s, p) && s' == DoSleepRelease(s, p)
    case SleepMark(p) => CanSleepMark(s, p) && s' == DoSleepMark(s, p)
    case _ => false
  }

  /** Steps of exit, with reparent and wakeup. */
  ghost predicate ExitsOn(s: State, a: Step, s': State) {
    match a
    case ExitBegin(p) => CanExitBegin(s, p) && s' == DoExitBegin(s, p)
    case ReparentPass(p) => CanReparentPass(s, p) && s' == DoReparentPass(s, p)
    case ReparentGive(p) => CanReparentGive(s, p) && s' == DoReparentGive(s, p)
    case ReparentEnd(p) => CanReparentEnd(s, p) && s' == DoReparentEnd(s, p)
    case WakePass(p) => CanWakePass(s, p) && s' == DoWakePass(s, p)
    case WakeUp(p) => CanWakeUp(s, p) && s' == DoWakeUp(s, p)
    case WakeEnd(p) => CanWakeEnd(s, p) && s' == DoWakeEnd(s, p)
    case ExitMark(p, status) => CanExitMark(s, p) && s' == DoExitMark(s, p, status)
    case ExitUnlock(p) => CanExitUnlock(s, p) && s' == DoExitUnlock(s, p)
    case _ => false
  }

  /** Step a leads from s to s'. */
  ghost predicate Does(s: State, a: Step, s': State) {
    Schedules(s, a, s') || ForksOn(s, a, s') || WaitsOn(s, a, s') || ExitsOn(s, a, s')
  }

  // ----- runs -----

  /** At the start the first process is ready to run, and all other slots are unused. */
  ghost predicate Init(s: State) {
    && Sized(s) && |s.pc| > INIT
    && (forall p {:trigger s.pc[p]} :: 0 <= p < |s.pc| ==>
          && s.st[p] == (if p == INIT then RUNNABLE else UNUSED) && s.pid[p] == (if p == INIT then INITPID else 0)
          && s.pc[p] == (if p == INIT then Off(ToUser) else NoThread)
          && s.chan[p] == None && s.parent[p] == None && s.lock[p] == Free && !s.killed[p] && s.on[p] == None
              && s.maker[p] == None)
    && (forall c :: 0 <= c < |s.cpus| ==> s.cpus[c] == Cpu(None, Looking))
    && s.waitLock == None && s.nextpid == INITPID + 1 && s.born == map[] && s.exited == map[] && s.reaped == []
  }

  ghost predicate StepTo(s: State, s': State) { exists a: Step :: Does(s, a, s') }

  ghost predicate StepAt(ss: seq<State>, k: nat) { k + 1 < |ss| && StepTo(ss[k], ss[k + 1]) }

  ghost predicate IsRun(ss: seq<State>) {
    |ss| > 0 && Init(ss[0]) && forall k: nat {:trigger StepAt(ss, k)} :: k + 1 < |ss| ==> StepAt(ss, k)
  }
}
