/** Who may wait for a child whose parent has exited (kernel/proc.c). */
module ProcOrphans {
  import opened Common
  import opened ProcTable
  import opened ProcInvariant

  /** The process is in exit and has not yet become a zombie. */
  ghost predicate Exiting(pc: Pc) { pc.Reparent? || pc.Waking? || pc == ExitLock }

  /** The first process may be the parent of a child that m made: m is the first process, has
      exited, or is about to and holds wait_lock until it has. */
  ghost predicate Excused(pid: seq<nat>, pc: Pcs, waitLock: Option<nat>, exited: map<nat, int>, m: nat) {
    || m == INITPID || m in exited
    || (waitLock.Some? && waitLock.value < |pc| && waitLock.value < |pid| && Exiting(pc[waitLock.value])
        && pid[waitLock.value] == m)
  }

  ghost predicate GivenOk(s: State, p: nat) {
    p < |s.pid| && p < |s.parent| && s.parent[p] == Some(INIT) ==>
      s.pid[p] in s.born && Excused(s.pid, s.pc, s.waitLock, s.exited, s.born[s.pid[p]])
  }

  /** A returned child went to the process that made it, or that one has exited. */
  ghost predicate CallerOk(born: map<nat, nat>, exited: map<nat, int>, reaped: seq<(nat, nat, int)>, k: nat) {
    k < |reaped| ==>
      && reaped[k].0 in born
      && (reaped[k].1 == born[reaped[k].0] || (reaped[k].1 == INITPID && born[reaped[k].0] in exited))
  }

  ghost predicate ExitedOk(st: States, pid: seq<nat>, exited: map<nat, int>, p: nat) {
    p < |st| && p < |pid| && pid[p] in exited ==> st[p] == ZOMBIE
  }

  ghost predicate ZombieOk(st: States, pid: seq<nat>, exited: map<nat, int>, p: nat) {
    p < |st| && p < |pid| && st[p] == ZOMBIE ==> pid[p] in exited
  }

  ghost predicate Gave(s: State) {
    && (forall p: nat {:trigger GivenOk(s, p)} :: GivenOk(s, p))
    && (forall k: nat {:trigger CallerOk(s.born, s.exited, s.reaped, k)} :: CallerOk(s.born, s.exited, s.reaped, k))
    && (forall p: nat {:trigger ExitedOk(s.st, s.pid, s.exited, p)} :: ExitedOk(s.st, s.pid, s.exited, p))
    && (forall p: nat {:trigger ZombieOk(s.st, s.pid, s.exited, p)} :: ZombieOk(s.st, s.pid, s.exited, p))
    && (forall m {:trigger m in s.exited} :: m in s.exited ==> 0 < m < s.nextpid)
  }

  ghost predicate Fine(s: State, p: nat) {
    GivenOk(s, p) && ExitedOk(s.st, s.pid, s.exited, p) && ZombieOk(s.st, s.pid, s.exited, p)
  }

  lemma LookFine(s: State, p: nat)
    requires Gave(s)
    ensures Fine(s, p)
  {
    assert GivenOk(s, p) && ExitedOk(s.st, s.pid, s.exited, p) && ZombieOk(s.st, s.pid, s.exited, p);
  }

  // ----- steps that make, free, give away or end a process -----

  lemma ForkAllocGives(s: State, p: nat, np: nat, q: nat)
    requires Inv(s) && Gave(s) && CanForkAlloc(s, p, np)
    ensures Fine(DoForkAlloc(s, p, np), q)
  {
    LookFine(s, q);
    Look(s, np);
    if s.waitLock.Some? { Look(s, s.waitLock.value); }
  }

  lemma ForkFailGives(s: State, p: nat, q: nat)
    requires Inv(s) && Gave(s) && CanForkFail(s, p)
    ensures Fine(DoForkFail(s, p), q)
  {
    LookFine(s, q);
    Look(s, p);
    Look(s, s.pc[p].np);
    if s.waitLock.Some? { Look(s, s.waitLock.value); }
  }

  lemma ForkParentGives(s: State, p: nat, q: nat)
    requires Inv(s) && Gave(s) && CanForkParent(s, p)
    ensures Fine(DoForkParent(s, p), q)
  {
    LookFine(s, q);
    Look(s, p);
    if q < |s.pc| { Look(s, q); }
    assert PidsDiffer(s.st, s.pid, s.pc[p].np, q);
  }

  lemma ForkRunGives(s: State, p: nat, q: nat)
    requires Inv(s) && Gave(s) && CanForkRun(s, p)
    ensures Fine(DoForkRun(s, p), q)
  {
    LookFine(s, q);
    Look(s, p);
    Look(s, s.pc[p].np);
    if s.waitLock.Some? { Look(s, s.waitLock.value); }
  }

  lemma WaitReapGives(s: State, p: nat, q: nat)
    requires Inv(s) && Gave(s) && CanWaitReap(s, p)
    ensures Fine(DoWaitReap(s, p), q)
  {
    LookFine(s, q);
    Look(s, p);
  }

  lemma ReparentGiveGives(s: State, p: nat, q: nat)
    requires Inv(s) && Gave(s) && CanReparentGive(s, p)
    ensures Fine(DoReparentGive(s, p), q)
  {
    LookFine(s, q);
    Look(s, p);
    Look(s, s.pc[p].i);
  }

  lemma ExitMarkGives(s: State, p: nat, status: int, q: nat)
    requires Inv(s) && Gave(s) && CanExitMark(s, p)
    ensures Fine(DoExitMark(s, p, status), q)
  {
    LookFine(s, q);
    Look(s, p);
    assert PidsDiffer(s.st, s.pid, p, q);
    if q < |s.pc| { Look(s, q); }
  }

  // ----- all steps -----

  lemma ScheduleGives(s: State, a: Step, s': State, q: nat)
    requires Inv(s) && Gave(s) && Schedules(s, a, s')
    ensures Fine(s', q)
  {
    LookFine(s, q);
    Look(s, a.p);
  }

  lemma ForkGives(s: State, a: Step, s': State, q: nat)
    requires Inv(s) && Gave(s) && ForksOn(s, a, s')
    ensures Fine(s', q)
  {
    match a {
      case ForkAlloc(p, np) => ForkAllocGives(s, p, np, q);
      case ForkFail(p) => ForkFailGives(s, p, q);
      case ForkParent(p) => ForkParentGives(s, p, q);
      case ForkRun(p) => ForkRunGives(s, p, q);
    }
  }

  lemma WaitGives(s: State, a: Step, s': State, q: nat)
    requires Inv(s) && Gave(s) && WaitsOn(s, a, s')
    ensures Fine(s', q)
  {
    if a.WaitReap? {
      WaitReapGives(s, a.p, q);
    } else {
      LookFine(s, q);
      Look(s, a.p);
    }
  }

  lemma ExitGives(s: State, a: Step, s': State, q: nat)
    requires Inv(s) && Gave(s) && ExitsOn(s, a, s')
    ensures Fine(s', q)
  {
    if a.ReparentGive? {
      ReparentGiveGives(s, a.p, q);
    } else if a.ExitMark? {
      ExitMarkGives(s, a.p, a.status, q);
    } else {
      LookFine(s, q);
      Look(s, a.p);
    }
  }

  /** Which step writes which record. */
  lemma Records(s: State, a: Step, s': State)
    requires Does(s, a, s')
    ensures !a.WaitReap? ==> s'.reaped == s.reaped
    ensures !a.ForkParent? ==> s'.born == s.born
    ensures !a.ExitMark? ==> s'.exited == s.exited
    ensures s.nextpid <= s'.nextpid
  {
    if Schedules(s, a, s') { } else if ForksOn(s, a, s') { } else if WaitsOn(s, a, s') { } else { }
  }

  /** wait returns a child to a caller that may have it. */
  lemma ReapToCaller(s: State, p: nat)
    requires Inv(s) && Gave(s) && CanWaitReap(s, p)
    ensures CallerOk(s.born, s.exited, DoWaitReap(s, p).reaped, |s.reaped|)
  {
    Look(s, p);
    Look(s, s.pc[p].i);
    assert GivenOk(s, s.pc[p].i);
  }

  lemma BornKeepsCallers(s: State, p: nat, k: nat)
    requires Inv(s) && Gave(s) && CanForkParent(s, p)
    ensures CallerOk(DoForkParent(s, p).born, s.exited, s.reaped, k)
  {
    assert CallerOk(s.born, s.exited, s.reaped, k);
    Look(s, p);
    Look(s, s.pc[p].np);
  }

  lemma CallersStay(s: State, a: Step, s': State, k: nat)
    requires Inv(s) && Gave(s) && Does(s, a, s')
    ensures CallerOk(s'.born, s'.exited, s'.reaped, k)
  {
    Records(s, a, s');
    assert CallerOk(s.born, s.exited, s.reaped, k);
    if a.WaitReap? {
      ReapToCaller(s, a.p);
    } else if a.ForkParent? {
      BornKeepsCallers(s, a.p, k);
    }
  }

  lemma ExitedStay(s: State, a: Step, s': State, m: nat)
    requires Inv(s) && Gave(s) && Does(s, a, s') && m in s'.exited
    ensures 0 < m < s'.nextpid
  {
    Records(s, a, s');
    if a.ExitMark? { Look(s, a.p); }
  }

  lemma StepGives(s: State, a: Step, s': State)
    requires Inv(s) && Gave(s) && Does(s, a, s')
    ensures Gave(s')
  {
    forall p: nat ensures Fine(s', p) {
      if Schedules(s, a, s') { ScheduleGives(s, a, s', p); }
      else if ForksOn(s, a, s') { ForkGives(s, a, s', p); }
      else if WaitsOn(s, a, s') { WaitGives(s, a, s', p); }
      else { ExitGives(s, a, s', p); }
    }
    forall p: nat
      ensures GivenOk(s', p) && ExitedOk(s'.st, s'.pid, s'.exited, p) && ZombieOk(s'.st, s'.pid, s'.exited, p)
    {
      assert Fine(s', p);
    }
    forall k: nat ensures CallerOk(s'.born, s'.exited, s'.reaped, k) { CallersStay(s, a, s', k); }
    forall m | m in s'.exited ensures 0 < m < s'.nextpid { ExitedStay(s, a, s', m); }
  }

  lemma InitGave(s: State)
    requires Init(s)
    ensures Gave(s)
  {
    forall p: nat ensures Fine(s, p) {
      assert p < |s.pc| ==> s.pc[p] == s.pc[p];
    }
    forall p: nat
      ensures GivenOk(s, p) && ExitedOk(s.st, s.pid, s.exited, p) && ZombieOk(s.st, s.pid, s.exited, p)
    {
      assert Fine(s, p);
    }
  }
}
