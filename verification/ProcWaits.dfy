/** When wait goes to sleep and when it gives up, and what kill does to it (kernel/proc.c). */
module ProcWaits {
  import opened Common
  import opened ProcTable
  import opened ProcInvariant
  import opened ProcOrphans
  import opened ProcTheorems

  ghost predicate IsChild(parent: Links, q: nat, j: nat) { j < |parent| && parent[j] == Some(q) }

  /** One of the first n slots has q as its parent. */
  ghost predicate HasKid(parent: Links, q: nat, n: nat) {
    exists j: nat {:trigger IsChild(parent, q, j)} :: j < n && IsChild(parent, q, j)
  }

  /** In wait, from the decision to sleep until it looks at its children again. */
  ghost predicate InSleep(pc: Pc) {
    pc == WaitSleep || pc == SleepLocked || pc == SleepUnlocked || pc == Sched(ToWait) || pc == Off(ToWait)
    || pc == WaitBack
  }

  /** havekids says whether a child was among the slots that wait has looked at; and a process
      that sleeps in wait has a child. */
  ghost predicate KidsOk(parent: Links, pc: Pcs, q: nat) {
    q < |pc| ==>
      && (pc[q].WaitScan? ==> (pc[q].kids <==> HasKid(parent, q, pc[q].i)))
      && (InSleep(pc[q]) ==> HasKid(parent, q, |pc|))
  }

  ghost predicate Kids(s: State) { forall q: nat {:trigger KidsOk(s.parent, s.pc, q)} :: KidsOk(s.parent, s.pc, q) }

  // ----- every step keeps it -----

  lemma SameKids(parent: Links, parent': Links, q: nat, n: nat)
    requires forall j: nat :: IsChild(parent, q, j) <==> IsChild(parent', q, j)
    ensures HasKid(parent, q, n) <==> HasKid(parent', q, n)
  {
    if HasKid(parent, q, n) {
      var j: nat :| j < n && IsChild(parent, q, j);
      assert IsChild(parent', q, j);
    }
    if HasKid(parent', q, n) {
      var j: nat :| j < n && IsChild(parent', q, j);
      assert IsChild(parent, q, j);
    }
  }

  lemma OneMoreLooked(parent: Links, q: nat, n: nat)
    ensures HasKid(parent, q, n + 1) <==> HasKid(parent, q, n) || IsChild(parent, q, n)
  {
  }

  lemma ScheduleKids(s: State, a: Step, s': State, q: nat)
    requires Inv(s) && Kids(s) && Schedules(s, a, s')
    ensures KidsOk(s'.parent, s'.pc, q)
  {
    assert KidsOk(s.parent, s.pc, q);
  }

  lemma ForkKids(s: State, a: Step, s': State, q: nat)
    requires Inv(s) && Kids(s) && ForksOn(s, a, s')
    ensures KidsOk(s'.parent, s'.pc, q)
  {
    assert KidsOk(s.parent, s.pc, q);
    if a.ForkParent? {
      Look(s, a.p);
      if q != a.p {
        forall j: nat ensures IsChild(s.parent, q, j) <==> IsChild(s'.parent, q, j) { }
        forall n: nat ensures HasKid(s.parent, q, n) <==> HasKid(s'.parent, q, n) {
          SameKids(s.parent, s'.parent, q, n);
        }
      }
    }
  }

  lemma ReapKids(s: State, p: nat, q: nat)
    requires Inv(s) && Kids(s) && CanWaitReap(s, p)
    ensures KidsOk(DoWaitReap(s, p).parent, DoWaitReap(s, p).pc, q)
  {
    var s' := DoWaitReap(s, p);
    assert KidsOk(s.parent, s.pc, q);
    if q != p {
      forall n: nat ensures HasKid(s.parent, q, n) <==> HasKid(s'.parent, q, n) {
        SameKids(s.parent, s'.parent, q, n);
      }
    }
  }

  lemma WaitKids(s: State, a: Step, s': State, q: nat)
    requires Inv(s) && Kids(s) && WaitsOn(s, a, s')
    ensures KidsOk(s'.parent, s'.pc, q)
  {
    if a.WaitReap? {
      ReapKids(s, a.p, q);
    } else {
      assert KidsOk(s.parent, s.pc, q);
      if a.WaitPass? && q == a.p { OneMoreLooked(s.parent, q, s.pc[q].i); }
    }
  }

  /** A child that exit gives away goes to a process that does not scan. */
  lemma GiveKids(s: State, p: nat, q: nat)
    requires Inv(s) && Kids(s) && CanReparentGive(s, p)
    ensures KidsOk(DoReparentGive(s, p).parent, DoReparentGive(s, p).pc, q)
  {
    var s' := DoReparentGive(s, p);
    assert KidsOk(s.parent, s.pc, q);
    Look(s, p);
    if q == INIT {
      Look(s, INIT);
      if HasKid(s.parent, q, |s.pc|) {
        var j: nat :| j < |s.pc| && IsChild(s.parent, q, j);
        assert IsChild(s'.parent, q, j);
      }
    } else if q != p {
      forall n: nat ensures HasKid(s.parent, q, n) <==> HasKid(s'.parent, q, n) {
        SameKids(s.parent, s'.parent, q, n);
      }
    }
  }

  lemma ExitKids(s: State, a: Step, s': State, q: nat)
    requires Inv(s) && Kids(s) && ExitsOn(s, a, s')
    ensures KidsOk(s'.parent, s'.pc, q)
  {
    if a.ReparentGive? { GiveKids(s, a.p, q); } else { assert KidsOk(s.parent, s.pc, q); }
  }

  lemma StepKids(s: State, s': State)
    requires Inv(s) && Kids(s) && StepTo(s, s')
    ensures Kids(s')
  {
    var a :| Does(s, a, s');
    forall q: nat ensures KidsOk(s'.parent, s'.pc, q) {
      if Schedules(s, a, s') { ScheduleKids(s, a, s', q); }
      else if ForksOn(s, a, s') { ForkKids(s, a, s', q); }
      else if WaitsOn(s, a, s') { WaitKids(s, a, s', q); }
      else { ExitKids(s, a, s', q); }
    }
  }

  lemma {:induction false} RunKids(ss: seq<State>, k: nat)
    requires IsRun(ss) && k < |ss|
    ensures Kids(ss[k])
  {
    if k == 0 {
      forall q: nat ensures KidsOk(ss[0].parent, ss[0].pc, q) {
        assert q < |ss[0].pc| ==> ss[0].pc[q] == ss[0].pc[q];
      }
    } else {
      RunKids(ss, k - 1);
      RunInv(ss, k - 1);
      assert StepAt(ss, k - 1);
      StepKids(ss[k - 1], ss[k]);
    }
  }

  // ----- what wait does -----

  /** At the end of its loop wait returns -1 if and only if it was killed or no slot has it as
      parent, and otherwise goes to sleep; before that it returns -1 only at a zombie child. */
  lemma WaitGivesUp(ss: seq<State>, k: nat, p: nat)
    requires IsRun(ss) && k < |ss| && Sized(ss[k]) && p < |ss[k].pc| && ss[k].pc[p].WaitScan?
    ensures var s := ss[k];
            var n := |s.pc|;
            && (s.pc[p].kids <==> HasKid(s.parent, p, s.pc[p].i))
            && (CanWaitReturn(s, p) <==>
                if s.pc[p].i < n then Zombie(s, p, s.pc[p].i) else s.killed[p] || !HasKid(s.parent, p, n))
            && (CanWaitMore(s, p) <==> s.pc[p].i == n && !s.killed[p] && HasKid(s.parent, p, n))
  {
    RunInv(ss, k);
    RunKids(ss, k);
    Look(ss[k], p);
    assert KidsOk(ss[k].parent, ss[k].pc, p);
  }

  /** A process that sleeps in wait has a child, so that there is one to wake it. */
  lemma SleepersHaveKids(ss: seq<State>, k: nat, p: nat)
    requires IsRun(ss) && k < |ss| && Sized(ss[k]) && p < |ss[k].pc| && ss[k].st[p] == SLEEPING
    ensures HasKid(ss[k].parent, p, |ss[k].pc|)
  {
    RunInv(ss, k);
    RunKids(ss, k);
    Look(ss[k], p);
    assert KidsOk(ss[k].parent, ss[k].pc, p);
  }

  // ----- the status that it returns -----

  /** A zombie has the status that it gave to exit. */
  ghost predicate StatusOk(st: States, pid: seq<nat>, xstate: seq<int>, exited: map<nat, int>, p: nat) {
    p < |st| && p < |pid| && p < |xstate| && st[p] == ZOMBIE ==> pid[p] in exited && exited[pid[p]] == xstate[p]
  }

  /** The caller of wait got the status that the child gave to exit. */
  ghost predicate ReturnedOk(reaped: seq<(nat, nat, int)>, exited: map<nat, int>, k: nat) {
    k < |reaped| ==> reaped[k].0 in exited && exited[reaped[k].0] == reaped[k].2
  }

  ghost predicate Statuses(s: State) {
    && (forall p: nat {:trigger StatusOk(s.st, s.pid, s.xstate, s.exited, p)} ::
          StatusOk(s.st, s.pid, s.xstate, s.exited, p))
    && (forall k: nat {:trigger ReturnedOk(s.reaped, s.exited, k)} :: ReturnedOk(s.reaped, s.exited, k))
  }

  /** The pid of a process that goes on to exit is not among the exited. */
  lemma NotExited(s: State, p: nat)
    requires Inv(s) && Gave(s) && CanExitMark(s, p)
    ensures s.pid[p] !in s.exited
  {
    Look(s, p);
    assert ExitedOk(s.st, s.pid, s.exited, p);
  }

  lemma ExitMarkStatus(s: State, p: nat, status: int)
    requires Inv(s) && Gave(s) && Statuses(s) && CanExitMark(s, p)
    ensures Statuses(DoExitMark(s, p, status))
  {
    var s' := DoExitMark(s, p, status);
    NotExited(s, p);
    forall q: nat ensures StatusOk(s'.st, s'.pid, s'.xstate, s'.exited, q) {
      assert StatusOk(s.st, s.pid, s.xstate, s.exited, q);
    }
    forall k: nat ensures ReturnedOk(s'.reaped, s'.exited, k) { assert ReturnedOk(s.reaped, s.exited, k); }
  }

  lemma ReapStatus(s: State, p: nat)
    requires Statuses(s) && CanWaitReap(s, p)
    ensures Statuses(DoWaitReap(s, p))
  {
    var s' := DoWaitReap(s, p);
    forall q: nat ensures StatusOk(s'.st, s'.pid, s'.xstate, s'.exited, q) {
      assert StatusOk(s.st, s.pid, s.xstate, s.exited, q);
    }
    assert StatusOk(s.st, s.pid, s.xstate, s.exited, s.pc[p].i);
    forall k: nat ensures ReturnedOk(s'.reaped, s'.exited, k) { assert ReturnedOk(s.reaped, s.exited, k); }
  }

  // Other steps make no zombie and change no status of one.

  lemma ScheduleStatus(s: State, a: Step, s': State, q: nat)
    requires Sized(s) && Statuses(s) && Schedules(s, a, s')
    ensures StatusOk(s'.st, s'.pid, s'.xstate, s'.exited, q)
  {
    assert StatusOk(s.st, s.pid, s.xstate, s.exited, q);
  }

  lemma ForkStatus(s: State, a: Step, s': State, q: nat)
    requires Sized(s) && Statuses(s) && ForksOn(s, a, s')
    ensures StatusOk(s'.st, s'.pid, s'.xstate, s'.exited, q)
  {
    assert StatusOk(s.st, s.pid, s.xstate, s.exited, q);
  }

  lemma WaitStatus(s: State, a: Step, s': State, q: nat)
    requires Sized(s) && Statuses(s) && WaitsOn(s, a, s') && !a.WaitReap?
    ensures StatusOk(s'.st, s'.pid, s'.xstate, s'.exited, q)
  {
    assert StatusOk(s.st, s.pid, s.xstate, s.exited, q);
  }

  lemma ExitStatus(s: State, a: Step, s': State, q: nat)
    requires Sized(s) && Statuses(s) && ExitsOn(s, a, s') && !a.ExitMark?
    ensures StatusOk(s'.st, s'.pid, s'.xstate, s'.exited, q)
  {
    assert StatusOk(s.st, s.pid, s.xstate, s.exited, q);
  }

  lemma StepStatus(s: State, s': State)
    requires Inv(s) && Gave(s) && Statuses(s) && StepTo(s, s')
    ensures Statuses(s')
  {
    var a :| Does(s, a, s');
    if a.ExitMark? {
      ExitMarkStatus(s, a.p, a.status);
    } else if a.WaitReap? {
      ReapStatus(s, a.p);
    } else {
      Records(s, a, s');
      forall q: nat ensures StatusOk(s'.st, s'.pid, s'.xstate, s'.exited, q) {
        if Schedules(s, a, s') { ScheduleStatus(s, a, s', q); }
        else if ForksOn(s, a, s') { ForkStatus(s, a, s', q); }
        else if WaitsOn(s, a, s') { WaitStatus(s, a, s', q); }
        else { ExitStatus(s, a, s', q); }
      }
    }
  }

  lemma {:induction false} RunStatus(ss: seq<State>, k: nat)
    requires IsRun(ss) && k < |ss|
    ensures Statuses(ss[k])
  {
    if k == 0 {
      forall p: nat ensures StatusOk(ss[0].st, ss[0].pid, ss[0].xstate, ss[0].exited, p) {
        assert p < |ss[0].pc| ==> ss[0].pc[p] == ss[0].pc[p];
      }
    } else {
      RunStatus(ss, k - 1);
      RunInv(ss, k - 1);
      RunGave(ss, k - 1);
      assert StepAt(ss, k - 1);
      StepStatus(ss[k - 1], ss[k]);
    }
  }

  /** wait returns, with the pid of a child, the status that this child gave to exit. */
  lemma StatusReturned(ss: seq<State>, k: nat, i: nat)
    requires IsRun(ss) && k < |ss| && i < |ss[k].reaped|
    ensures ss[k].reaped[i].0 in ss[k].exited && ss[k].exited[ss[k].reaped[i].0] == ss[k].reaped[i].2
  {
    RunStatus(ss, k);
    assert ReturnedOk(ss[k].reaped, ss[k].exited, i);
  }

  // ----- what kill does to it -----

  /** p sleeps, or will before it looks at p->killed again. */
  ghost predicate Drowsy(s: State, p: nat) {
    p < |s.st| && p < |s.pc|
    && (s.st[p] == SLEEPING || s.pc[p] == WaitSleep || s.pc[p] == SleepLocked || s.pc[p] == SleepUnlocked)
  }

  /** The slot p has the process with this pid, killed and awake, or never will have it again. */
  ghost predicate AwakeOrGone(s: State, p: nat, m: nat) {
    && Sized(s) && p < |s.pc| && 0 < m < s.nextpid
    && (s.pid[p] == m ==> s.killed[p] && !Drowsy(s, p))
  }

  lemma AwakeScheduled(s: State, a: Step, s': State, p: nat, m: nat)
    requires Inv(s) && Schedules(s, a, s') && AwakeOrGone(s, p, m)
    ensures AwakeOrGone(s', p, m)
  {
    Look(s, p);
  }

  lemma AwakeForks(s: State, a: Step, s': State, p: nat, m: nat)
    requires Inv(s) && ForksOn(s, a, s') && AwakeOrGone(s, p, m)
    ensures AwakeOrGone(s', p, m)
  {
    Look(s, p);
  }

  lemma AwakeWaits(s: State, a: Step, s': State, p: nat, m: nat)
    requires Inv(s) && WaitsOn(s, a, s') && AwakeOrGone(s, p, m)
    ensures AwakeOrGone(s', p, m)
  {
  }

  lemma AwakeExits(s: State, a: Step, s': State, p: nat, m: nat)
    requires Inv(s) && ExitsOn(s, a, s') && AwakeOrGone(s, p, m)
    ensures AwakeOrGone(s', p, m)
  {
  }

  lemma StepAwake(s: State, s': State, p: nat, m: nat)
    requires Inv(s) && StepTo(s, s') && AwakeOrGone(s, p, m)
    ensures AwakeOrGone(s', p, m)
  {
    var a :| Does(s, a, s');
    if Schedules(s, a, s') { AwakeScheduled(s, a, s', p, m); }
    else if ForksOn(s, a, s') { AwakeForks(s, a, s', p, m); }
    else if WaitsOn(s, a, s') { AwakeWaits(s, a, s', p, m); }
    else { AwakeExits(s, a, s', p, m); }
  }

  lemma {:induction false} AwakeLater(ss: seq<State>, j: nat, k: nat, p: nat, m: nat)
    requires IsRun(ss) && j <= k < |ss| && AwakeOrGone(ss[j], p, m)
    ensures AwakeOrGone(ss[k], p, m)
  {
    if j < k {
      AwakeLater(ss, j, k - 1, p, m);
      RunInv(ss, k - 1);
      assert StepAt(ss, k - 1);
      StepAwake(ss[k - 1], ss[k], p, m);
    }
  }

  /** A process that is killed anywhere but between wait's look at p->killed and its sleep is
      awake from then on as long as it exists, and does not go to sleep in wait. */
  lemma KilledStaysAwake(ss: seq<State>, j: nat, k: nat, p: nat)
    requires IsRun(ss) && j < k < |ss| && Does(ss[j], Kill(p), ss[j + 1]) && ss[j].pc[p] != WaitSleep
    requires p < |ss[k].pid| && ss[k].pid[p] == ss[j].pid[p]
    ensures Sized(ss[k]) && p < |ss[k].pc| && ss[k].killed[p] && !Drowsy(ss[k], p)
  {
    RunInv(ss, j);
    Look(ss[j], p);
    AwakeLater(ss, j + 1, k, p, ss[j].pid[p]);
  }

  lemma Extend(ss: seq<State>, a: Step, s: State) returns (ss': seq<State>)
    requires IsRun(ss) && Does(ss[|ss| - 1], a, s)
    ensures IsRun(ss') && ss' == ss + [s]
  {
    ss' := ss + [s];
    assert StepTo(ss[|ss| - 1], s);
    forall k: nat | k + 1 < |ss'| ensures StepAt(ss', k) {
      if k + 1 < |ss| { assert StepAt(ss, k); } else { assert StepTo(ss'[k], ss'[k + 1]); }
    }
  }

  /** Between the two, kill comes too late: the process goes to sleep all the same. */
  lemma KillTooLate(ss: seq<State>, p: nat) returns (ss': seq<State>)
    requires IsRun(ss) && CanKill(ss[|ss| - 1], p) && ss[|ss| - 1].pc[p] == WaitSleep
    ensures IsRun(ss') && |ss'| == |ss| + 4 && ss <= ss' && ss'[|ss|] == DoKill(ss[|ss| - 1], p)
    ensures var s := ss'[|ss| + 3]; Sized(s) && p < |s.pc| && s.killed[p] && s.st[p] == SLEEPING
  {
    var s := ss[|ss| - 1];
    var s1 := DoKill(s, p);
    ss' := Extend(ss, Kill(p), s1);
    var s2 := DoSleepLock(s1, p);
    ss' := Extend(ss', SleepLock(p), s2);
    var s3 := DoSleepRelease(s2, p);
    ss' := Extend(ss', SleepRelease(p), s3);
    ss' := Extend(ss', SleepMark(p), DoSleepMark(s3, p));
  }

  /** Two slots and one CPU. The first process runs there, and slot 1 has the given child. */
  ghost function Duo(pc: Pc, wl: Option<nat>, st: ProcState, parent: Option<nat>, maker: Option<nat>, c: Pc): State {
    State([RUNNING, st], [None, None], [None, parent], [Free, Free], [INITPID, if st == UNUSED then 0 else 2],
        [false, false], [0, 0], [pc, c], [Some(0), None], [None, maker], [Cpu(Some(0), Ran(0))], wl,
        if st == UNUSED then 2 else 3, if parent == None then map[] else map[2 := INITPID], map[], [])
  }

  lemma FirstRuns() returns (ss: seq<State>)
    ensures IsRun(ss) && ss[|ss| - 1] == Duo(User, None, UNUSED, None, None, NoThread)
  {
    var s := State([RUNNABLE, UNUSED], [None, None], [None, None], [Free, Free], [INITPID, 0], [false, false], [0, 0],
        [Off(ToUser), NoThread], [None, None], [None, None], [Cpu(None, Looking)], None, INITPID + 1, map[], map[], []);
    ss := [s];
    assert Init(s);
    var s1 := s.(st := [RUNNING, UNUSED], lock := [Thread, Free], on := [Some(0), None],
        cpus := [Cpu(Some(0), Ran(0))]);
    assert s1 == DoPick(s, 0, 0);
    ss := Extend(ss, Pick(0, 0), s1);
    var s2 := Duo(User, None, UNUSED, None, None, NoThread);
    assert s2 == DoResume(s1, 0);
    ss := Extend(ss, Resume(0), s2);
  }

  lemma ChildMade() returns (ss: seq<State>)
    ensures IsRun(ss) && ss[|ss| - 1] == Duo(User, None, RUNNABLE, Some(0), None, Off(ToUser))
  {
    ss := FirstRuns();
    var s1 := Duo(ForkedUsed(1), None, USED, None, Some(0), NoThread);
    assert s1 == DoForkAlloc(ss[|ss| - 1], 0, 1);
    ss := Extend(ss, ForkAlloc(0, 1), s1);
    var s2 := Duo(ForkedChild(1), None, USED, Some(0), Some(0), NoThread);
    assert s2 == DoForkParent(s1, 0);
    ss := Extend(ss, ForkParent(0), s2);
    var s3 := Duo(User, None, RUNNABLE, Some(0), None, Off(ToUser));
    assert s3 == DoForkRun(s2, 0);
    ss := Extend(ss, ForkRun(0), s3);
  }

  /** There are runs that come there: the first process has made a child and waits for it. */
  lemma AboutToSleep() returns (ss: seq<State>)
    ensures IsRun(ss) && CanKill(ss[|ss| - 1], INIT) && ss[|ss| - 1].pc[INIT] == WaitSleep
  {
    ss := ChildMade();
    var s1 := Duo(WaitScan(0, false), Some(0), RUNNABLE, Some(0), None, Off(ToUser));
    assert s1 == DoWaitBegin(ss[|ss| - 1], 0);
    ss := Extend(ss, WaitBegin(0), s1);
    var s2 := Duo(WaitScan(1, false), Some(0), RUNNABLE, Some(0), None, Off(ToUser));
    assert s2 == DoWaitPass(s1, 0);
    ss := Extend(ss, WaitPass(0), s2);
    var s3 := Duo(WaitScan(2, true), Some(0), RUNNABLE, Some(0), None, Off(ToUser));
    assert s3 == DoWaitPass(s2, 0);
    ss := Extend(ss, WaitPass(0), s3);
    var s4 := Duo(WaitSleep, Some(0), RUNNABLE, Some(0), None, Off(ToUser));
    assert s4 == DoWaitMore(s3, 0);
    ss := Extend(ss, WaitMore(0), s4);
  }
}
