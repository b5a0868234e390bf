/** Sleep locks (kernel/sleeplock.c), on top of sleep and wakeup. */
module SleepLocks {
  import opened Common
  import opened SleepWakeup

  /** struct sleeplock, without its spinlock. */
  datatype Lock = Lock(locked: bool, pid: nat)

  const CHAN: Chan := 1

  /** acquiresleep waits for the lock to be free. */
  ghost function Free(): Cond<Lock> { (d: Lock, ch: Chan) => ch == CHAN && !d.locked }

  /** What a process does with the sleep lock. Acquiring, Taken: in acquiresleep, before and
      after locked is set. Held: between the calls. Releasing, Dropped, Woke: in releasesleep,
      before locked is cleared, after that, and after wakeup. */
  datatype User = Idle | Acquiring | Taken | Held | Releasing | Dropped | Woke

  datatype System = System(m: State<Lock>, users: seq<User>)

  datatype Event = Call(p: Pid) | Do(a: Step<Lock>)

  /** acquiresleep and releasesleep allow process a.p to take step a. */
  ghost predicate Allows(s: State<Lock>, u: User, a: Step<Lock>) {
    match a
    case Acquire(p) => u == Acquiring || u == Releasing
    case Release(p) => u == Taken || u == Woke
    case Leave(p) => false
    case Change(p, d, now) =>
      || (u == Acquiring && !s.data.locked && d == Lock(true, p) && now == {})
      || (u == Releasing && d == Lock(false, 0) && now == {CHAN})
    case WakeBegin(p, ch) => u == Dropped && ch == CHAN
    case SleepLock(p, ch) => u == Acquiring && s.data.locked && ch == CHAN
    case _ => true
  }

  ghost function After(u: User, a: Step<Lock>): User {
    match a
    case Release(p) => if u == Taken then Held else Idle
    case Change(p, d, now) => if u == Acquiring then Taken else Dropped
    case WakeEnd(p) => Woke
    case _ => u
  }

  ghost predicate Enabled(s: System, e: Event) {
    |s.users| == |s.m.procs| &&
    match e
    case Call(p) => p < |s.users| && (s.users[p] == Idle || s.users[p] == Held)
    case Do(a) => a.p < |s.users| && SleepWakeup.Enabled(Free(), s.m, a) && Allows(s.m, s.users[a.p], a)
  }

  ghost function Take(s: System, e: Event): System
    requires Enabled(s, e)
  {
    match e
    case Call(p) => s.(users := s.users[p := if s.users[p] == Idle then Acquiring else Releasing])
    case Do(a) => System(SleepWakeup.Take(Free(), s.m, a), s.users[a.p := After(s.users[a.p], a)])
  }

  /** The process is between setting locked and clearing it. */
  ghost predicate Owns(u: User) { u == Taken || u == Held || u == Releasing }

  ghost predicate InSleep(pc: Pc) {
    pc.Locked? || pc.Unlocked? || pc == Asleep || pc == Off || pc == Woken || pc == Back
  }

  ghost predicate UserOk(s: System, p: Pid) {
    && p < |s.users| && p < |s.m.procs|
    && (Owns(s.users[p]) <==> s.m.data == Lock(true, p))
    && (s.m.procs[p].pc != Out ==> s.users[p] != Idle && s.users[p] != Held)
    && (s.users[p] == Taken || s.users[p] == Woke ==> s.m.procs[p].pc == In)
    && (s.users[p] == Dropped ==> s.m.procs[p].pc == In || s.m.procs[p].pc.Waking?)
    && (InSleep(s.m.procs[p].pc) ==> s.users[p] == Acquiring)
    && (s.m.procs[p].pc.Waking? ==> s.users[p] == Dropped && s.m.procs[p].pc.ch == CHAN)
    && (s.m.lk == Some(p) ==> s.m.dirty <= if s.users[p] == Dropped then {CHAN} else {})
  }

  ghost predicate Inv(s: System) {
    && |s.users| == |s.m.procs| && SleepWakeup.Inv(Free(), s.m) && s.m.left == {}
    && (s.m.data.locked ==> s.m.data.pid < |s.users|)
    && forall p: Pid {:trigger UserOk(s, p)} :: p < |s.users| ==> UserOk(s, p)
  }

  lemma OwnStepKeeps(s: System, a: Step<Lock>)
    requires Inv(s) && Enabled(s, Do(a))
    ensures UserOk(Take(s, Do(a)), a.p)
  {
    assert UserOk(s, a.p) && ThreadOk(s.m, a.p);
  }

  lemma OtherStepKeeps(s: System, a: Step<Lock>, q: Pid)
    requires Inv(s) && Enabled(s, Do(a)) && q < |s.users| && q != a.p
    ensures UserOk(Take(s, Do(a)), q)
  {
    assert UserOk(s, q) && ThreadOk(s.m, q) && UserOk(s, a.p) && ThreadOk(s.m, a.p);
  }

  lemma StepKeeps(s: System, e: Event)
    requires Inv(s) && Enabled(s, e)
    ensures Inv(Take(s, e))
  {
    forall q: Pid | q < |s.users| ensures UserOk(Take(s, e), q) {
      assert UserOk(s, q);
      match e {
        case Call(p) =>
        case Do(a) => if q == a.p { OwnStepKeeps(s, a); } else { OtherStepKeeps(s, a, q); }
      }
    }
    if e.Do? { SleepWakeup.StepKeeps(Free(), s.m, e.a); }
  }

  /** The rules of sleep and wakeup never keep acquiresleep and releasesleep from going on:
      every condition that becomes true is announced before the spinlock is released. */
  lemma GuardsHold(s: System, p: Pid)
    requires Inv(s) && p < |s.users|
    ensures s.users[p] == Taken || s.users[p] == Woke ==> s.m.dirty == {}
    ensures s.users[p] == Acquiring && s.m.procs[p].pc == In && s.m.data.locked ==>
        s.m.dirty == {} && !Free()(s.m.data, CHAN) && !s.m.procs[p].plock
    ensures s.users[p] == Acquiring && s.m.procs[p].pc == In && !s.m.data.locked
        ==> Announces(Free(), s.m.data, Lock(true, p), {})
    ensures s.users[p] == Releasing ==> Announces(Free(), s.m.data, Lock(false, 0), {CHAN})
  {
    assert UserOk(s, p) && ThreadOk(s.m, p);
  }

  // ----- runs -----

  ghost predicate Init(s: System) {
    SleepWakeup.Init(s.m) && !s.m.data.locked && |s.users| == |s.m.procs| && forall p :: 0 <= p < |s.users| ==>
        s.users[p] == Idle
  }

  ghost predicate Next(s: System, s': System) { exists e: Event :: Enabled(s, e) && s' == Take(s, e) }

  ghost predicate NextAt(ss: seq<System>, k: nat) { k + 1 < |ss| && Next(ss[k], ss[k + 1]) }

  ghost predicate IsRun(ss: seq<System>) {
    |ss| > 0 && Init(ss[0]) && forall k: nat {:trigger NextAt(ss, k)} :: k + 1 < |ss| ==> NextAt(ss, k)
  }

  lemma {:induction false} RunInv(ss: seq<System>, k: nat)
    requires IsRun(ss) && k < |ss|
    ensures Inv(ss[k])
  {
    if k == 0 {
      assert forall p: Pid :: p < |ss[0].users| ==> ThreadOk(ss[0].m, p) && UserOk(ss[0], p);
    } else {
      RunInv(ss, k - 1);
      assert NextAt(ss, k - 1);
      var e :| Enabled(ss[k - 1], e) && ss[k] == Take(ss[k - 1], e);
      StepKeeps(ss[k - 1], e);
    }
  }

  /** A sleep lock has at most one owner. */
  lemma MutualExclusion(ss: seq<System>, k: nat, p: Pid, q: Pid)
    requires IsRun(ss) && k < |ss| && p < |ss[k].users| && q < |ss[k].users| && Owns(ss[k].users[p])
        && Owns(ss[k].users[q])
    ensures p == q
  {
    RunInv(ss, k);
    assert UserOk(ss[k], p) && UserOk(ss[k], q);
  }

  /** holdingsleep tells a process exactly whether it owns the lock. */
  lemma HoldingSleep(ss: seq<System>, k: nat, p: Pid)
    requires IsRun(ss) && k < |ss| && p < |ss[k].users|
    ensures Owns(ss[k].users[p]) <==> ss[k].m.data.locked && ss[k].m.data.pid == p
  {
    RunInv(ss, k);
    assert UserOk(ss[k], p);
  }

  /** No process is left asleep on a sleep lock that is free. */
  lemma NoSleeperOnFreeLock(ss: seq<System>, k: nat, p: Pid)
    requires IsRun(ss) && k < |ss| && p < |ss[k].users| && p < |ss[k].m.procs| && ss[k].m.lk == None
    requires ss[k].m.procs[p].st == SLEEPING && ss[k].m.procs[p].chan == CHAN
    ensures ss[k].m.data.locked && exists q: Pid :: q < |ss[k].users| && q != p && Owns(ss[k].users[q])
  {
    RunInv(ss, k);
    var s := ss[k];
    assert ThreadOk(s.m, p) && NotLost(Free(), s.m, p, CHAN) && UserOk(s, p);
    var q := s.m.data.pid;
    assert UserOk(s, q);
    assert q != p;
  }
}
