/** sleep and wakeup (kernel/proc.c), with the hand-over of p->lock to the scheduler, as a
    machine whose steps interleave freely. One spinlock lk protects shared data; a process
    sleeps on a channel while the condition of that channel is false. */
module SleepWakeup {
  import opened Common

  type Pid = nat
  type Chan = nat

  datatype ProcState = RUNNING | RUNNABLE | SLEEPING

  /** Where the kernel thread of a process is.
      Out: not using lk. In: holding lk. Waking: in wakeup, at process i of its loop, holding lk.
      Locked: in sleep, holding lk and p->lock. Unlocked: in sleep, lk released. Asleep: in
      sched, not yet switched away from. Off: switched away from. Woken: switched to again, in
      sleep, holding p->lock. Back: p->lock released, lk not yet reacquired. */
  datatype Pc =
    Out | In | Waking(ch: Chan, i: nat) | Locked(ch: Chan) | Unlocked(ch: Chan) | Asleep | Off | Woken | Back

  /** plock says whether p->lock is held. */
  datatype Thread = Thread(st: ProcState, chan: Chan, plock: bool, pc: Pc)

  /** dirty is the channels whose condition has become true since the last wakeup on them,
      while lk was held. left is those that a process left so when it released lk. */
  datatype State<D> = State(lk: Option<Pid>, data: D, dirty: set<Chan>, left: set<Chan>, procs: seq<Thread>)

  /** Release is a release of lk after all wakeups, Leave one that may be short of some. */
  datatype Step<D> =
    | Acquire(p: Pid)
    | Release(p: Pid)
    | Leave(p: Pid)
    | Change(p: Pid, data: D, now: set<Chan>)
    | WakeBegin(p: Pid, ch: Chan)
    | WakeOne(p: Pid)
    | WakeEnd(p: Pid)
    | SleepLock(p: Pid, ch: Chan)
    | SleepRelease(p: Pid)
    | SleepMark(p: Pid)
    | Swtch(p: Pid)
    | SchedulerRelease(p: Pid)
    | Run(p: Pid)
    | Resume(p: Pid)
    | Kill(p: Pid)

  /** The condition of a channel, as a function of the shared data. */
  type Cond<!D> = (D, Chan) -> bool

  ghost predicate At<D>(s: State<D>, p: Pid, pc: Pc) { p < |s.procs| && s.procs[p].pc == pc }

  ghost function With<D>(s: State<D>, p: Pid, t: Thread): State<D>
    requires p < |s.procs|
  {
    s.(procs := s.procs[p := t])
  }

  ghost function Goto<D>(s: State<D>, p: Pid, pc: Pc): State<D>
    requires p < |s.procs|
  {
    With(s, p, s.procs[p].(pc := pc))
  }

  /** The condition changes that `now` lists are all that made a condition true. */
  ghost predicate Announces<D>(cond: Cond<D>, d: D, d': D, now: set<Chan>) {
    forall ch: Chan {:trigger cond(d', ch)} :: cond(d', ch) && !cond(d, ch) ==> ch in now
  }

  ghost predicate Enabled<D(!new)>(cond: Cond<D>, s: State<D>, a: Step<D>) {
    && a.p < |s.procs|
    && var t := s.procs[a.p];
       match a
       case Acquire(p) => (t.pc == Out || t.pc == Back) && s.lk == None
       case Release(p) => t.pc == In && s.dirty == {}
       case Leave(p) => t.pc == In
       case Change(p, d, now) => t.pc == In && Announces(cond, s.data, d, now)
       case WakeBegin(p, ch) => t.pc == In
       case WakeOne(p) => t.pc.Waking? && t.pc.i < |s.procs| && (t.pc.i == p || !s.procs[t.pc.i].plock)
       case WakeEnd(p) => t.pc.Waking? && t.pc.i == |s.procs|
       case SleepLock(p, ch) => t.pc == In && s.dirty == {} && !cond(s.data, ch) && !t.plock
       case SleepRelease(p) => t.pc.Locked?
       case SleepMark(p) => t.pc.Unlocked?
       case Swtch(p) => t.pc == Asleep
       case SchedulerRelease(p) => t.pc == Off && t.plock
       case Run(p) => t.pc == Off && !t.plock && t.st == RUNNABLE
       case Resume(p) => t.pc == Woken
       case Kill(p) => !t.plock
  }

  ghost function Wakened(t: Thread, ch: Chan): Thread {
    if t.st == SLEEPING && t.chan == ch then t.(st := RUNNABLE) else t
  }

  ghost function Take<D(!new)>(cond: Cond<D>, s: State<D>, a: Step<D>): State<D>
    requires Enabled(cond, s, a)
  {
    var t := s.procs[a.p];
    match a
    case Acquire(p) => Goto(s, p, In).(lk := Some(p))
    case Release(p) => Goto(s, p, Out).(lk := None)
    case Leave(p) => Goto(s, p, Out).(lk := None, dirty := {}, left := s.left + s.dirty)
    case Change(p, d, now) => s.(data := d, dirty := s.dirty + now)
    case WakeBegin(p, ch) => Goto(s, p, Waking(ch, 0))
    case WakeOne(p) =>
      var ch := t.pc.ch;
      var i := t.pc.i;
      Goto(With(s, i, Wakened(s.procs[i], ch)), p, Waking(ch, i + 1))
    case WakeEnd(p) => Goto(s, p, In).(dirty := s.dirty - {t.pc.ch}, left := s.left - {t.pc.ch})
    case SleepLock(p, ch) => With(s, p, t.(plock := true, pc := Locked(ch)))
    case SleepRelease(p) => Goto(s, p, Unlocked(t.pc.ch)).(lk := None)
    case SleepMark(p) => With(s, p, t.(st := SLEEPING, chan := t.pc.ch, pc := Asleep))
    case Swtch(p) => Goto(s, p, Off)
    case SchedulerRelease(p) => With(s, p, t.(plock := false))
    case Run(p) => With(s, p, t.(st := RUNNING, plock := true, pc := Woken))
    case Resume(p) => With(s, p, t.(chan := 0, plock := false, pc := Back))
    case Kill(p) => With(s, p, if t.st == SLEEPING then t.(st := RUNNABLE) else t)
  }

  // ----- the invariant -----

  ghost predicate HoldsLk(pc: Pc) { pc == In || pc.Waking? || pc.Locked? }

  /** p has decided to sleep on ch, and is asleep or will be before it looks at ch again. */
  ghost predicate Waits(t: Thread, ch: Chan) {
    t.pc == Unlocked(ch) || (t.st == SLEEPING && t.chan == ch && (t.pc == Asleep || t.pc == Off))
  }

  ghost predicate ThreadOk<D>(s: State<D>, p: Pid) {
    && p < |s.procs|
    && var t := s.procs[p];
       && (s.lk == Some(p) <==> HoldsLk(t.pc))
       && (t.pc.Locked? || t.pc.Unlocked? || t.pc == Asleep || t.pc == Woken ==> t.plock)
       && (t.pc == Out || t.pc == In || t.pc == Back || t.pc.Waking? ==> !t.plock)
       && (if t.pc == Asleep then t.st == SLEEPING else if t.pc == Off then t.st != RUNNING else t.st == RUNNING)
       && (t.pc.Waking? ==> t.pc.i <= |s.procs|)
  }

  /** A process that waits although its condition is true will still be woken, or was left so:
      the process that made it true holds lk, or has left. A process in wakeup on this channel
      has not come past this process. */
  ghost predicate NotLost<D>(cond: Cond<D>, s: State<D>, p: Pid, ch: Chan) {
    p < |s.procs| && Waits(s.procs[p], ch) && cond(s.data, ch) ==>
      && (ch in s.left || (ch in s.dirty && s.lk.Some?))
      && (s.lk.Some? && s.lk.value < |s.procs|
          && s.procs[s.lk.value].pc.Waking? && s.procs[s.lk.value].pc.ch == ch
          ==> s.procs[s.lk.value].pc.i <= p)
  }

  ghost predicate Inv<D>(cond: Cond<D>, s: State<D>) {
    && (s.lk.Some? ==> s.lk.value < |s.procs|)
    && (s.lk.None? ==> s.dirty == {})
    && (forall p: Pid {:trigger ThreadOk(s, p)} :: p < |s.procs| ==> ThreadOk(s, p))
    && (s.lk.Some? && s.procs[s.lk.value].pc.Locked? ==> s.dirty == {} && !cond(s.data, s.procs[s.lk.value].pc.ch))
    && (forall p: Pid, ch: Chan {:trigger NotLost(cond, s, p, ch)} :: NotLost(cond, s, p, ch))
  }

  lemma StepKeepsThreads<D(!new)>(cond: Cond<D>, s: State<D>, a: Step<D>, q: Pid)
    requires Inv(cond, s) && Enabled(cond, s, a) && q < |s.procs|
    ensures ThreadOk(Take(cond, s, a), q)
  {
    assert ThreadOk(s, q) && ThreadOk(s, a.p);
  }

  lemma StepLosesNone<D(!new)>(cond: Cond<D>, s: State<D>, a: Step<D>, q: Pid, ch: Chan)
    requires Inv(cond, s) && Enabled(cond, s, a)
    ensures NotLost(cond, Take(cond, s, a), q, ch)
  {
    assert NotLost(cond, s, q, ch) && ThreadOk(s, a.p);
    if q < |s.procs| { assert ThreadOk(s, q); }
  }

  lemma StepKeeps<D(!new)>(cond: Cond<D>, s: State<D>, a: Step<D>)
    requires Inv(cond, s) && Enabled(cond, s, a)
    ensures Inv(cond, Take(cond, s, a))
  {
    var s' := Take(cond, s, a);
    assert ThreadOk(s, a.p);
    if s.lk.Some? { assert ThreadOk(s, s.lk.value); }
    forall q: Pid | q < |s'.procs| ensures ThreadOk(s', q) {
      StepKeepsThreads(cond, s, a, q);
    }
    forall q: Pid, ch: Chan ensures NotLost(cond, s', q, ch) {
      StepLosesNone(cond, s, a, q, ch);
    }
  }

  // ----- runs -----

  ghost predicate Init<D>(s: State<D>) {
    && s.lk == None && s.dirty == {} && s.left == {}
    && forall p :: 0 <= p < |s.procs| ==> s.procs[p] == Thread(RUNNING, 0, false, Out)
  }

  ghost predicate Next<D(!new)>(cond: Cond<D>, s: State<D>, s': State<D>) {
    exists a: Step<D> :: Enabled(cond, s, a) && s' == Take(cond, s, a)
  }

  ghost predicate NextAt<D(!new)>(cond: Cond<D>, ss: seq<State<D>>, k: nat) {
    k + 1 < |ss| && Next(cond, ss[k], ss[k + 1])
  }

  ghost predicate IsRun<D(!new)>(cond: Cond<D>, ss: seq<State<D>>) {
    |ss| > 0 && Init(ss[0]) && forall k: nat {:trigger NextAt(cond, ss, k)} :: k + 1 < |ss| ==> NextAt(cond, ss, k)
  }

  lemma {:induction false} RunInv<D(!new)>(cond: Cond<D>, ss: seq<State<D>>, k: nat)
    requires IsRun(cond, ss) && k < |ss|
    ensures Inv(cond, ss[k])
  {
    if k == 0 {
      assert forall p: Pid :: p < |ss[0].procs| ==> ThreadOk(ss[0], p);
    } else {
      RunInv(cond, ss, k - 1);
      assert NextAt(cond, ss, k - 1);
      var a :| Enabled(cond, ss[k - 1], a) && ss[k] == Take(cond, ss[k - 1], a);
      StepKeeps(cond, ss[k - 1], a);
    }
  }

  /** Step j is a release of lk by a process that made the condition of ch true and has not
      gone through wakeup since. */
  ghost predicate LeftAt<D(!new)>(cond: Cond<D>, ss: seq<State<D>>, j: nat, ch: Chan) {
    && j + 1 < |ss| && ch in ss[j].dirty
    && exists p: Pid :: Enabled(cond, ss[j], Leave(p)) && ss[j + 1] == Take(cond, ss[j], Leave(p))
  }

  lemma {:induction false} LeftSomewhere<D(!new)>(cond: Cond<D>, ss: seq<State<D>>, k: nat, ch: Chan)
    requires IsRun(cond, ss) && k < |ss| && ch in ss[k].left
    ensures exists j: nat :: j < k && LeftAt(cond, ss, j, ch)
  {
    if k > 0 {
      assert NextAt(cond, ss, k - 1);
      var a :| Enabled(cond, ss[k - 1], a) && ss[k] == Take(cond, ss[k - 1], a);
      if ch in ss[k - 1].left {
        LeftSomewhere(cond, ss, k - 1, ch);
      } else {
        assert a == Leave(a.p);
        assert LeftAt(cond, ss, k - 1, ch);
      }
    }
  }

  /** No lost wakeup: whenever lk is free and a process sleeps on a channel whose condition is
      true, some process has released lk, short of its wakeup on that channel. */
  lemma NoLostWakeup<D(!new)>(cond: Cond<D>, ss: seq<State<D>>, k: nat, p: Pid)
    requires IsRun(cond, ss) && k < |ss| && ss[k].lk == None && p < |ss[k].procs| && ss[k].procs[p].st == SLEEPING
    ensures cond(ss[k].data, ss[k].procs[p].chan)
            ==> exists j: nat :: j < k && LeftAt(cond, ss, j, ss[k].procs[p].chan)
  {
    RunInv(cond, ss, k);
    assert ThreadOk(ss[k], p) && NotLost(cond, ss[k], p, ss[k].procs[p].chan);
    if cond(ss[k].data, ss[k].procs[p].chan) { LeftSomewhere(cond, ss, k, ss[k].procs[p].chan); }
  }

  /** At most one process holds lk, and the code between acquire and release is all under it. */
  lemma OneHolder<D(!new)>(cond: Cond<D>, ss: seq<State<D>>, k: nat, p: Pid, q: Pid)
    requires IsRun(cond, ss) && k < |ss| && p < |ss[k].procs| && q < |ss[k].procs|
    requires HoldsLk(ss[k].procs[p].pc) && HoldsLk(ss[k].procs[q].pc)
    ensures p == q && ss[k].lk == Some(p)
  {
    RunInv(cond, ss, k);
    assert ThreadOk(ss[k], p) && ThreadOk(ss[k], q);
  }
}
