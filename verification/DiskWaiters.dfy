/** The processes that wait for the disk (kernel/virtio_disk.c), on top of sleep and wakeup: for
    three free descriptors, and for their request to finish. */
module DiskWaiters {
  import opened Common
  import opened SleepWakeup

  const NUM: nat := 8

  /** The free descriptors, and the buffers with b->disk == 1. */
  datatype Disk = Disk(free: set<nat>, busy: set<nat>)

  /** The channel &disk.free[0], and that of buffer b. */
  const FREE: Chan := 1

  function Buffer(b: nat): Chan { b + 2 }

  ghost function Ready(): Cond<Disk> {
    (d: Disk, ch: Chan) => IsReady(d, ch)
  }

  ghost predicate IsReady(d: Disk, ch: Chan) {
    if ch == FREE then |d.free| >= 3 else ch >= 2 && ch - 2 !in d.busy
  }

  /** What a process does with the disk.
      Want: in virtio_disk_rw for buffer b, without descriptors. Flight: with the descriptors ds,
      waiting for the device. Freeing: the first k of them are free again. Freed: as Freeing,
      with the wakeup of free_desc still to come. Intr: in virtio_disk_intr. Finished: there,
      buffer b is no longer busy and must be woken for. Done: all is left but release. */
  datatype User =
    | Idle
    | Want(b: nat)
    | Flight(b: nat, ds: seq<nat>)
    | Freeing(b: nat, ds: seq<nat>, k: nat)
    | Freed(b: nat, ds: seq<nat>, k: nat)
    | Intr
    | Finished(b: nat)
    | Done

  datatype System = System(m: State<Disk>, users: seq<User>)

  datatype Event = Call(p: Pid, u: User) | Turn(p: Pid, u: User) | Do(a: Step<Disk>)

  /** The descriptors that a process has. */
  ghost function Held(u: User): set<nat> {
    if u.Flight? then set i | 0 <= i < |u.ds| :: u.ds[i]
    else if u.Freeing? || u.Freed? then set i | u.k <= i < |u.ds| :: u.ds[i]
    else {}
  }

  ghost predicate Taken(d: Disk, ds: seq<nat>) {
    |ds| == 3 && ds[0] != ds[1] && ds[1] != ds[2] && ds[0] != ds[2] && forall i :: 0 <= i < 3 ==> ds[i] in d.free
  }

  /** virtio_disk_rw and virtio_disk_intr allow process a.p to take step a, after which it goes on
      as u'. A failed alloc3_desc gives back what it took, with a wakeup for each. */
  ghost predicate Allows(s: State<Disk>, u: User, a: Step<Disk>, u': User) {
    match a
    case Acquire(p) => (u.Want? || u.Flight? || u.Intr?) && u' == u
    case Release(p) => u.Done? && u' == Idle
    case Leave(p) => false
    case Change(p, d, now) =>
      || (u.Want? && u'.Flight? && u'.b == u.b && Taken(s.data, u'.ds) && now == {}
          && d == Disk(s.data.free - Held(u'), s.data.busy + {u.b}))
      || (u.Freeing? && u.k < |u.ds| && d == s.data.(free := s.data.free + {u.ds[u.k]}) && now == {FREE}
          && u' == Freed(u.b, u.ds, u.k + 1))
      || (u.Intr? && u'.Finished? && u'.b in s.data.busy && d == s.data.(busy := s.data.busy - {u'.b})
          && now == {Buffer(u'.b)})
    case WakeBegin(p, ch) =>
      && u' == u
      && ((ch == FREE && (u.Freed? || (u.Want? && |s.data.free| < 3))) || (u.Finished? && ch == Buffer(u.b)))
    case WakeEnd(p) => u' == if u.Freed? then Freeing(u.b, u.ds, u.k) else if u.Finished? then Intr else u
    case SleepLock(p, ch) =>
      && u' == u
      && ((u.Want? && ch == FREE && |s.data.free| < 3)
          || (u.Flight? && ch == Buffer(u.b) && u.b in s.data.busy))
    case _ => u' == u
  }

  /** The choices of the code while it holds the lock. */
  ghost predicate Turns(s: State<Disk>, pc: Pc, u: User, u': User) {
    && pc == In
    && (|| (u.Flight? && u.b !in s.data.busy && u' == Freeing(u.b, u.ds, 0))
        || (u.Freeing? && u.k >= |u.ds| && u' == Done)
        || (u.Intr? && u' == Done))
  }

  ghost predicate Steps(s: System, e: Event, s': System) {
    && |s.users| == |s.m.procs|
    && match e
       case Call(p, u) =>
         p < |s.users| && s.users[p] == Idle && (u.Want? || u.Intr?) && s' == s.(users := s.users[p := u])
       case Turn(p, u) =>
         p < |s.users| && Turns(s.m, s.m.procs[p].pc, s.users[p], u) && s' == s.(users := s.users[p := u])
       case Do(a) =>
         && a.p < |s.users| && a.p < |s'.users| && Enabled(Ready(), s.m, a)
         && s'.m == Take(Ready(), s.m, a) && s'.users == s.users[a.p := s'.users[a.p]]
         && Allows(s.m, s.users[a.p], a, s'.users[a.p])
  }

  // ----- the invariant -----

  /** What a process has still to announce. */
  ghost function Owed(u: User): set<Chan> {
    if u.Freed? then {FREE} else if u.Finished? then {Buffer(u.b)} else {}
  }

  ghost predicate InSleep(pc: Pc) {
    pc.Locked? || pc.Unlocked? || pc == Asleep || pc == Off || pc == Woken || pc == Back
  }

  ghost predicate UserOk(s: System, p: Pid) {
    && p < |s.users| && p < |s.m.procs|
    && var u := s.users[p];
       var pc := s.m.procs[p].pc;
       && (pc == Out ==> u.Idle? || u.Want? || u.Intr?) && (u.Idle? ==> pc == Out)
       && (InSleep(pc) ==> u.Want? || u.Flight?)
       && (pc.Waking? ==> (pc.ch == FREE && (u.Freed? || u.Want?)) || (u.Finished? && pc.ch == Buffer(u.b)))
       && (s.m.lk == Some(p) ==> s.m.dirty <= Owed(u))
  }

  /** Descriptor i is free or some process has it. */
  ghost predicate Kept(s: System, i: nat) {
    i in s.m.data.free || exists p: Pid :: p < |s.users| && i in Held(s.users[p])
  }

  ghost predicate Inv(s: System) {
    && |s.users| == |s.m.procs| && SleepWakeup.Inv(Ready(), s.m) && s.m.left == {}
    && (forall p: Pid {:trigger UserOk(s, p)} :: p < |s.users| ==> UserOk(s, p))
    && (forall i: nat {:trigger Kept(s, i)} :: i < NUM ==> Kept(s, i))
  }

  lemma OwnStepKeeps(s: System, a: Step<Disk>, s': System)
    requires Inv(s) && Steps(s, Do(a), s')
    ensures UserOk(s', a.p)
  {
    assert UserOk(s, a.p) && ThreadOk(s.m, a.p);
  }

  lemma OtherStepKeeps(s: System, a: Step<Disk>, s': System, q: Pid)
    requires Inv(s) && Steps(s, Do(a), s') && q < |s.users| && q != a.p
    ensures UserOk(s', q)
  {
    assert UserOk(s, q) && ThreadOk(s.m, q) && UserOk(s, a.p) && ThreadOk(s.m, a.p);
  }

  lemma TurnKeeps(s: System, e: Event, s': System, q: Pid)
    requires Inv(s) && Steps(s, e, s') && !e.Do? && q < |s.users|
    ensures UserOk(s', q)
  {
    assert UserOk(s, q) && ThreadOk(s.m, q) && UserOk(s, e.p);
  }

  /** What process p had of the descriptors it still has, or it is free. */
  lemma HeldStays(s: System, e: Event, s': System, p: Pid, i: nat)
    requires Steps(s, e, s') && p < |s.users| && i in Held(s.users[p])
    ensures p < |s'.users| && (i in Held(s'.users[p]) || i in s'.m.data.free)
  {
  }

  lemma FreeStays(s: System, e: Event, s': System, i: nat)
    requires Steps(s, e, s') && i in s.m.data.free
    ensures i in s'.m.data.free || (e.Do? && e.a.p < |s'.users| && i in Held(s'.users[e.a.p]))
  {
  }

  lemma KeptStays(s: System, e: Event, s': System, i: nat)
    requires Steps(s, e, s') && Kept(s, i)
    ensures Kept(s', i)
  {
    if i in s.m.data.free {
      FreeStays(s, e, s', i);
    } else {
      var p: Pid :| p < |s.users| && i in Held(s.users[p]);
      HeldStays(s, e, s', p, i);
    }
  }

  lemma StepKeeps(s: System, e: Event, s': System)
    requires Inv(s) && Steps(s, e, s')
    ensures Inv(s')
  {
    forall q: Pid | q < |s'.users| ensures UserOk(s', q) {
      if !e.Do? {
        TurnKeeps(s, e, s', q);
      } else if q == e.a.p {
        OwnStepKeeps(s, e.a, s');
      } else {
        OtherStepKeeps(s, e.a, s', q);
      }
    }
    forall i: nat | i < NUM ensures Kept(s', i) {
      assert Kept(s, i);
      KeptStays(s, e, s', i);
    }
    if e.Do? { SleepWakeup.StepKeeps(Ready(), s.m, e.a); }
  }

  /** The rules of sleep and wakeup keep no process from going on: free_desc and the interrupt
      handler announce what they have changed before they go on. */
  lemma GuardsHold(s: System, p: Pid)
    requires Inv(s) && p < |s.users| && s.m.procs[p].pc == In
    ensures var u := s.users[p];
            && (u.Done? || u.Want? || u.Flight? ==> s.m.dirty == {}) && !s.m.procs[p].plock
            && (u.Want? && |s.m.data.free| < 3 ==> !Ready()(s.m.data, FREE))
            && (u.Flight? && u.b in s.m.data.busy ==> !Ready()(s.m.data, Buffer(u.b)))
  {
    assert UserOk(s, p) && ThreadOk(s.m, p);
  }

  /** Each change can make true only the condition that it announces. */
  lemma ChangesAnnounced(d: Disk, ds: set<nat>, i: nat, b: nat)
    ensures Announces(Ready(), d, Disk(d.free - ds, d.busy + {b}), {})
    ensures Announces(Ready(), d, d.(free := d.free + {i}), {FREE})
    ensures Announces(Ready(), d, d.(busy := d.busy - {b}), {Buffer(b)})
  {
    assert d.free == (d.free - ds) + (d.free * ds);
  }

  // ----- runs -----

  ghost predicate Init(s: System) {
    && SleepWakeup.Init(s.m) && s.m.data.busy == {} && (forall i: nat :: i in s.m.data.free <==> i < NUM)
    && |s.users| == |s.m.procs| && forall p :: 0 <= p < |s.users| ==> s.users[p] == Idle
  }

  ghost predicate Next(s: System, s': System) { exists e: Event :: Steps(s, e, s') }

  ghost predicate StepAt(ss: seq<System>, k: nat) { k + 1 < |ss| && Next(ss[k], ss[k + 1]) }

  ghost predicate IsRun(ss: seq<System>) {
    |ss| > 0 && Init(ss[0]) && forall k: nat {:trigger StepAt(ss, k)} :: k + 1 < |ss| ==> StepAt(ss, k)
  }

  lemma {:induction false} RunInv(ss: seq<System>, k: nat)
    requires IsRun(ss) && k < |ss|
    ensures Inv(ss[k])
  {
    if k == 0 {
      assert forall p: Pid :: p < |ss[0].users| ==> ThreadOk(ss[0].m, p) && UserOk(ss[0], p);
    } else {
      RunInv(ss, k - 1);
      assert StepAt(ss, k - 1);
      var e :| Steps(ss[k - 1], e, ss[k]);
      StepKeeps(ss[k - 1], e, ss[k]);
    }
  }

  /** Whenever the lock is free, a process sleeps for descriptors only while fewer than three are
      free, and then some process has others; it sleeps for its request only while the device
      has not finished it. */
  lemma WaitersWait(ss: seq<System>, k: nat, p: Pid, b: nat)
    requires IsRun(ss) && k < |ss| && p < |ss[k].m.procs| && ss[k].m.lk == None && ss[k].m.procs[p].st == SLEEPING
    ensures ss[k].m.procs[p].chan == FREE ==>
        |ss[k].m.data.free| < 3 && exists q: Pid :: q < |ss[k].users| && Held(ss[k].users[q]) != {}
    ensures ss[k].m.procs[p].chan == Buffer(b) ==> b in ss[k].m.data.busy
  {
    RunInv(ss, k);
    var s := ss[k];
    assert ThreadOk(s.m, p) && NotLost(Ready(), s.m, p, s.m.procs[p].chan);
    if |s.m.data.free| < 3 {
      var i := SomeTaken(s.m.data.free);
      assert Kept(s, i);
    }
  }

  /** Fewer than three of eight leave one. */
  lemma SomeTaken(free: set<nat>) returns (i: nat)
    requires |free| < 3
    ensures i < NUM && i !in free
  {
    if forall j: nat :: j < 3 ==> j in free {
      assert |{0, 1, 2}| <= |free| by { assert {0, 1, 2} <= free; Smaller({0, 1, 2}, free); }
      assert false;
    }
    i :| i < 3 && i !in free;
  }

  lemma Smaller(a: set<nat>, b: set<nat>)
    requires a <= b
    ensures |a| <= |b|
  {
    assert b == a + (b - a);
  }
}
