/** Many readers, writers and closers of one pipe (kernel/pipe.c), on top of sleep and wakeup. */
module Pipes {
  import opened Common
  import opened SleepWakeup
  import opened PipeBuffer

  /** The channels &pi->nread, for readers, and &pi->nwrite, for writers. */
  const NREAD: Chan := 1
  const NWRITE: Chan := 2

  ghost function Ready(): Cond<Pipe> {
    (d: Pipe, ch: Chan) => IsReady(d, ch)
  }

  ghost predicate IsReady(d: Pipe, ch: Chan) {
    (ch == NREAD && !(Empty(d) && d.writeopen)) || (ch == NWRITE && !(Full(d) && d.readopen))
  }

  /** A call of pipewrite that has put in i bytes of n. The bytes of src can be read. */
  datatype Writing = Writing(src: seq<byte>, n: nat, i: nat)

  /** A call of piperead for n bytes, of which the first room can be stored. From byte number
      start of the pipe on it has stored dst, and lost one byte if it could not store it. */
  datatype Reading = Reading(n: nat, room: nat, start: nat, dst: seq<byte>, lost: seq<byte>)

  /** What a process does with the pipe.
      Write: in the loop of pipewrite. WriteFull: in wakeup before sleeping on a full pipe,
      WriteSleep: after that. WriteEnd: after the loop. Read: waiting for data. Copy: in the
      copying loop of piperead. ReadEnd: after it. Close: in pipeclose. CloseEnd: a side was
      closed and its waiters on ch must be woken. WriteDone, ReadDone, CloseDone: all is left
      but release. WriteQuit, ReadQuit: has returned -1. */
  datatype User =
    | Idle
    | Write(w: Writing)
    | WriteFull(w: Writing)
    | WriteSleep(w: Writing)
    | WriteEnd(w: Writing)
    | WriteDone(w: Writing)
    | WriteQuit(w: Writing)
    | Read(n: nat, room: nat)
    | Copy(r: Reading)
    | ReadEnd(r: Reading)
    | ReadDone(r: Reading)
    | ReadQuit
    | Close(writable: bool)
    | CloseEnd(ch: Chan)
    | CloseDone

  /** Besides the processes, calls lists all calls so far, each as it is or as it ended, and
      cur has the number of each process's latest call. putBy and gotBy tell for every byte
      that went in or came out which call did it. */
  datatype System = System(m: State<Pipe>, users: seq<User>, cur: seq<nat>, calls: seq<User>, putBy: seq<nat>,
      gotBy: seq<nat>)

  /** Step is a step of sleep and wakeup. Call starts an operation. Turn is a choice of the
      code that changes only where the process is. */
  datatype Event = Call(p: Pid, u: User) | Turn(p: Pid, u: User) | Do(a: Step<Pipe>)

  /** pipewrite, piperead and pipeclose allow process a.p to take step a. A writer gives up
      when the read side is closed, or when it is killed, whatever it has announced; a killed
      reader gives up too. */
  ghost predicate Allows(s: State<Pipe>, u: User, a: Step<Pipe>) {
    match a
    case Acquire(p) => u.Write? || u.Read? || u.Close?
    case Release(p) => Finished(u) || (u.Read? && Empty(s.data) && s.data.writeopen)
    case Leave(p) => u.Write? && u.w.i < u.w.n
    case Change(p, d, now) =>
      || (u.Write? && u.w.i < u.w.n && s.data.readopen && !Full(s.data) && u.w.i < |u.w.src|
          && |s.data.data| == PIPESIZE && d == Put(s.data, u.w.src[u.w.i]) && now == {NREAD})
      || (u.Copy? && |u.r.dst| < u.r.n && u.r.lost == [] && !Empty(s.data) && |s.data.data| == PIPESIZE
          && d == Get(s.data) && now == {NWRITE})
      || (u.Close? && u.writable && d == s.data.(writeopen := false) && now == {NREAD})
      || (u.Close? && !u.writable && d == s.data.(readopen := false) && now == {NWRITE})
    case WakeBegin(p, ch) =>
      || (u.WriteFull? && ch == NREAD) || (u.WriteEnd? && ch == NREAD) || (u.ReadEnd? && ch == NWRITE)
          || (u.CloseEnd? && ch == u.ch)
    case SleepLock(p, ch) =>
      || (u.WriteSleep? && ch == NWRITE) || (u.Read? && ch == NREAD && Empty(s.data) && s.data.writeopen)
    case _ => true
  }

  ghost predicate Finished(u: User) { u.WriteDone? || u.ReadDone? || u.CloseDone? }

  /** One more byte out of the pipe: copyout stores it if it can. */
  ghost function Stored(r: Reading, b: byte): Reading {
    if |r.dst| < r.room then r.(dst := r.dst + [b]) else r.(lost := [b])
  }

  /** Where a call is after a step. */
  ghost function After(s: State<Pipe>, u: User, a: Step<Pipe>): User
    requires Allows(s, u, a)
  {
    match a
    case Release(p) => if u.Read? then ReadQuit else u
    case Leave(p) => WriteQuit(u.w)
    case Change(p, d, now) =>
      if u.Write? then Write(u.w.(i := u.w.i + 1)) else if u.Copy? then Copy(Stored(u.r, NextOut(s.data)))
      else CloseEnd(if u.writable then NREAD else NWRITE)
    case WakeEnd(p) =>
      if u.WriteFull? then WriteSleep(u.w) else if u.WriteEnd? then WriteDone(u.w)
      else if u.ReadEnd? then ReadDone(u.r) else CloseDone
    case SleepLock(p, ch) => if u.WriteSleep? then Write(u.w) else u
    case _ => u
  }

  /** The choices of the code while it holds the lock. */
  ghost predicate Turns(s: State<Pipe>, pc: Pc, u: User, u': User) {
    && pc == In
    && (|| (u.Write? && u.w.i < u.w.n && s.data.readopen && Full(s.data) && u' == WriteFull(u.w))
        || (u.Write? && (u.w.i >= u.w.n || (s.data.readopen && !Full(s.data) && u.w.i >= |u.w.src|))
            && u' == WriteEnd(u.w))
        || (u.Read? && !(Empty(s.data) && s.data.writeopen)
            && u' == Copy(Reading(u.n, u.room, |s.data.got|, [], [])))
        || (u.Copy? && (|u.r.dst| >= u.r.n || Empty(s.data) || u.r.lost != []) && u' == ReadEnd(u.r)))
  }

  ghost predicate Starts(u: User) { (u.Write? && u.w.i == 0) || u.Read? || u.Close? }

  ghost predicate Enabled(s: System, e: Event) {
    |s.users| == |s.m.procs| == |s.cur| &&
    match e
    case Call(p, u) => p < |s.users| && s.users[p] == Idle && Starts(u)
    case Turn(p, u) => p < |s.users| && Turns(s.m, s.m.procs[p].pc, s.users[p], u)
    case Do(a) => a.p < |s.users| && SleepWakeup.Enabled(Ready(), s.m, a) && Allows(s.m, s.users[a.p], a)
  }

  ghost function Noted(calls: seq<User>, c: nat, u: User): seq<User> {
    if u.Idle? || c >= |calls| then calls else calls[c := u]
  }

  ghost predicate Puts(u: User, a: Step<Pipe>) { a.Change? && u.Write? }
  ghost predicate Gets(u: User, a: Step<Pipe>) { a.Change? && u.Copy? }

  ghost function Take(s: System, e: Event): System
    requires Enabled(s, e)
  {
    match e
    case Call(p, u) => s.(users := s.users[p := u], cur := s.cur[p := |s.calls|], calls := s.calls + [u])
    case Turn(p, u) => s.(users := s.users[p := u], calls := Noted(s.calls, s.cur[p], u))
    case Do(a) =>
      var u := s.users[a.p];
      var u' := After(s.m, u, a);
      System(SleepWakeup.Take(Ready(), s.m, a), s.users[a.p := if a.Release? || a.Leave? then Idle else u'], s.cur,
          Noted(s.calls, s.cur[a.p], u'), if Puts(u, a) then s.putBy + [s.cur[a.p]] else s.putBy,
          if Gets(u, a) then s.gotBy + [s.cur[a.p]] else s.gotBy)
  }

  // ----- the invariant -----

  /** The conditions that may have become true while p held the lock, and that it has still
      to announce. */
  ghost function Owed(u: User): set<Chan> {
    if u.Write? || u.WriteFull? || u.WriteEnd? then {NREAD} else if u.Copy? || u.ReadEnd? then {NWRITE}
        else if u.CloseEnd? then {u.ch} else {}
  }

  ghost predicate InSleep(pc: Pc) {
    pc.Locked? || pc.Unlocked? || pc == Asleep || pc == Off || pc == Woken || pc == Back
  }

  ghost predicate UserOk(s: System, p: Pid) {
    && p < |s.users| && p < |s.m.procs|
    && var u := s.users[p];
       var pc := s.m.procs[p].pc;
       && (pc == Out ==> u.Idle? || u.Write? || u.Read? || u.Close?)
       && (u.Idle? ==> pc == Out)
       && (InSleep(pc) ==> u.Write? || u.Read?)
       && (pc.Waking? ==>
          || (pc.ch == NREAD && (u.WriteFull? || u.WriteEnd?)) || (pc.ch == NWRITE && u.ReadEnd?)
          || (u.CloseEnd? && pc.ch == u.ch))
       && (s.m.lk == Some(p) ==> s.m.dirty <= Owed(u))
       && (s.m.lk == Some(p) && (u.Write? || u.WriteFull? || u.WriteEnd?) && s.m.dirty != {}
           ==> s.m.data.readopen || u.WriteEnd?)
       && (s.m.lk == Some(p) && u.Write? && NREAD in s.m.dirty ==> !Empty(s.m.data))
       && (u.WriteFull? || u.WriteSleep? ==> s.m.data.readopen && Full(s.m.data))
  }

  ghost predicate Inv(s: System) {
    && |s.users| == |s.m.procs| == |s.cur| && SleepWakeup.Inv(Ready(), s.m) && Fifo(s.m.data) && s.m.left <= {NREAD}
    && forall p: Pid {:trigger UserOk(s, p)} :: p < |s.users| ==> UserOk(s, p)
  }

  lemma OwnStepKeeps(s: System, a: Step<Pipe>)
    requires Inv(s) && Enabled(s, Do(a))
    ensures UserOk(Take(s, Do(a)), a.p)
  {
    assert UserOk(s, a.p) && ThreadOk(s.m, a.p);
    if a.Change? && s.users[a.p].Write? {
      PutKeeps(s.m.data, s.users[a.p].w.src[s.users[a.p].w.i]);
      CountersTell(a.data);
    }
  }

  lemma OtherStepKeeps(s: System, a: Step<Pipe>, q: Pid)
    requires Inv(s) && Enabled(s, Do(a)) && q < |s.users| && q != a.p
    ensures UserOk(Take(s, Do(a)), q)
  {
    assert UserOk(s, q) && ThreadOk(s.m, q) && UserOk(s, a.p) && ThreadOk(s.m, a.p);
  }

  lemma StepKeepsFifo(s: System, e: Event)
    requires Inv(s) && Enabled(s, e)
    ensures Fifo(Take(s, e).m.data) && s.m.data.put <= Take(s, e).m.data.put && s.m.data.got <= Take(s, e).m.data.got
  {
    if e.Do? && e.a.Change? {
      var u := s.users[e.a.p];
      if u.Write? { PutKeeps(s.m.data, u.w.src[u.w.i]); } else if u.Copy? { GetKeeps(s.m.data); }
      else { assert forall k: nat :: Slot(s.m.data, k) ==> Slot(e.a.data, k); }
    }
  }

  lemma StepKeeps(s: System, e: Event)
    requires Inv(s) && Enabled(s, e)
    ensures Inv(Take(s, e))
  {
    StepKeepsFifo(s, e);
    forall q: Pid | q < |s.users| ensures UserOk(Take(s, e), q) {
      assert UserOk(s, q) && ThreadOk(s.m, q);
      match e {
        case Call(p, u) =>
        case Turn(p, u) => assert UserOk(s, p) && ThreadOk(s.m, p);
        case Do(a) => if q == a.p { OwnStepKeeps(s, a); } else { OtherStepKeeps(s, a, q); }
      }
    }
    if e.Do? {
      SleepWakeup.StepKeeps(Ready(), s.m, e.a);
      assert UserOk(s, e.a.p) && ThreadOk(s.m, e.a.p);
    }
  }

  /** The rules of sleep and wakeup keep no process from going on: pipewrite, piperead and
      pipeclose announce what they have changed before they release the lock or sleep. A
      writer that gives up because the read side is closed has nothing to announce. */
  lemma GuardsHold(s: System, p: Pid)
    requires Inv(s) && p < |s.users| && s.m.procs[p].pc == In
    ensures var u := s.users[p];
            && (Finished(u) || u.WriteSleep? || u.Read? || (u.Write? && !s.m.data.readopen) ==> s.m.dirty == {})
            && (u.WriteSleep? ==> !Ready()(s.m.data, NWRITE))
            && (u.Read? && Empty(s.m.data) && s.m.data.writeopen ==> !Ready()(s.m.data, NREAD))
            && !s.m.procs[p].plock
  {
    assert UserOk(s, p) && ThreadOk(s.m, p);
  }

  /** Each change can make true only the condition that it announces. */
  lemma ChangesAnnounced(d: Pipe, b: byte)
    requires Fifo(d)
    ensures !Full(d) ==> Announces(Ready(), d, Put(d, b), {NREAD})
    ensures !Empty(d) ==> Announces(Ready(), d, Get(d), {NWRITE})
    ensures Announces(Ready(), d, d.(writeopen := false), {NREAD})
        && Announces(Ready(), d, d.(readopen := false), {NWRITE})
  {
  }

  // ----- runs -----

  ghost predicate Init(s: System) {
    && SleepWakeup.Init(s.m) && s.m.data == Start()
    && |s.users| == |s.m.procs| == |s.cur| && (forall p :: 0 <= p < |s.users| ==> s.users[p] == Idle)
    && s.calls == [] && s.putBy == [] && s.gotBy == []
  }

  ghost predicate Next(s: System, s': System) { exists e: Event :: Enabled(s, e) && s' == Take(s, e) }

  ghost predicate NextAt(ss: seq<System>, k: nat) { k + 1 < |ss| && Next(ss[k], ss[k + 1]) }

  ghost predicate IsRun(ss: seq<System>) {
    |ss| > 0 && Init(ss[0]) && forall k: nat {:trigger NextAt(ss, k)} :: k + 1 < |ss| ==> NextAt(ss, k)
  }

  lemma {:induction false} RunInv(ss: seq<System>, k: nat)
    requires IsRun(ss) && k < |ss|
    ensures Inv(ss[k])
  {
    if k == 0 {
      assert forall p: Pid :: p < |ss[0].users| ==> ThreadOk(ss[0].m, p) && UserOk(ss[0], p);
    } else {
      RunInv(ss, k - 1);
      assert NextAt(ss, k - 1);
      var e :| Enabled(ss[k - 1], e) && ss[k] == Take(ss[k - 1], e);
      StepKeeps(ss[k - 1], e);
    }
  }

  /** In every state of every run, the bytes taken out are the first of those put in, in
      order, and at most PIPESIZE are on the way. */
  lemma InOrder(ss: seq<System>, k: nat)
    requires IsRun(ss) && k < |ss|
    ensures ss[k].m.data.got <= ss[k].m.data.put && |ss[k].m.data.put| - |ss[k].m.data.got| <= PIPESIZE
  {
    RunInv(ss, k);
  }

  /** What went in or came out stays so. */
  lemma {:induction false} NothingTakenBack(ss: seq<System>, j: nat, k: nat)
    requires IsRun(ss) && j <= k < |ss|
    ensures ss[j].m.data.put <= ss[k].m.data.put && ss[j].m.data.got <= ss[k].m.data.got
  {
    if j < k {
      NothingTakenBack(ss, j, k - 1);
      RunInv(ss, k - 1);
      assert NextAt(ss, k - 1);
      var e :| Enabled(ss[k - 1], e) && ss[k] == Take(ss[k - 1], e);
      StepKeepsFifo(ss[k - 1], e);
    }
  }

  /** Step j is a killed writer that releases the lock after it has put in bytes without
      waking the readers. */
  ghost predicate KilledAt(ss: seq<System>, j: nat) {
    && j + 1 < |ss| && NREAD in ss[j].m.dirty
    && exists p: Pid :: Enabled(ss[j], Do(Leave(p))) && ss[j + 1] == Take(ss[j], Do(Leave(p)))
  }

  lemma {:induction false} LeftByKilled(ss: seq<System>, k: nat)
    requires IsRun(ss) && k < |ss| && NREAD in ss[k].m.left
    ensures exists j: nat :: j < k && KilledAt(ss, j)
  {
    if k > 0 {
      assert NextAt(ss, k - 1);
      var e :| Enabled(ss[k - 1], e) && ss[k] == Take(ss[k - 1], e);
      if NREAD in ss[k - 1].m.left {
        LeftByKilled(ss, k - 1);
      } else {
        assert e == Do(Leave(e.a.p));
        assert KilledAt(ss, k - 1);
      }
    }
  }

  /** Whenever the lock is free, a sleeping writer means a full pipe that is open for reading,
      and a sleeping reader means an empty pipe that is open for writing, provided that no
      writer was killed after it had put in bytes and before it woke the readers. */
  lemma SleepersWait(ss: seq<System>, k: nat, p: Pid)
    requires IsRun(ss) && k < |ss| && p < |ss[k].m.procs| && ss[k].m.lk == None && ss[k].m.procs[p].st == SLEEPING
    ensures ss[k].m.procs[p].chan == NWRITE ==>
        |ss[k].m.data.put| == |ss[k].m.data.got| + PIPESIZE && ss[k].m.data.readopen
    ensures ss[k].m.procs[p].chan == NREAD && (forall j: nat :: j < k ==> !KilledAt(ss, j)) ==>
        |ss[k].m.data.put| == |ss[k].m.data.got| && ss[k].m.data.writeopen
  {
    RunInv(ss, k);
    CountersTell(ss[k].m.data);
    assert ThreadOk(ss[k].m, p) && NotLost(Ready(), ss[k].m, p, ss[k].m.procs[p].chan);
    if NREAD in ss[k].m.left { LeftByKilled(ss, k); }
  }

  // ----- a writer that is killed -----

  ghost predicate ReaderSleeps(s: System, q: Pid) {
    q < |s.m.procs| && s.m.procs[q].st == SLEEPING && s.m.procs[q].chan == NREAD
  }

  ghost predicate ReaderLost(s: System, q: Pid) {
    ReaderSleeps(s, q) && !(Empty(s.m.data) && s.m.data.writeopen)
  }

  /** A writer that gives up leaves a reader asleep with bytes in the pipe if and only if a
      reader sleeps, and this writer has written since it last got the lock, or an earlier one
      left the readers so and there still are bytes, or no writers, to wake them for. */
  lemma KilledExitLoses(s: System, p: Pid)
    requires Inv(s) && Enabled(s, Do(Leave(p)))
    ensures (exists q: Pid :: ReaderLost(Take(s, Do(Leave(p))), q))
            <==> (NREAD in s.m.dirty || (NREAD in s.m.left && !(Empty(s.m.data) && s.m.data.writeopen)))
                 && exists q: Pid :: ReaderSleeps(s, q)
  {
    assert UserOk(s, p) && ThreadOk(s.m, p);
    var s' := Take(s, Do(Leave(p)));
    if q: Pid :| ReaderLost(s', q) {
      assert ThreadOk(s.m, q) && NotLost(Ready(), s.m, q, NREAD);
      assert ReaderSleeps(s, q);
    }
    if NREAD in s.m.dirty || (NREAD in s.m.left && !(Empty(s.m.data) && s.m.data.writeopen)) {
      forall q: Pid | ReaderSleeps(s, q) ensures ReaderLost(s', q) {
      }
    }
  }

  lemma Extend(ss: seq<System>, e: Event) returns (ss': seq<System>)
    requires IsRun(ss) && Enabled(ss[|ss| - 1], e)
    ensures IsRun(ss') && |ss'| == |ss| + 1 && ss' == ss + [Take(ss[|ss| - 1], e)]
  {
    ss' := ss + [Take(ss[|ss| - 1], e)];
    assert Next(ss[|ss| - 1], Take(ss[|ss| - 1], e));
    forall k: nat | k + 1 < |ss'| ensures NextAt(ss', k) {
      if k + 1 < |ss| { assert NextAt(ss, k); } else { assert Next(ss'[k], ss'[k + 1]); }
    }
  }

  ghost function Start(): Pipe { Pipe(seq(PIPESIZE, i => 0), 0, 0, true, true, [], []) }

  /** Process 0 sleeps on an empty pipe. */
  lemma SleepingReader() returns (ss: seq<System>)
    ensures IsRun(ss) && |ss| > 0
    ensures ss[|ss| - 1] == System(State(None, Start(), {}, {},
        [Thread(SLEEPING, NREAD, false, Off), Thread(RUNNING, 0, false, Out)]), [Read(1, 1), Idle], [0, 0],
        [Read(1, 1)], [], [])
  {
    var t, d, u := Thread(RUNNING, 0, false, Out), Start(), [Read(1, 1), Idle];
    ss := [System(State(None, d, {}, {}, [t, t]), [Idle, Idle], [0, 0], [], [], [])];
    ss := Extend(ss, Call(0, Read(1, 1)));
    var c := [Read(1, 1)];
    assert ss[1] == System(State(None, d, {}, {}, [t, t]), u, [0, 0], c, [], []);
    ss := Extend(ss, Do(Acquire(0)));
    assert ss[2] == System(State(Some(0), d, {}, {}, [t.(pc := In), t]), u, [0, 0], c, [], []);
    assert !IsReady(d, NREAD);
    assert !Ready()(d, NREAD);
    ss := Extend(ss, Do(SleepLock(0, NREAD)));
    var v := t.(pc := Locked(NREAD), plock := true);
    assert ss[3] == System(State(Some(0), d, {}, {}, [v, t]), u, [0, 0], c, [], []);
    ss := Extend(ss, Do(SleepRelease(0)));
    assert ss[4] == System(State(None, d, {}, {}, [t.(pc := Unlocked(NREAD), plock := true), t]), u, [0, 0], c, [], []);
    ss := Extend(ss, Do(SleepMark(0)));
    assert ss[5] == System(State(None, d, {}, {}, [Thread(SLEEPING, NREAD, true, Asleep), t]), u, [0, 0], c, [], []);
    ss := Extend(ss, Do(Swtch(0)));
    assert ss[6] == System(State(None, d, {}, {}, [Thread(SLEEPING, NREAD, true, Off), t]), u, [0, 0], c, [], []);
    ss := Extend(ss, Do(SchedulerRelease(0)));
  }

  /** It happens: then process 1 is killed after the first of two bytes. */
  lemma KilledWriterStrandsReader() returns (ss: seq<System>)
    ensures IsRun(ss) && |ss| > 0
    ensures var s := ss[|ss| - 1];
            && s.m.lk == None && s.users == [Read(1, 1), Idle] && ReaderLost(s, 0)
            && s.m.data.put == [7] && s.m.data.got == [] && |ss| > 1 && KilledAt(ss, |ss| - 2)
  {
    var r, t, d := Thread(SLEEPING, NREAD, false, Off), Thread(RUNNING, 0, false, Out), Start();
    var w, c := Writing([7, 8], 2, 0), Read(1, 1);
    ss := SleepingReader();
    ss := Extend(ss, Call(1, Write(w)));
    assert ss[|ss| - 1] == System(State(None, d, {}, {}, [r, t]), [c, Write(w)], [0, 1], [c, Write(w)], [], []);
    ss := Extend(ss, Do(Acquire(1)));
    assert ss[|ss| - 1] == System(State(Some(1), d, {}, {}, [r, t.(pc := In)]), [c, Write(w)], [0, 1], [c, Write(w)],
        [], []);
    ChangesAnnounced(d, 7);
    ss := Extend(ss, Do(Change(1, Put(d, 7), {NREAD})));
    var x := w.(i := 1);
    assert ss[|ss| - 1] == System(State(Some(1), Put(d, 7), {} + {NREAD}, {}, [r, t.(pc := In)]),
        [c, Write(x)], [0, 1], [c, Write(x)], [1], []);
    ss := Extend(ss, Do(Leave(1)));
    assert ss[|ss| - 1] == System(State(None, Put(d, 7), {}, {} + ({} + {NREAD}), [r, t]), [c, Idle], [0, 1],
        [c, WriteQuit(x)], [1], []);
  }
}
