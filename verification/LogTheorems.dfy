/** What the invariant gives for whole runs: crash atomicity, durability, and a
    transparent buffer cache. */
module LogTheorems {
  import opened LogFormat
  import opened LogProtocol
  import opened LogInvariant
  import opened LogSteps

  ghost predicate StepAt(ss: seq<State>, steps: seq<Step>, i: nat) {
    i < |steps| && i + 1 < |ss| && Enabled(ss[i], steps[i]) && ss[i + 1] == Take(ss[i], steps[i])
  }

  /** A run of the machine from a formatted disk. */
  ghost predicate IsRun(ss: seq<State>, steps: seq<Step>) {
    && |ss| == |steps| + 1 && Init(ss[0])
    && forall i {:trigger StepAt(ss, steps, i)} :: 0 <= i < |steps| ==> StepAt(ss, steps, i)
  }

  lemma {:induction false} RunInv(ss: seq<State>, steps: seq<Step>, i: nat)
    requires IsRun(ss, steps) && i < |ss|
    ensures Inv(ss[i])
  {
    if i == 0 {
      InitInv(ss[0]);
    } else {
      RunInv(ss, steps, i - 1);
      assert StepAt(ss, steps, i - 1);
      StepKeeps(ss[i - 1], steps[i - 1]);
    }
  }

  lemma RunCalls(ss: seq<State>, steps: seq<Step>, i: nat)
    requires IsRun(ss, steps) && i < |ss|
    ensures Calls(ss[i].l)
  {
    RunInv(ss, steps, i);
  }

  /** In every state of every run, recovery from the disk alone yields the log_writes up to
      `stable`: all those of commits that returned, and each call wholly or not at all. */
  lemma EveryStateRecovers(ss: seq<State>, steps: seq<Step>, i: nat)
    requires IsRun(ss, steps) && i < |ss|
    ensures var l := ss[i].l;
            && Recoverable(l.c, l.disk) && l.returned <= l.stable <= |l.events|
            && SameHome(l.c, Recovered(l.c, l.disk), Replay(l.base, l.events[..l.stable]))
            && Clean(l.events, l.stable)
  {
    RunInv(ss, steps, i);
    HoldsIffRecovers(ss[i].l.c, ss[i].l.disk, Durable(ss[i].l));
  }

  lemma RecoveryStepKeepsHistory(s: State, step: Step)
    requires Enabled(s, step) && Recovering(s.l.phase) && s.l.open == map[] && s.l.stable == |s.l.events|
    ensures var l, l' := s.l, Take(s, step).l;
            l'.c == l.c && l'.base == l.base && l'.stable == l.stable && l'.events == l.events
  {
    assert s.l.events[..|s.l.events|] == s.l.events;
  }

  /** The history of l' is what a crash in l keeps of it. */
  ghost predicate KeptBy(l: Log, l': Log) {
    l'.c == l.c && l'.base == l.base && l'.stable == l.stable <= |l.events| && l'.events == l.events[..l.stable]
  }

  lemma CrashKeepsHistory(s: State, step: Step)
    requires Enabled(s, step) && step.Crash?
    ensures KeptBy(s.l, Take(s, step).l)
  {
  }

  /** Recovery itself, and further crashes in it, do not touch the history. */
  lemma {:induction false} RecoveryKeepsHistory(ss: seq<State>, steps: seq<Step>, i: nat, j: nat)
    requires IsRun(ss, steps) && i < j < |ss| && steps[i].Crash?
    requires forall k :: i < k < j ==> Recovering(ss[k].l.phase)
    ensures KeptBy(ss[i].l, ss[j].l)
  {
    assert StepAt(ss, steps, j - 1);
    if j == i + 1 {
      CrashKeepsHistory(ss[i], steps[i]);
    } else {
      RecoveryKeepsHistory(ss, steps, i, j - 1);
      RunCalls(ss, steps, j - 1);
      RecoveryStepKeepsHistory(ss[j - 1], steps[j - 1]);
    }
  }

  /** When nothing is committing or recovering, the home blocks on disk are the durable ones. */
  lemma IdleDisk(l: Log)
    requires LogInv(l) && l.phase.Idle?
    ensures SameHome(l.c, l.disk, Durable(l))
  {
    forall b | 0 <= b < |l.disk| && IsHome(l.c, b) ensures AtHome(l.disk, Durable(l), b) {}
  }

  lemma RecoveryEndsIdle(s: State, step: Step)
    requires Enabled(s, step) && (step.Crash? || (Recovering(s.l.phase) && s.l.open == map[]))
    ensures Take(s, step).l.phase.Idle? || Recovering(Take(s, step).l.phase)
  {
  }

  lemma RecoveryEnd(ss: seq<State>, steps: seq<Step>, j: nat)
    requires IsRun(ss, steps) && 0 < j < |ss| && (steps[j - 1].Crash? || Recovering(ss[j - 1].l.phase))
    requires !Recovering(ss[j].l.phase)
    ensures ss[j].l.stable <= |ss[j].l.events| && SameHome(ss[j].l.c, ss[j].l.disk, Durable(ss[j].l))
  {
    assert ss[j].l.phase.Idle? by {
      assert StepAt(ss, steps, j - 1);
      assert Calls(ss[j - 1].l) by { RunInv(ss, steps, j - 1); }
      RecoveryEndsIdle(ss[j - 1], steps[j - 1]);
    }
    assert LogInv(ss[j].l) by { RunInv(ss, steps, j); }
    IdleDisk(ss[j].l);
  }

  /** Crash atomicity. The machine crashes at step i of a run, recovers, perhaps crashing
      again and again while it does, and recovery is over at state j. Then the home blocks
      on disk are those after a prefix of the log_writes made before the crash. The prefix
      has every log_write of the commits that had returned, and no call is split by it. */
  lemma CrashAtomicity(ss: seq<State>, steps: seq<Step>, i: nat, j: nat)
    requires IsRun(ss, steps) && i < j < |ss| && steps[i].Crash?
    requires (forall k :: i < k < j ==> Recovering(ss[k].l.phase)) && !Recovering(ss[j].l.phase)
    ensures var l, k := ss[i].l, ss[i].l.stable;
            && l.returned <= k <= |l.events| && Clean(l.events, k)
            && SameHome(l.c, ss[j].l.disk, Replay(l.base, l.events[..k]))
  {
    RecoveryKeepsHistory(ss, steps, i, j);
    EveryStateRecovers(ss, steps, i);
    RecoveryEnd(ss, steps, j);
    assert ss[j].l.events[..ss[j].l.stable] == ss[j].l.events;
  }

  /** The history of l' goes on from the log_writes of l whose commits returned. */
  ghost predicate GoesOn(l: Log, l': Log) {
    && l'.c == l.c && l'.base == l.base && l.returned <= l'.returned && l.returned <= |l.events| && l.returned <=
    |l'.events|
    && l'.events[..l.returned] == l.events[..l.returned]
  }

  lemma StepGoesOn(s: State, step: Step)
    requires Enabled(s, step) && s.l.returned <= s.l.stable <= |s.l.events|
    ensures GoesOn(s.l, Take(s, step).l)
  {
  }

  lemma GoesOnTwice(a: Log, b: Log, c: Log)
    requires GoesOn(a, b) && GoesOn(b, c)
    ensures GoesOn(a, c)
  {
    forall k | 0 <= k < a.returned ensures c.events[k] == a.events[k] {
      assert c.events[..b.returned][k] == b.events[..b.returned][k]
          && b.events[..a.returned][k] == a.events[..a.returned][k];
    }
  }

  /** No later step of a run, a crash included, undoes a log_write whose commit returned. */
  lemma {:induction false} ReturnedStays(ss: seq<State>, steps: seq<Step>, i: nat, j: nat)
    requires IsRun(ss, steps) && i <= j < |ss|
    ensures GoesOn(ss[i].l, ss[j].l)
  {
    if i == j {
      RunCalls(ss, steps, i);
    } else {
      ReturnedStays(ss, steps, i, j - 1);
      RunCalls(ss, steps, j - 1);
      assert StepAt(ss, steps, j - 1);
      StepGoesOn(ss[j - 1], steps[j - 1]);
      GoesOnTwice(ss[i].l, ss[j - 1].l, ss[j].l);
    }
  }

  /** When a commit returns, no call is open and it covers every log_write made so far; and
      from then on, through every commit and crash to come, those log_writes stay in the
      history, among the ones whose commits returned. */
  lemma CommitIsDurable(ss: seq<State>, steps: seq<Step>, i: nat, j: nat)
    requires IsRun(ss, steps) && i < |steps| && steps[i].FinishCommit? && i < j < |ss|
    ensures ss[i].l.open == map[] && ss[i + 1].l.returned == |ss[i].l.events|
    ensures ss[i].l.events <= ss[j].l.events && ss[j].l.base == ss[i].l.base && |ss[i].l.events| <= ss[j].l.returned
  {
    assert StepAt(ss, steps, i);
    RunCalls(ss, steps, i);
    ReturnedStays(ss, steps, i + 1, j);
    assert ss[i + 1].l.events == ss[i].l.events == ss[i].l.events[..|ss[i].l.events|];
  }

  /** Recovery from any later crash replays them all: the commit returned in step i, the
      crash is step j, and recovery is over at state k. */
  lemma CommittedSurvives(ss: seq<State>, steps: seq<Step>, i: nat, j: nat, k: nat) returns (n: nat)
    requires IsRun(ss, steps) && i < |steps| && steps[i].FinishCommit? && i < j < k < |ss| && steps[j].Crash?
    requires (forall m :: j < m < k ==> Recovering(ss[m].l.phase)) && !Recovering(ss[k].l.phase)
    ensures n <= |ss[j].l.events| && ss[i].l.events <= ss[j].l.events[..n]
    ensures SameHome(ss[j].l.c, ss[k].l.disk, Replay(ss[i].l.base, ss[j].l.events[..n]))
  {
    CommitIsDurable(ss, steps, i, j);
    CrashAtomicity(ss, steps, j, k);
    n := ss[j].l.stable;
  }

  /** A transaction is closed only when no call is in progress, and takes every log_write
      made so far with it. */
  lemma TransactionsCloseBetweenCalls(ss: seq<State>, steps: seq<Step>, i: nat)
    requires IsRun(ss, steps) && i < |steps| && steps[i].WriteCommitHead?
    ensures ss[i].l.open == map[] && ss[i + 1].l.stable == |ss[i].l.events|
  {
    assert StepAt(ss, steps, i);
    RunInv(ss, steps, i);
  }

  /** A call in progress has no log_write among the committed ones. */
  lemma OpenCallsAreUncommitted(ss: seq<State>, steps: seq<Step>, i: nat, p: Pid, k: nat)
    requires IsRun(ss, steps) && i < |ss| && p in ss[i].l.open && k < ss[i].l.stable && k < |ss[i].l.events|
    ensures ss[i].l.events[k].op != ss[i].l.open[p].op
  {
    RunInv(ss, steps, i);
  }

  /** Cache transparency: the buffer that bread returns has the latest logged contents of
      its block, whatever commits, evictions and other calls are under way. */
  lemma BreadReturnsLatest(ss: seq<State>, steps: seq<Step>, k: nat, p: Pid, i: nat)
    requires IsRun(ss, steps) && k < |steps| && (steps[k] == Lock(p, i) || steps[k] == Fill(p, i))
    requires i < |ss[k].bufs| && i < |ss[k + 1].bufs| && ss[k + 1].bufs[i].slot.valid && !Recovering(ss[k].l.phase)
    requires IsHome(ss[k].l.c, ss[k].bufs[i].slot.blockno)
    ensures ss[k + 1].bufs[i].slot.blockno < |Logical(ss[k + 1].l)|
    ensures ss[k + 1].bufs[i].data == Logical(ss[k + 1].l)[ss[k + 1].bufs[i].slot.blockno]
  {
    assert StepAt(ss, steps, k);
    RunInv(ss, steps, k);
    var l, m, u := ss[k].l, PromiseOf(ss[k].l), ss[k].bufs[i];
    assert BufOk(m, u);
    if steps[k] == Fill(p, i) {
      assert u.slot.blockno !in m.pinned;
      UnpinnedOnDisk(l.c, l.disk, l.lh, l.phase, Logical(l), Durable(l), u.slot.blockno);
    }
  }

  /** One buffer per block of the disk, in every state. */
  lemma OneBufferPerBlock(ss: seq<State>, steps: seq<Step>, k: nat, i: nat, j: nat)
    requires IsRun(ss, steps) && k < |ss| && i < |ss[k].bufs| && j < |ss[k].bufs| && i != j
    requires ss[k].bufs[i].slot.dev != 0 && ss[k].bufs[i].slot.dev == ss[k].bufs[j].slot.dev
    ensures ss[k].bufs[i].slot.blockno != ss[k].bufs[j].slot.blockno
  {
    RunInv(ss, steps, k);
    assert BufOk(PromiseOf(ss[k].l), ss[k].bufs[i]) && BufOk(PromiseOf(ss[k].l), ss[k].bufs[j]);
  }

  lemma ReferencedStaysCached(s: State, step: Step, b: nat, i: nat)
    requires Enabled(s, step) && !step.Crash? && CachedAt(s.bufs, b, i) && s.bufs[i].slot.refcnt > 0
    ensures CachedAt(Take(s, step).bufs, b, i)
  {
  }

  /** A logged block that is not installed is never recycled: the buffer that has it keeps
      it, valid, through every step but a crash. */
  lemma LoggedBlockStaysCached(ss: seq<State>, steps: seq<Step>, k: nat, b: nat, i: nat)
    requires IsRun(ss, steps) && k < |steps| && !steps[k].Crash?
    requires b in Pinned(ss[k].l.lh, ss[k].l.phase) && CachedAt(ss[k].bufs, b, i)
    ensures CachedAt(ss[k + 1].bufs, b, i)
  {
    assert ss[k].bufs[i].slot.refcnt > 0 by {
      RunInv(ss, steps, k);
      assert BufOk(PromiseOf(ss[k].l), ss[k].bufs[i]);
    }
    assert StepAt(ss, steps, k);
    ReferencedStaysCached(ss[k], steps[k], b, i);
  }

  // ----- the committer goes on -----

  /** With buffers i and j in hand, as its phase needs them, the committer can take its next
      step; and the blocks that it reads from the cache are there. */
  ghost predicate GoesOnWith(s: State, i: nat, j: nat) {
    var l := s.l;
    match l.phase
    case WriteLog(t) =>
      && t < |l.lh| && (exists d: nat :: CachedAt(s.bufs, l.lh[t], d))
      && (Holding(s.bufs, l.driver, i, l.c.start + 1 + t) && Holding(s.bufs, l.driver, j, l.lh[t])
          ==> Enabled(s, WriteLogBlock(i, j)))
    case CommitHead => Holding(s.bufs, l.driver, i, l.c.start) ==> Enabled(s, WriteCommitHead(i))
    case Install(t, written) =>
      && t < |l.lh| && (exists d: nat :: CachedAt(s.bufs, l.lh[t], d))
      && (Holding(s.bufs, l.driver, i, l.c.start + 1 + t) && Holding(s.bufs, l.driver, j, l.lh[t])
          ==> Enabled(s, if written then Unpin(j) else InstallBlock(i, j)))
    case ClearHead => Holding(s.bufs, l.driver, i, l.c.start) ==> Enabled(s, WriteClearHead(i))
    case CommitDone => Enabled(s, FinishCommit)
    case _ => true
  }

  lemma LogBlockCan(s: State, i: nat, j: nat)
    requires Inv(s) && s.l.phase.WriteLog?
    ensures GoesOnWith(s, i, j)
  {
    assert s.l.lh[s.l.phase.tail] in PromiseOf(s.l).pinned;
  }

  lemma InstallCan(s: State, i: nat, j: nat)
    requires Inv(s) && s.l.phase.Install?
    ensures GoesOnWith(s, i, j)
  {
    var l := s.l;
    InRest(l.lh, l.phase.tail);
    assert l.lh[l.phase.tail] in PromiseOf(l).pinned;
    if j < |s.bufs| && s.bufs[j].holder.Some? { HeldIsReferenced(s, j); }
  }

  lemma HeldIsReferenced(s: State, j: nat)
    requires Inv(s) && j < |s.bufs| && s.bufs[j].holder.Some?
    ensures s.bufs[j].slot.refcnt > 0
  {
    assert BufOk(PromiseOf(s.l), s.bufs[j]);
  }

  lemma InRest(lh: seq<nat>, t: nat)
    requires t < |lh|
    ensures lh[t] in Members(lh[t..])
  {
    assert lh[t..][0] == lh[t];
  }

  lemma HeadCan(s: State, i: nat, j: nat)
    requires Inv(s) && (s.l.phase.CommitHead? || s.l.phase.ClearHead?)
    ensures GoesOnWith(s, i, j)
  {
    if i < |s.bufs| { assert BufOk(PromiseOf(s.l), s.bufs[i]); }
  }

  /** Nothing but the locks of its buffers keeps a committer from going on, in every state of
      every run, up to the return of the commit. */
  lemma CommitterGoesOn(ss: seq<State>, steps: seq<Step>, k: nat, i: nat, j: nat)
    requires IsRun(ss, steps) && k < |ss|
    ensures GoesOnWith(ss[k], i, j)
  {
    assert GoesOnWith(ss[k], i, j) by {
      RunInv(ss, steps, k);
      match ss[k].l.phase
      case WriteLog(_) => LogBlockCan(ss[k], i, j);
      case Install(_, _) => InstallCan(ss[k], i, j);
      case CommitHead => HeadCan(ss[k], i, j);
      case ClearHead => HeadCan(ss[k], i, j);
      case _ =>
    }
  }
}
