/** The log (kernel/log.c) and the buffer cache (kernel/bio.c) under concurrent file
    system calls, commits, readers and crashes, as a machine whose steps are the
    critical sections and the disk transfers. A memmove into a buffer whose sleep-lock
    is held is merged with the bwrite that follows it: nobody else can see it. */
module LogProtocol {
  import opened Common
  import opened LogFormat
  import opened BufferSlots

  type Pid = nat

  /** A struct buf: its cache slot, its contents and its sleep-lock. `waiting` holds the
      processes between bget's refcnt++ and the end of acquiresleep, `leaving` counts
      those between releasesleep and refcnt-- in brelse. */
  datatype Buf = Buf(slot: Slot, data: Block, holder: Option<Pid>, waiting: multiset<Pid>, leaving: nat)

  datatype Phase =
    | Idle                                  // no commit, no recovery
    | WriteLog(tail: nat)                   // write_log, at iteration tail
    | CommitHead                            // about to write the header that commits
    | Install(tail: nat, written: bool)     // install_trans(0)
    | ClearHead                             // about to write the empty header
    | CommitDone                            // commit() returned, committing still set
    | RecReadHead                           // recover_from_log
    | RecInstall(tail: nat)
    | RecClear

  /** A call between begin_op and end_op: its number and the blocks it has logged. */
  datatype Call = Call(op: nat, logged: set<nat>)

  /** A log_write: which call made it, and the block contents it recorded. */
  datatype Event = Event(op: nat, blockno: nat, data: Block)

  /** The disk, struct log and, in the last five fields, history that no step reads. */
  datatype Log = Log(
    c: Layout,
    disk: Disk,
    lh: seq<nat>,
    outstanding: nat,
    committing: bool,
    phase: Phase,
    driver: Pid,             // the process in commit() or recover_from_log()
    open: map<Pid, Call>,    // the calls between begin_op and end_op
    nextOp: nat,
    base: Disk,              // the disk at the very beginning
    events: seq<Event>,      // every log_write that no crash has undone
    stable: nat,             // events covered by the last committing header write
    returned: nat)           // events of commits that have returned

  datatype State = State(bufs: seq<Buf>, l: Log)

  const ROOTDEV := 1

  // ----- the abstract view -----

  /** The block contents after a sequence of log_writes. */
  ghost function Replay(base: Disk, es: seq<Event>): (r: Disk)
    ensures |r| == |base|
  {
    if es == [] then base
    else
      var e := es[|es| - 1];
      var d := Replay(base, es[..|es| - 1]);
      if e.blockno < |d| then d[e.blockno := e.data] else d
  }

  /** What the file system should see in each home block now. */
  ghost function Logical(l: Log): Disk { Replay(l.base, l.events) }

  /** What a crash now must bring back. */
  ghost function Durable(l: Log): Disk
    requires l.stable <= |l.events|
  { Replay(l.base, l.events[..l.stable]) }

  // ----- steps -----

  ghost predicate Recovering(phase: Phase) {
    phase.RecReadHead? || phase.RecInstall? || phase.RecClear?
  }

  ghost predicate Caches(u: Buf, b: nat) { u.slot.dev == ROOTDEV && u.slot.blockno == b }

  /** p holds the lock of buffer i, which has the valid contents of block b. */
  ghost predicate Holding(bufs: seq<Buf>, p: Pid, i: nat, b: nat) {
    i < |bufs| && bufs[i].holder == Some(p) && Caches(bufs[i], b) && bufs[i].slot.valid
  }

  datatype Step =
    | BeginOp(p: Pid)
    | EndOp(p: Pid)
    | Get(p: Pid, b: nat, i: nat)
    | Lock(p: Pid, i: nat)
    | Fill(p: Pid, i: nat)
    | Modify(p: Pid, i: nat, data: Block)
    | LogWrite(p: Pid, i: nat)
    | Unlock(p: Pid, i: nat)
    | Put(i: nat)
    | WriteLogBlock(to: nat, from: nat)
    | WriteCommitHead(i: nat)
    | InstallBlock(l: nat, d: nat)
    | Unpin(d: nat)
    | WriteClearHead(i: nat)
    | FinishCommit
    | RecHead(i: nat)
    | RecInstallBlock(l: nat, d: nat)
    | RecClearHead(i: nat)
    | Crash(driver: Pid)

  /** begin_op lets a call in; otherwise it sleeps. */
  ghost predicate CanBegin(l: Log) {
    !l.committing && |l.lh| + (l.outstanding + 1) * MAXOPBLOCKS <= LOGSIZE
  }

  /** log_write's first panic. */
  ghost predicate TooBig(l: Log) { |l.lh| >= LOGSIZE || |l.lh| >= l.c.size - 1 }

  /** bget(b) may return buffer i. */
  ghost predicate MayReturn(s: State, b: nat, i: nat) {
    i < |s.bufs| && b < s.l.c.nblocks &&
    (Caches(s.bufs[i], b) ||
     (s.bufs[i].slot.refcnt == 0 && forall j :: 0 <= j < |s.bufs| ==> !Caches(s.bufs[j], b)))
  }

  /** The buffer has no change that log_write does not know of. */
  ghost predicate Logged(l: Log, u: Buf) {
    var b := u.slot.blockno;
    (!Recovering(l.phase) && u.slot.valid && u.slot.dev == ROOTDEV && IsHome(l.c, b) && b < |l.base|)
    ==> u.data == Logical(l)[b]
  }

  const FreshBuf := Buf(Slot(false, 0, 0, 0), Block([]), None, multiset{}, 0)

  ghost function SetBuf(s: State, i: nat, u: Buf): State
    requires i < |s.bufs|
  { s.(bufs := s.bufs[i := u]) }

  /** Overwrite the held buffer i and write it to block b. */
  ghost function WriteThrough(s: State, i: nat, b: nat, data: Block): State
    requires i < |s.bufs| && b < |s.l.disk|
  { State(s.bufs[i := s.bufs[i].(data := data)], s.l.(disk := s.l.disk[b := data])) }

  /** begin_op lets a call in */
  ghost predicate CanBeginOp(s: State, p: Pid) {
    var l := s.l;
    !Recovering(l.phase) && p !in l.open && CanBegin(l)
  }

  ghost function DoBeginOp(s: State, p: Pid): (s': State)
    requires CanBeginOp(s, p)
  {
    var l := s.l;
    s.(l := l.(outstanding := l.outstanding + 1, open := l.open[p := Call(l.nextOp, {})], nextOp := l.nextOp + 1))
  }

  /** end_op; the last call out becomes the committer */
  ghost predicate CanEndOp(s: State, p: Pid) {
    var l := s.l;
    p in l.open && l.outstanding >= 1 && !l.committing
    && forall i :: 0 <= i < |s.bufs| && s.bufs[i].holder == Some(p) ==> Logged(l, s.bufs[i])
  }

  ghost function DoEndOp(s: State, p: Pid): (s': State)
    requires CanEndOp(s, p)
  {
    var l := s.l;
    var l1 := l.(outstanding := l.outstanding - 1, open := l.open - {p});
    if l1.outstanding > 0 then s.(l := l1)
    else s.(l := l1.(committing := true, driver := p, phase := if l.lh == [] then CommitDone else WriteLog(0)))
  }

  /** bget up to the release of bcache.lock */
  ghost predicate CanGet(s: State, p: Pid, b: nat, i: nat) {
    (Recovering(s.l.phase) ==> p == s.l.driver) && MayReturn(s, b, i)
  }

  ghost function DoGet(s: State, p: Pid, b: nat, i: nat): (s': State)
    requires CanGet(s, p, b, i)
  {
    var u := s.bufs[i];
    SetBuf(s, i, u.(waiting := u.waiting + multiset{p},
                    slot := if Caches(u, b) then Ref(u.slot) else Recycle(ROOTDEV, b)))
  }

  /** the end of acquiresleep in bget */
  ghost predicate CanLock(s: State, p: Pid, i: nat) {
    i < |s.bufs| && p in s.bufs[i].waiting && s.bufs[i].holder == None
  }

  ghost function DoLock(s: State, p: Pid, i: nat): (s': State)
    requires CanLock(s, p, i)
  {
    SetBuf(s, i, s.bufs[i].(holder := Some(p), waiting := s.bufs[i].waiting - multiset{p}))
  }

  /** the disk read in bread */
  ghost predicate CanFill(s: State, p: Pid, i: nat) {
    i < |s.bufs| && s.bufs[i].holder == Some(p) && !s.bufs[i].slot.valid
    && s.bufs[i].slot.blockno < |s.l.disk|
  }

  ghost function DoFill(s: State, p: Pid, i: nat): (s': State)
    requires CanFill(s, p, i)
  {
    var u := s.bufs[i];
    SetBuf(s, i, u.(slot := u.slot.(valid := true), data := s.l.disk[u.slot.blockno]))
  }

  /** a call changes a buffer it holds */
  ghost predicate CanModify(s: State, p: Pid, i: nat, data: Block) {
    var l := s.l;
    p in l.open && i < |s.bufs| && |data.words| == WORDS
    && Holding(s.bufs, p, i, s.bufs[i].slot.blockno) && IsHome(l.c, s.bufs[i].slot.blockno)
  }

  ghost function DoModify(s: State, p: Pid, i: nat, data: Block): (s': State)
    requires CanModify(s, p, i, data)
  {
    SetBuf(s, i, s.bufs[i].(data := data))
  }

  /** log_write, with absorption and bpin */
  ghost predicate CanLogWrite(s: State, p: Pid, i: nat) {
    var l := s.l;
    p in l.open && i < |s.bufs| && l.outstanding >= 1 && !TooBig(l)
    && Holding(s.bufs, p, i, s.bufs[i].slot.blockno) && IsHome(l.c, s.bufs[i].slot.blockno)
  }

  ghost function DoLogWrite(s: State, p: Pid, i: nat): (s': State)
    requires CanLogWrite(s, p, i)
  {
    var l := s.l;
    var u := s.bufs[i];
    var b := u.slot.blockno;
    var call := l.open[p];
    var l1 := l.(events := l.events + [Event(call.op, b, u.data)],
                 open := l.open[p := call.(logged := call.logged + {b})]);
    if b in l.lh then s.(l := l1)
    else State(s.bufs[i := u.(slot := Ref(u.slot))], l1.(lh := l.lh + [b]))
  }

  /** brelse, up to the end of releasesleep */
  ghost predicate CanUnlock(s: State, p: Pid, i: nat) {
    i < |s.bufs| && s.bufs[i].holder == Some(p) && Logged(s.l, s.bufs[i])
  }

  ghost function DoUnlock(s: State, p: Pid, i: nat): (s': State)
    requires CanUnlock(s, p, i)
  {
    SetBuf(s, i, s.bufs[i].(holder := None, leaving := s.bufs[i].leaving + 1))
  }

  /** the rest of brelse */
  ghost predicate CanPut(s: State, i: nat) {
    i < |s.bufs| && s.bufs[i].leaving > 0 && s.bufs[i].slot.refcnt > 0
  }

  ghost function DoPut(s: State, i: nat): (s': State)
    requires CanPut(s, i)
  {
    SetBuf(s, i, s.bufs[i].(leaving := s.bufs[i].leaving - 1, slot := Unref(s.bufs[i].slot)))
  }

  /** write_log, one block */
  ghost predicate CanWriteLogBlock(s: State, to: nat, from: nat) {
    var l := s.l;
    l.phase.WriteLog? && l.phase.tail < |l.lh|
    && Holding(s.bufs, l.driver, to, l.c.start + 1 + l.phase.tail)
    && Holding(s.bufs, l.driver, from, l.lh[l.phase.tail]) && l.c.start + 1 + l.phase.tail < |l.disk|
  }

  ghost function DoWriteLogBlock(s: State, to: nat, from: nat): (s': State)
    requires CanWriteLogBlock(s, to, from)
  {
    var l := s.l;
    var t := l.phase.tail;
    var s1 := WriteThrough(s, to, l.c.start + 1 + t, s.bufs[from].data);
    s1.(l := s1.l.(phase := if t + 1 < |l.lh| then WriteLog(t + 1) else CommitHead))
  }

  /** write_head, the real commit */
  ghost predicate CanWriteCommitHead(s: State, i: nat) {
    var l := s.l;
    l.phase.CommitHead? && Holding(s.bufs, l.driver, i, l.c.start)
    && l.c.start < |l.disk| && |s.bufs[i].data.words| == WORDS && |l.lh| < WORDS
  }

  ghost function DoWriteCommitHead(s: State, i: nat): (s': State)
    requires CanWriteCommitHead(s, i)
  {
    var l := s.l;
    var s1 := WriteThrough(s, i, l.c.start, PutHeader(s.bufs[i].data, l.lh));
    s1.(l := s1.l.(phase := Install(0, false), stable := |l.events|))
  }

  /** install_trans(0), up to bwrite */
  ghost predicate CanInstallBlock(s: State, b: nat, d: nat) {
    var l := s.l;
    l.phase.Install? && !l.phase.written && l.phase.tail < |l.lh|
    && Holding(s.bufs, l.driver, b, l.c.start + 1 + l.phase.tail)
    && Holding(s.bufs, l.driver, d, l.lh[l.phase.tail]) && l.lh[l.phase.tail] < |l.disk|
  }

  ghost function DoInstallBlock(s: State, b: nat, d: nat): (s': State)
    requires CanInstallBlock(s, b, d)
  {
    var l := s.l;
    var s1 := WriteThrough(s, d, l.lh[l.phase.tail], s.bufs[b].data);
    s1.(l := s1.l.(phase := Install(l.phase.tail, true)))
  }

  /** install_trans(0), bunpin; after the last block lh.n = 0 */
  ghost predicate CanUnpin(s: State, d: nat) {
    var l := s.l;
    l.phase.Install? && l.phase.written && l.phase.tail < |l.lh|
    && Holding(s.bufs, l.driver, d, l.lh[l.phase.tail]) && s.bufs[d].slot.refcnt > 0
  }

  ghost function DoUnpin(s: State, d: nat): (s': State)
    requires CanUnpin(s, d)
  {
    var l := s.l;
    State(s.bufs[d := s.bufs[d].(slot := Unref(s.bufs[d].slot))],
          if l.phase.tail + 1 < |l.lh| then l.(phase := Install(l.phase.tail + 1, false))
          else l.(phase := ClearHead, lh := []))
  }

  /** write_head that erases the transaction */
  ghost predicate CanWriteClearHead(s: State, i: nat) {
    var l := s.l;
    l.phase.ClearHead? && Holding(s.bufs, l.driver, i, l.c.start)
    && l.c.start < |l.disk| && |s.bufs[i].data.words| == WORDS
  }

  ghost function DoWriteClearHead(s: State, i: nat): (s': State)
    requires CanWriteClearHead(s, i)
  {
    var l := s.l;
    var s1 := WriteThrough(s, i, l.c.start, PutHeader(s.bufs[i].data, []));
    s1.(l := s1.l.(phase := CommitDone))
  }

  /** end_op after commit() returned */
  ghost predicate CanFinishCommit(s: State) {
    s.l.phase.CommitDone?
  }

  ghost function DoFinishCommit(s: State): (s': State)
    requires CanFinishCommit(s)
  {
    var l := s.l;
    s.(l := l.(committing := false, phase := Idle, returned := l.stable))
  }

  /** read_head */
  ghost predicate CanRecHead(s: State, i: nat) {
    var l := s.l;
    l.phase.RecReadHead? && Holding(s.bufs, l.driver, i, l.c.start)
  }

  ghost function DoRecHead(s: State, i: nat): (s': State)
    requires CanRecHead(s, i)
  {
    var l := s.l;
    var lh := HeaderOf(s.bufs[i].data);
    s.(l := l.(lh := lh, phase := if lh == [] then RecClear else RecInstall(0)))
  }

  /** install_trans(1), one block */
  ghost predicate CanRecInstallBlock(s: State, b: nat, d: nat) {
    var l := s.l;
    l.phase.RecInstall? && l.phase.tail < |l.lh|
    && Holding(s.bufs, l.driver, b, l.c.start + 1 + l.phase.tail)
    && Holding(s.bufs, l.driver, d, l.lh[l.phase.tail]) && l.lh[l.phase.tail] < |l.disk|
  }

  ghost function DoRecInstallBlock(s: State, b: nat, d: nat): (s': State)
    requires CanRecInstallBlock(s, b, d)
  {
    var l := s.l;
    var s1 := WriteThrough(s, d, l.lh[l.phase.tail], s.bufs[b].data);
    s1.(l := if l.phase.tail + 1 < |l.lh| then s1.l.(phase := RecInstall(l.phase.tail + 1))
             else s1.l.(phase := RecClear, lh := []))
  }

  /** write_head at the end of recovery */
  ghost predicate CanRecClearHead(s: State, i: nat) {
    var l := s.l;
    l.phase.RecClear? && Holding(s.bufs, l.driver, i, l.c.start)
    && l.c.start < |l.disk| && |s.bufs[i].data.words| == WORDS
  }

  ghost function DoRecClearHead(s: State, i: nat): (s': State)
    requires CanRecClearHead(s, i)
  {
    var l := s.l;
    var s1 := WriteThrough(s, i, l.c.start, PutHeader(s.bufs[i].data, []));
    s1.(l := s1.l.(phase := Idle))
  }

  /** memory is lost, the disk stays, and recovery starts */
  ghost predicate CanCrash(s: State, driver: Pid) {
    s.l.stable <= |s.l.events|
  }

  ghost function DoCrash(s: State, driver: Pid): (s': State)
    requires CanCrash(s, driver)
  {
    var l := s.l;
    State(seq(NBUF, k => FreshBuf),
          l.(lh := [], outstanding := 0, committing := false, phase := RecReadHead, driver := driver,
             open := map[], events := l.events[..l.stable], returned := l.stable))
  }

  ghost predicate Enabled(s: State, step: Step) {
    match step
    case BeginOp(p) => CanBeginOp(s, p)
    case EndOp(p) => CanEndOp(s, p)
    case Get(p, b, i) => CanGet(s, p, b, i)
    case Lock(p, i) => CanLock(s, p, i)
    case Fill(p, i) => CanFill(s, p, i)
    case Modify(p, i, data) => CanModify(s, p, i, data)
    case LogWrite(p, i) => CanLogWrite(s, p, i)
    case Unlock(p, i) => CanUnlock(s, p, i)
    case Put(i) => CanPut(s, i)
    case WriteLogBlock(to, from) => CanWriteLogBlock(s, to, from)
    case WriteCommitHead(i) => CanWriteCommitHead(s, i)
    case InstallBlock(b, d) => CanInstallBlock(s, b, d)
    case Unpin(d) => CanUnpin(s, d)
    case WriteClearHead(i) => CanWriteClearHead(s, i)
    case FinishCommit => CanFinishCommit(s)
    case RecHead(i) => CanRecHead(s, i)
    case RecInstallBlock(b, d) => CanRecInstallBlock(s, b, d)
    case RecClearHead(i) => CanRecClearHead(s, i)
    case Crash(driver) => CanCrash(s, driver)
  }

  ghost function Take(s: State, step: Step): (s': State)
    requires Enabled(s, step)
  {
    match step
    case BeginOp(p) => DoBeginOp(s, p)
    case EndOp(p) => DoEndOp(s, p)
    case Get(p, b, i) => DoGet(s, p, b, i)
    case Lock(p, i) => DoLock(s, p, i)
    case Fill(p, i) => DoFill(s, p, i)
    case Modify(p, i, data) => DoModify(s, p, i, data)
    case LogWrite(p, i) => DoLogWrite(s, p, i)
    case Unlock(p, i) => DoUnlock(s, p, i)
    case Put(i) => DoPut(s, i)
    case WriteLogBlock(to, from) => DoWriteLogBlock(s, to, from)
    case WriteCommitHead(i) => DoWriteCommitHead(s, i)
    case InstallBlock(b, d) => DoInstallBlock(s, b, d)
    case Unpin(d) => DoUnpin(s, d)
    case WriteClearHead(i) => DoWriteClearHead(s, i)
    case FinishCommit => DoFinishCommit(s)
    case RecHead(i) => DoRecHead(s, i)
    case RecInstallBlock(b, d) => DoRecInstallBlock(s, b, d)
    case RecClearHead(i) => DoRecClearHead(s, i)
    case Crash(driver) => DoCrash(s, driver)
  }

  /** A formatted disk with an empty log and nothing in memory; boot runs recovery. */
  ghost predicate Init(s: State) {
    var l := s.l;
    && GoodLayout(l.c) && GoodDisk(l.c, l.disk) && HeaderOf(l.disk[l.c.start]) == []
    && l.base == l.disk && l.events == [] && l.stable == 0 && l.returned == 0
    && s.bufs == seq(NBUF, k => FreshBuf) && l.lh == [] && l.outstanding == 0 && !l.committing
    && l.phase == RecReadHead && l.open == map[]
  }
}
