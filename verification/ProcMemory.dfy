/** The memory side of creating, growing and freeing a process (kernel/proc.c). */
module ProcMemory {
  import opened PageFormat
  import opened PageTree
  import opened PageFrames
  import opened Vm
  import opened UserMemory

  /** The fields of struct proc that hold pages. */
  datatype Proc = Proc(pagetable: nat, sz: nat, trapframe: nat)

  /** The page table maps sz bytes of user memory, the trampoline and the trapframe, which is
      a page that the process holds. */
  ghost predicate ProcOk(mem: Memory, role: Roles, p: Proc) {
    && Space(mem, role, p.pagetable, PgRoundUp(p.sz), TOP_PAGES)
    && p.trapframe in role && role[p.trapframe].Held? && Lookup(mem, p.pagetable, TRAPFRAME).pa == p.trapframe
  }

  /** Every page that was in use is as before. */
  ghost predicate AddedPage(m0: Memory, r0: Roles, mem: Memory, role: Roles, q: nat) {
    q in r0 && q in role && q in m0 && q in mem && (r0[q].Free? || (role[q] == r0[q] && mem[q] == m0[q]))
  }

  ghost predicate Added(m0: Memory, r0: Roles, mem: Memory, role: Roles) {
    && role.Keys == r0.Keys
    && forall q {:trigger AddedPage(m0, r0, mem, role, q)} :: q in r0 ==> AddedPage(m0, r0, mem, role, q)
  }

  lemma NothingAdded(mem: Memory, role: Roles)
    requires mem.Keys == role.Keys
    ensures Restored(mem, role, mem, role)
  {
    assert forall q {:trigger RestoredPage(mem, role, mem, role, q)} :: q in role ==>
        RestoredPage(mem, role, mem, role, q);
  }

  /** A page t that was free is held, and then a new root d was made. */
  lemma AddedByRoot(m0: Memory, r0: Roles, m1: Memory, r1: Roles, mem: Memory, role: Roles, t: nat, d: nat)
    requires m0.Keys == r0.Keys && t in r0 && r0[t].Free? && r1 == r0[t := Held]
        && (forall q :: q in m0 && q != t ==> q in m1 && m1[q] == m0[q])
    requires Unknown(r1, d) && Frame(m1, r1, mem, role, d, 0) && 0 !in r0
    ensures Added(m0, r0, mem, role)
  {
    forall q | q in r0 ensures AddedPage(m0, r0, mem, role, q) {
      assert FramePage(m1, r1, mem, role, d, q);
    }
  }

  /** Both are given back. */
  lemma RestoredByBoth(m0: Memory, r0: Roles, m1: Memory, r1: Roles, m3: Memory, r3: Roles, m4: Memory, r4: Roles,
      m5: Memory, r5: Roles, t: nat, d: nat)
    requires m0.Keys == r0.Keys && t in r0 && r0[t].Free? && r1 == r0[t := Held]
        && (forall q :: q in m0 && q != t ==> q in m1 && m1[q] == m0[q])
    requires Unknown(r1, d) && Frame(m1, r1, m3, r3, d, 0) && 0 !in r0
    requires r4 == r3[t := Free] && t in r3 && (forall q :: q in m3 && q != t ==> q in m4 && m4[q] == m3[q])
        && Freed(m4, r4, m5, r5, d)
    ensures Restored(m0, r0, m5, r5)
  {
    forall q | q in r0 ensures RestoredPage(m0, r0, m5, r5, q) {
      assert FramePage(m1, r1, m3, r3, d, q) && FreedPage(m4, r4, m5, r5, d, q);
    }
  }

  lemma RestoredByFreeing(m0: Memory, r0: Roles, m1: Memory, r1: Roles, m2: Memory, r2: Roles, m3: Memory, r3: Roles,
      t: nat)
    requires m0.Keys == r0.Keys && t in r0 && r0[t].Free? && r1 == r0[t := Held]
        && (forall q :: q in m0 && q != t ==> q in m1 && m1[q] == m0[q])
    requires Restored(m1, r1, m2, r2) && r3 == r2[t := Free] && m3.Keys == m2.Keys
        && (forall q :: q in m2 && q != t ==> m3[q] == m2[q])
    ensures Restored(m0, r0, m3, r3)
  {
    forall q | q in r0 ensures RestoredPage(m0, r0, m3, r3, q) {
      assert RestoredPage(m1, r1, m2, r2, q);
    }
  }

  /** The trapframe of a space is freed before the space. */
  lemma LooseAfterFree(mem: Memory, role: Roles, mem': Memory, role': Roles, d: nat, n: nat, t: nat, next: nat)
    requires Matched(mem, role, NOHOLE) && Space(mem, role, d, n, TOP_PAGES) && t in role && role[t].Held?
    requires mem' == mem[t := Run(next)] && role' == role[t := Free]
    ensures Loose(mem', role', d, n, TOP_PAGES)
  {
    FreedFrame(mem, role, mem', role', t, next, d, 0);
    forall a: nat | IsPage(a) ensures LoosePlace(mem', role', d, n, TOP_PAGES, a) {
      assert PlaceOk(mem, role, d, n, TOP_PAGES, a) && AddrKept(mem, role, mem', role', d, a);
    }
  }

  /** freeproc: the trapframe, and then the page table with the user memory. */
  method Freeproc(vm: Vm, p: Proc) returns (ok: bool, ghost m: Memory, ghost ro: Roles)
    requires vm.Valid() && ProcOk(vm.mem, vm.role, p)
    modifies vm
    ensures ok && vm.Valid()
    ensures ro == old(vm.role)[p.trapframe := Free] && m == old(vm.mem)[p.trapframe := Run(old(vm.freelist))]
    ensures Freed(m, ro, vm.mem, vm.role, p.pagetable)
  {
    ok := vm.Release(p.trapframe);
    m, ro := vm.mem, vm.role;
    LooseAfterFree(old(vm.mem), old(vm.role), m, ro, p.pagetable, PgRoundUp(p.sz), p.trapframe, old(vm.freelist));
    ok := ProcFreepagetable(vm, p.pagetable, p.sz);
  }

  /** The parent after kalloc. */
  lemma ParentKept(mem: Memory, role: Roles, mem': Memory, role': Roles, p: Proc, t: nat)
    requires Matched(mem, role, NOHOLE) && ProcOk(mem, role, p) && t in role && role[t].Free?
    requires mem' == mem[t := Bytes(JUNK)] && role' == role[t := Held]
    ensures ProcOk(mem', role', p)
  {
    HeldFrame(mem, role, mem', role', t, JUNK, p.pagetable, 0);
    forall a: nat | IsPage(a) ensures PlaceOk(mem', role', p.pagetable, PgRoundUp(p.sz), TOP_PAGES, a) {
      assert PlaceOk(mem, role, p.pagetable, PgRoundUp(p.sz), TOP_PAGES, a)
          && AddrKept(mem, role, mem', role', p.pagetable, a);
    }
    assert AddrKept(mem, role, mem', role', p.pagetable, TRAPFRAME);
  }

  /** uvmcopy to the new process np, whose page table was made since m1 and r1. */
  method ForkCopy(vm: Vm, p: Proc, np: Proc, ghost m1: Memory, ghost r1: Roles) returns (rc: int)
    requires vm.Valid() && Matched(m1, r1, NOHOLE) && ProcOk(m1, r1, p) && np.sz == 0 && Unknown(r1, np.pagetable)
    requires Space(vm.mem, vm.role, np.pagetable, 0, TOP_PAGES) && Frame(m1, r1, vm.mem, vm.role, np.pagetable, 0)
        && vm.mem.Keys == m1.Keys
    requires np.trapframe in r1 && r1[np.trapframe].Held? && Lookup(vm.mem, np.pagetable, TRAPFRAME).pa == np.trapframe
    modifies vm
    ensures vm.Valid() && (rc == 0 || rc == -1) && Frame(m1, r1, vm.mem, vm.role, np.pagetable, 0)
    ensures rc == -1 ==> ProcOk(vm.mem, vm.role, np)
    ensures rc == 0 ==>
        ProcOk(vm.mem, vm.role, np.(sz := p.sz)) && Copied(vm.mem, p.pagetable, np.pagetable, PgRoundUp(p.sz))
    ensures rc == -1 ==> |old(vm.free)| < 3 * PagesIn(0, PgRoundUp(p.sz))
    ensures np.pagetable != p.pagetable
  {
    ghost var m2, r2 := vm.mem, vm.role;
    RoundedIs(0);
    assert Live(r1, p.pagetable) && r1[p.pagetable].At?;
    OtherSpace(m1, r1, m2, r2, np.pagetable, p.pagetable, PgRoundUp(p.sz), TOP_PAGES);
    rc := Uvmcopy(vm, p.pagetable, np.pagetable, p.sz, TOP_PAGES, TOP_PAGES);
    FrameTwice(m1, r1, m2, r2, vm.mem, vm.role, np.pagetable, 0);
    assert FramePage(m1, r1, vm.mem, vm.role, np.pagetable, np.trapframe);
    assert AddrKept(m2, r2, vm.mem, vm.role, np.pagetable, TRAPFRAME);
  }

  /** np was made from free pages: m1 and r1 are memory with its trapframe only, and now it
      also has a page table. */
  ghost predicate Born(m0: Memory, r0: Roles, m1: Memory, r1: Roles, mem: Memory, role: Roles, np: Proc) {
    && m0.Keys == r0.Keys && 0 !in r0 && np.trapframe in r0 && r0[np.trapframe].Free?
    && m1 == m0[np.trapframe := Bytes(JUNK)] && r1 == r0[np.trapframe := Held] && Matched(m1, r1, NOHOLE)
    && Unknown(r1, np.pagetable) && Frame(m1, r1, mem, role, np.pagetable, 0)
  }

  /** allocproc, for the pages of the new process: its trapframe and an empty page table. */
  method Allocproc(vm: Vm, trampoline: nat) returns (ok: bool, np: Proc, ghost m1: Memory, ghost r1: Roles)
    requires vm.Valid() && trampoline != 0 && trampoline !in vm.role
    modifies vm
    ensures vm.Valid() && (!ok ==> Restored(old(vm.mem), old(vm.role), vm.mem, vm.role))
    ensures if ok then |old(vm.free)| <= |vm.free| + 6 else |old(vm.free)| < 6
    ensures ok ==>
        np.sz == 0 && ProcOk(vm.mem, vm.role, np) && Born(old(vm.mem), old(vm.role), m1, r1, vm.mem, vm.role, np)
  {
    var t := vm.Kalloc();
    np, m1, r1 := Proc(0, 0, t), vm.mem, vm.role;
    if t == 0 {
      NothingAdded(vm.mem, vm.role);
      return false, np, m1, r1;
    }
    var d := ProcPagetable(vm, trampoline, t);
    ok := d != 0;
    if ok {
      np := Proc(d, 0, t);
      RoundedIs(0);
      assert FramePage(m1, r1, vm.mem, vm.role, d, t);
    } else {
      ghost var m2, r2 := vm.mem, vm.role;
      assert RestoredPage(m1, r1, m2, r2, t);
      var freed := vm.Release(t);
      RestoredByFreeing(old(vm.mem), old(vm.role), m1, r1, m2, r2, vm.mem, vm.role, t);
    }
  }

  // ----- the trapframe of the child -----

  /** sizeof(struct trapframe), and where its field a0 is. */
  const FRAMESIZE: nat := 288
  const A0: nat := 112

  /** The child's trapframe page: the parent's trapframe, but fork returns 0. */
  function ChildFrame(parent: seq<byte>, child: seq<byte>): (d: seq<byte>)
    requires |parent| == PGSIZE && |child| == PGSIZE
    ensures |d| == PGSIZE
    ensures forall k :: 0 <= k < FRAMESIZE ==> d[k] == if A0 <= k < A0 + 8 then 0 else parent[k]
  {
    parent[..A0] + Fill(0, 8) + parent[A0 + 8..FRAMESIZE] + child[FRAMESIZE..]
  }

  /** The bytes of a held page are of no concern to any address space. */
  lemma HeldChanged(mem: Memory, role: Roles, mem': Memory, p: Proc, t: nat, d: seq<byte>)
    requires Matched(mem, role, NOHOLE) && ProcOk(mem, role, p) && t in role && role[t].Held?
    requires mem' == mem[t := Bytes(d)]
    ensures ProcOk(mem', role, p) && Kept(mem, role, mem', role, p.pagetable, 0, 0)
  {
    assert PageOk(mem, role, t, NOHOLE);
    forall a: nat | IsPage(a) ensures AddrKept(mem, role, mem', role, p.pagetable, a) {
      SameTablesSameEntries(mem, mem', role, p.pagetable, Px(2, a), Px(1, a), Px(0, a));
    }
    forall a: nat | IsPage(a) ensures PlaceOk(mem', role, p.pagetable, PgRoundUp(p.sz), TOP_PAGES, a) {
      assert PlaceOk(mem, role, p.pagetable, PgRoundUp(p.sz), TOP_PAGES, a)
          && AddrKept(mem, role, mem', role, p.pagetable, a);
    }
    assert AddrKept(mem, role, mem', role, p.pagetable, TRAPFRAME);
  }

  lemma StaysCopied(mem: Memory, role: Roles, mem': Memory, p: Proc, np: Proc)
    requires ProcOk(mem, role, p) && ProcOk(mem, role, np) && np.sz == p.sz
    requires Copied(mem, p.pagetable, np.pagetable, PgRoundUp(p.sz))
    requires Kept(mem, role, mem', role, p.pagetable, 0, 0) && Kept(mem, role, mem', role, np.pagetable, 0, 0)
    ensures Copied(mem', p.pagetable, np.pagetable, PgRoundUp(p.sz))
  {
    var s, d, n := p.pagetable, np.pagetable, PgRoundUp(p.sz);
    forall a: nat | IsPage(a) && a < n ensures CopiedPage(mem', s, d, a) {
      assert CopiedPage(mem, s, d, a) && AddrKept(mem, role, mem', role, s, a) && AddrKept(mem, role, mem', role, d, a);
      CopyKept(mem, role, mem', role, s, n, TOP_PAGES, d, n, TOP_PAGES, a);
    }
  }

  /** The child's trapframe is the parent's, with a0 cleared. */
  ghost predicate FrameCopied(mem: Memory, from: nat, to: nat) {
    && from in mem && to in mem && mem[from].Bytes? && mem[to].Bytes? && |mem[from].data| == |mem[to].data| == PGSIZE
    && forall k :: 0 <= k < FRAMESIZE ==> mem[to].data[k] == if A0 <= k < A0 + 8 then 0 else mem[from].data[k]
  }

  method CopyTrapframe(vm: Vm, p: Proc, np: Proc)
    requires vm.Valid() && ProcOk(vm.mem, vm.role, p) && ProcOk(vm.mem, vm.role, np) && np.sz == p.sz
    requires np.trapframe != p.trapframe && Copied(vm.mem, p.pagetable, np.pagetable, PgRoundUp(p.sz))
    modifies vm`mem
    ensures vm.Valid() && ProcOk(vm.mem, vm.role, p) && ProcOk(vm.mem, vm.role, np)
    ensures Copied(vm.mem, p.pagetable, np.pagetable, PgRoundUp(p.sz)) && FrameCopied(vm.mem, p.trapframe, np.trapframe)
    ensures np.trapframe in old(vm.mem) && vm.mem == old(vm.mem)[np.trapframe := vm.mem[np.trapframe]]
  {
    assert PageOk(vm.mem, vm.role, p.trapframe, NOHOLE) && PageOk(vm.mem, vm.role, np.trapframe, NOHOLE);
    var d := ChildFrame(vm.mem[p.trapframe].data, vm.mem[np.trapframe].data);
    DataKeeps(vm.mem, vm.role, np.trapframe, d);
    ghost var m := vm.mem;
    vm.mem := vm.mem[np.trapframe := Bytes(d)];
    ListedKept(m, vm.role, vm.mem, vm.role, vm.freelist, vm.free);
    HeldChanged(m, vm.role, vm.mem, p, np.trapframe, d);
    HeldChanged(m, vm.role, vm.mem, np, np.trapframe, d);
    StaysCopied(m, vm.role, vm.mem, p, np);
  }

  lemma AddedStays(m0: Memory, r0: Roles, mem: Memory, role: Roles, t: nat, x: Page)
    requires Added(m0, r0, mem, role) && t in r0 && r0[t].Free?
    ensures Added(m0, r0, mem[t := x], role)
  {
    forall q | q in r0 ensures AddedPage(m0, r0, mem[t := x], role, q) {
      assert AddedPage(m0, r0, mem, role, q);
    }
  }

  /** The parent is as it was. */
  lemma ParentSame(m0: Memory, r0: Roles, mem: Memory, role: Roles, p: Proc, d: nat)
    requires Matched(m0, r0, NOHOLE) && mem.Keys == m0.Keys && ProcOk(m0, r0, p) && Unknown(r0, d)
    requires Frame(m0, r0, mem, role, d, 0) && Live(r0, p.pagetable)
    ensures ProcOk(mem, role, p)
  {
    assert r0[p.pagetable].At?;
    OtherSpace(m0, r0, mem, role, d, p.pagetable, PgRoundUp(p.sz), TOP_PAGES);
    assert FramePage(m0, r0, mem, role, d, p.trapframe) && AddrKept(m0, r0, mem, role, p.pagetable, TRAPFRAME);
  }

  /** The pages of fork: a trapframe, a page table and a copy of the parent's memory. Returns
      0 and the child, which has the same memory and trapframe but for a0, or -1 with every
      page as it was. It fails only if there were not enough free pages: six, and three for
      each page of memory. */
  method Fork(vm: Vm, trampoline: nat, p: Proc) returns (rc: int, np: Proc)
    requires vm.Valid() && ProcOk(vm.mem, vm.role, p) && trampoline != 0 && trampoline !in vm.role
    modifies vm
    ensures vm.Valid() && (rc == 0 || rc == -1)
    ensures rc == -1 ==> Restored(old(vm.mem), old(vm.role), vm.mem, vm.role)
    ensures rc == 0 ==> Added(old(vm.mem), old(vm.role), vm.mem, vm.role)
    ensures rc == 0 ==>
        np.sz == p.sz && np.pagetable != p.pagetable && ProcOk(vm.mem, vm.role, np)
        && Copied(vm.mem, p.pagetable, np.pagetable, PgRoundUp(p.sz)) && FrameCopied(vm.mem, p.trapframe, np.trapframe)
    ensures rc == -1 ==> |old(vm.free)| < 6 + 3 * PagesIn(0, PgRoundUp(p.sz))
  {
    var ok;
    ghost var m1, r1;
    ok, np, m1, r1 := Allocproc(vm, trampoline);
    if !ok {
      return -1, np;
    }
    ParentKept(old(vm.mem), old(vm.role), m1, r1, p, np.trapframe);
    rc := ForkCopy(vm, p, np, m1, r1);
    if rc == 0 {
      AddedByRoot(old(vm.mem), old(vm.role), m1, r1, vm.mem, vm.role, np.trapframe, np.pagetable);
      ParentSame(m1, r1, vm.mem, vm.role, p, np.pagetable);
      np := np.(sz := p.sz);
      ghost var m := vm.mem;
      CopyTrapframe(vm, p, np);
      AddedStays(old(vm.mem), old(vm.role), m, vm.role, np.trapframe, vm.mem[np.trapframe]);
    } else {
      ok := Unborn(vm, np, old(vm.mem), old(vm.role), m1, r1);
    }
  }

  /** freeproc of a process that has not run yet. */
  method Unborn(vm: Vm, np: Proc, ghost m0: Memory, ghost r0: Roles, ghost m1: Memory, ghost r1: Roles)
      returns (ok: bool)
    requires vm.Valid() && ProcOk(vm.mem, vm.role, np) && Born(m0, r0, m1, r1, vm.mem, vm.role, np)
    modifies vm
    ensures ok && vm.Valid() && Restored(m0, r0, vm.mem, vm.role)
  {
    ghost var m4, r4;
    ok, m4, r4 := Freeproc(vm, np);
    RestoredByBoth(m0, r0, m1, r1, old(vm.mem), old(vm.role), m4, r4, vm.mem, vm.role, np.trapframe, np.pagetable);
  }

  /** growproc: the size changes by n, modulo 2^64, or not at all; memory that stays keeps
      its contents. A size that would wrap below zero leaves the process as it is. */
  method Growproc(vm: Vm, p: Proc, n: int) returns (rc: int, p': Proc)
    requires vm.Valid() && ProcOk(vm.mem, vm.role, p) && -0x8000_0000 <= n < 0x8000_0000 && p.sz < U64 - 0x8000_0000
    modifies vm
    ensures vm.Valid() && Frame(old(vm.mem), old(vm.role), vm.mem, vm.role, p.pagetable, 0)
        && ProcOk(vm.mem, vm.role, p')
    ensures p' == p.(sz := if rc != 0 || p.sz + n < 0 then p.sz else p.sz + n) && (rc == 0 || (rc == -1 && n > 0))
    ensures Kept(old(vm.mem), old(vm.role), vm.mem, vm.role, p.pagetable,
                 PgRoundUp(if p'.sz < p.sz then p'.sz else p.sz), PgRoundUp(if p'.sz < p.sz then p.sz else p'.sz))
    ensures rc == 0 && n > 0 ==>
        Blank(vm.mem, p.pagetable, PgRoundUp(p.sz), PgRoundUp(p'.sz), Perm(true, true, false, true, 0))
    ensures rc == -1 ==> |old(vm.free)| < 3 * PagesIn(PgRoundUp(p.sz), PgRoundUp(p.sz + n))
  {
    rc, p' := 0, p;
    if n > 0 {
      rc, p' := Grow(vm, p, n);
    } else if n < 0 {
      p' := Shrink(vm, p, (p.sz + n) % U64);
    } else {
      NothingChanged(vm.mem, vm.role, p.pagetable, PgRoundUp(p.sz));
    }
  }

  /** The process keeps its trapframe when its user memory changes. */
  lemma SameTrapframe(m0: Memory, r0: Roles, mem: Memory, role: Roles, p: Proc, sz: nat, lo: nat, hi: nat)
    requires ProcOk(m0, r0, p)
    requires Frame(m0, r0, mem, role, p.pagetable, 0) && Kept(m0, r0, mem, role, p.pagetable, lo, hi)
    requires 0 !in r0 && hi <= TRAPFRAME && Space(mem, role, p.pagetable, PgRoundUp(sz), TOP_PAGES)
    ensures ProcOk(mem, role, p.(sz := sz))
  {
    assert FramePage(m0, r0, mem, role, p.pagetable, p.trapframe);
    assert AddrKept(m0, r0, mem, role, p.pagetable, TRAPFRAME);
  }

  /** growproc for n > 0. */
  method Grow(vm: Vm, p: Proc, n: nat) returns (rc: int, p': Proc)
    requires vm.Valid() && ProcOk(vm.mem, vm.role, p) && n > 0
    modifies vm
    ensures vm.Valid() && Frame(old(vm.mem), old(vm.role), vm.mem, vm.role, p.pagetable, 0)
        && ProcOk(vm.mem, vm.role, p')
    ensures (rc == 0 || rc == -1) && p' == p.(sz := if rc == 0 then p.sz + n else p.sz)
    ensures Kept(old(vm.mem), old(vm.role), vm.mem, vm.role, p.pagetable, PgRoundUp(p.sz), PgRoundUp(p'.sz))
    ensures rc == 0 ==>
        Blank(vm.mem, p.pagetable, PgRoundUp(p.sz), PgRoundUp(p'.sz), Perm(true, true, false, true, 0))
    ensures rc == -1 ==> |old(vm.free)| < 3 * PagesIn(PgRoundUp(p.sz), PgRoundUp(p.sz + n))
  {
    var sz;
    ghost var grew;
    sz, grew := vm.Uvmalloc(p.pagetable, p.sz, p.sz + n, true, false, TOP_PAGES);
    rc, p' := if sz == 0 then -1 else 0, if sz == 0 then p else p.(sz := sz);
    SpaceFits(vm.mem, vm.role, p.pagetable, PgRoundUp(p'.sz), TOP_PAGES, vm.lo, vm.hi);
    SameTrapframe(old(vm.mem), old(vm.role), vm.mem, vm.role, p, p'.sz, PgRoundUp(p.sz), PgRoundUp(p'.sz));
  }

  /** growproc for n < 0, with the new size modulo 2^64. */
  method Shrink(vm: Vm, p: Proc, newsz: nat) returns (p': Proc)
    requires vm.Valid() && ProcOk(vm.mem, vm.role, p)
    modifies vm
    ensures vm.Valid() && Frame(old(vm.mem), old(vm.role), vm.mem, vm.role, p.pagetable, 0)
        && ProcOk(vm.mem, vm.role, p')
    ensures p' == p.(sz := if newsz < p.sz then newsz else p.sz)
    ensures Kept(old(vm.mem), old(vm.role), vm.mem, vm.role, p.pagetable, PgRoundUp(p'.sz), PgRoundUp(p.sz))
  {
    SpaceFits(vm.mem, vm.role, p.pagetable, PgRoundUp(p.sz), TOP_PAGES, vm.lo, vm.hi);
    var ok, sz := vm.Uvmdealloc(p.pagetable, p.sz, newsz, TOP_PAGES);
    p' := p.(sz := sz);
    SameTrapframe(old(vm.mem), old(vm.role), vm.mem, vm.role, p, sz, PgRoundUp(sz), PgRoundUp(p.sz));
  }
}
