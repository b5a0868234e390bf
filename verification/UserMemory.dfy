/** Building, copying and freeing whole address spaces (kernel/vm.c, kernel/proc.c). */
module UserMemory {
  import opened PageFormat
  import opened PageTree
  import opened PageFrames
  import opened Vm

  // ----- freewalk -----

  /** Place p is in the subtree at anc. */
  ghost predicate Under(p: Path, anc: Path) {
    p == anc || (p.Step? && Under(p.up, anc))
  }

  lemma {:induction false} UnderDepth(p: Path, anc: Path)
    requires Under(p, anc)
    ensures Depth(p) >= Depth(anc) && Origin(p) == Origin(anc)
    decreases p
  {
    if p != anc { UnderDepth(p.up, anc); }
  }

  lemma {:induction false} UnderUp(p: Path, anc: Path, i: nat)
    requires Under(p, Step(anc, i))
    ensures Under(p, anc)
    decreases p
  {
    if p != Step(anc, i) { UnderUp(p.up, anc, i); }
  }

  lemma {:induction false} UnderRoot(p: Path, r: nat)
    ensures Under(p, Root(r)) <==> Origin(p) == r
    decreases p
  {
    if p.Step? { UnderRoot(p.up, r); }
  }

  /** No last-level table under path has an entry. */
  ghost predicate NoLeafUnder(mem: Memory, role: Roles, path: Path) {
    forall q {:trigger ClearTo(mem, q, ENTRIES)} ::
        q in role && role[q].At? && Depth(role[q].path) == 2 && Under(role[q].path, path) ==> ClearTo(mem, q, ENTRIES)
  }

  /** Page q is kept, or was under path and is freed. Entries of page p itself may be cleared. */
  ghost predicate PrunedPage(m0: Memory, r0: Roles, mem: Memory, role: Roles, path: Path, p: nat, q: nat) {
    && q in r0 && q in role && q in m0 && q in mem
    && (|| (role[q] == r0[q] && (q != p ==> mem[q] == m0[q]))
        || (q != p && r0[q].At? && Under(r0[q].path, path) && role[q].Free?))
  }

  ghost predicate Pruning(m0: Memory, r0: Roles, mem: Memory, role: Roles, path: Path, p: nat) {
    && role.Keys == r0.Keys
    && forall q {:trigger PrunedPage(m0, r0, mem, role, path, p, q)} :: q in r0
        ==> PrunedPage(m0, r0, mem, role, path, p, q)
  }

  /** The pages under path are free, and all others are as before. */
  ghost predicate GonePage(m0: Memory, r0: Roles, mem: Memory, role: Roles, path: Path, q: nat) {
    && q in r0 && q in role && q in m0 && q in mem
    && if r0[q].At? && Under(r0[q].path, path) then role[q].Free? else role[q] == r0[q] && mem[q] == m0[q]
  }

  ghost predicate Gone(m0: Memory, r0: Roles, mem: Memory, role: Roles, path: Path) {
    && role.Keys == r0.Keys
    && forall q {:trigger GonePage(m0, r0, mem, role, path, q)} :: q in r0 ==> GonePage(m0, r0, mem, role, path, q)
  }

  /** Under a table without entries there is no other page. */
  lemma {:induction false} NothingUnder(mem: Memory, role: Roles, p: nat, q: nat)
    requires Matched(mem, role, NOHOLE) && p in role && role[p].At? && ClearTo(mem, p, ENTRIES)
    requires q in role && role[q].At? && Under(role[q].path, role[p].path)
    ensures q == p
    decreases Depth(role[q].path)
  {
    assert PageOk(mem, role, q, NOHOLE);
    if role[q].path == role[p].path {
      PlaceIsUnique(mem, role, NOHOLE, p, q);
    } else {
      NothingUnder(mem, role, p, role[q].parent);
      assert false;
    }
  }

  /** What freewalk finds in entry i of page p. */
  lemma FreewalkEntry(mem: Memory, role: Roles, p: nat, i: nat)
    requires Matched(mem, role, NOHOLE) && p in role && role[p].At? && Depth(role[p].path) <= 2 && i < ENTRIES
    requires NoLeafUnder(mem, role, role[p].path)
    ensures p in mem && mem[p].Table? && |mem[p].ptes| == ENTRIES
    ensures var e := mem[p].ptes[i];
            e.v ==>
              Depth(role[p].path) < 2 && IsDir(e) && e.pa != 0 && e.pa in role
              && role[e.pa] == At(Step(role[p].path, i), p)
  {
    assert PageOk(mem, role, p, NOHOLE);
    assert WordOk(role, p, role[p].path, i, mem[p].ptes[i]);
    if Depth(role[p].path) == 2 { assert ClearTo(mem, p, ENTRIES); }
  }

  lemma NoLeafBelow(mem: Memory, role: Roles, path: Path, i: nat)
    requires NoLeafUnder(mem, role, path)
    ensures NoLeafUnder(mem, role, Step(path, i))
  {
    forall q | q in role && role[q].At? && Depth(role[q].path) == 2 && Under(role[q].path, Step(path, i))
        ensures ClearTo(mem, q, ENTRIES) {
      UnderUp(role[q].path, path, i);
    }
  }

  lemma PruneTwice(m0: Memory, r0: Roles, m1: Memory, r1: Roles, m2: Memory, r2: Roles, path: Path, p: nat)
    requires Pruning(m0, r0, m1, r1, path, p) && Pruning(m1, r1, m2, r2, path, p)
    ensures Pruning(m0, r0, m2, r2, path, p)
  {
    forall q | q in r0 ensures PrunedPage(m0, r0, m2, r2, path, p, q) {
      assert PrunedPage(m0, r0, m1, r1, path, p, q) && PrunedPage(m1, r1, m2, r2, path, p, q);
    }
  }

  /** The subtree at entry i of p is gone. */
  lemma PruneFirst(m0: Memory, r0: Roles, mem: Memory, role: Roles, p: nat, i: nat)
    requires p in r0 && r0[p].At? && Gone(m0, r0, mem, role, Step(r0[p].path, i))
    ensures Pruning(m0, r0, mem, role, r0[p].path, p) && p in role && role[p] == r0[p] && p in mem && p in m0
        && mem[p] == m0[p]
  {
    forall q | q in r0 && r0[q].At? && Under(r0[q].path, Step(r0[p].path, i)) ensures Under(r0[q].path, r0[p].path)
        && q != p {
      UnderUp(r0[q].path, r0[p].path, i);
      UnderDepth(r0[q].path, Step(r0[p].path, i));
    }
    assert GonePage(m0, r0, mem, role, Step(r0[p].path, i), p);
    forall q | q in r0 ensures PrunedPage(m0, r0, mem, role, r0[p].path, p, q) {
      assert GonePage(m0, r0, mem, role, Step(r0[p].path, i), q);
    }
  }

  lemma PruneWord(m0: Memory, r0: Roles, mem: Memory, mem': Memory, role: Roles, path: Path, p: nat)
    requires Pruning(m0, r0, mem, role, path, p) && mem'.Keys == mem.Keys && forall q :: q in mem && q != p ==>
        mem'[q] == mem[q]
    ensures Pruning(m0, r0, mem', role, path, p)
  {
    forall q | q in r0 ensures PrunedPage(m0, r0, mem', role, path, p, q) {
      assert PrunedPage(m0, r0, mem, role, path, p, q);
    }
  }

  lemma PruneKeepsLeaves(m0: Memory, r0: Roles, mem: Memory, role: Roles, p: nat)
    requires p in r0 && r0[p].At? && p in role && role[p] == r0[p] && Pruning(m0, r0, mem, role, r0[p].path, p)
        && NoLeafUnder(m0, r0, r0[p].path)
    requires Depth(r0[p].path) < 2
    ensures NoLeafUnder(mem, role, r0[p].path)
  {
    forall q | q in role && role[q].At? && Depth(role[q].path) == 2 && Under(role[q].path, r0[p].path)
        ensures ClearTo(mem, q, ENTRIES) {
      assert PrunedPage(m0, r0, mem, role, r0[p].path, p, q);
      assert ClearTo(m0, q, ENTRIES);
    }
  }

  lemma PruneDone(m0: Memory, r0: Roles, mem: Memory, role: Roles, p: nat, mem': Memory, role': Roles)
    requires Matched(mem, role, NOHOLE) && p in r0 && r0[p].At? && p in role && role[p] == r0[p] && p in mem
        && ClearTo(mem, p, ENTRIES)
    requires Pruning(m0, r0, mem, role, r0[p].path, p)
    requires role' == role[p := Free] && mem'.Keys == mem.Keys && forall q :: q in mem && q != p ==> mem'[q] == mem[q]
    ensures Gone(m0, r0, mem', role', r0[p].path)
  {
    forall q | q in r0 ensures GonePage(m0, r0, mem', role', r0[p].path, q) {
      assert PrunedPage(m0, r0, mem, role, r0[p].path, p, q);
      if q != p && role[q].At? && Under(role[q].path, r0[p].path) {
        NothingUnder(mem, role, p, q);
      }
    }
  }

  /** freewalk frees the page-table pages under page p, once they have no leaves; ok is false
      where the kernel would panic. The entry that points to p is left to the caller. */
  method Freewalk(vm: Vm, p: nat) returns (ok: bool)
    requires vm.Valid() && p in vm.role && vm.role[p].At? && Depth(vm.role[p].path) <= 2
    requires NoLeafUnder(vm.mem, vm.role, vm.role[p].path)
    modifies vm
    ensures ok && vm.Sound(HoleOf(old(vm.role), p))
    ensures Gone(old(vm.mem), old(vm.role), vm.mem, vm.role, old(vm.role)[p].path)
    decreases 2 - Depth(vm.role[p].path)
  {
    ghost var path := vm.role[p].path;
    FreewalkEntry(vm.mem, vm.role, p, 0);
    assert forall q {:trigger PrunedPage(vm.mem, vm.role, vm.mem, vm.role, path, p, q)} :: q in vm.role ==>
        PrunedPage(vm.mem, vm.role, vm.mem, vm.role, path, p, q);
    var i := 0;
    while i < ENTRIES
      invariant i <= ENTRIES && vm.Valid() && p in vm.role && vm.role[p] == old(vm.role)[p] && ClearTo(vm.mem, p, i)
      invariant Pruning(old(vm.mem), old(vm.role), vm.mem, vm.role, path, p) && NoLeafUnder(vm.mem, vm.role, path)
    {
      ghost var m, ro := vm.mem, vm.role;
      FreewalkEntry(vm.mem, vm.role, p, i);
      var pte := vm.mem[p].ptes[i];
      if pte.v && !pte.r && !pte.w && !pte.x {
        ok := FreeChild(vm, p, i);
        PruneTwice(old(vm.mem), old(vm.role), m, ro, vm.mem, vm.role, path, p);
        if !ok { return; }
      } else if pte.v {
        return false;
      }
      i := i + 1;
    }
    ghost var m, ro := vm.mem, vm.role;
    DropKeeps(vm.mem, vm.role, p, vm.freelist);
    ok := vm.Kfree(p);
    PruneDone(old(vm.mem), old(vm.role), m, ro, p, vm.mem, vm.role);
  }

  /** The recursive call of freewalk for entry i of page p, which is then cleared. */
  method FreeChild(vm: Vm, p: nat, i: nat) returns (ok: bool)
    requires vm.Valid() && p in vm.role && vm.role[p].At? && Depth(vm.role[p].path) < 2 && i < ENTRIES
    requires NoLeafUnder(vm.mem, vm.role, vm.role[p].path) && Child(vm.mem, p, i) != 0
    modifies vm
    ensures ok && vm.Valid()
    ensures Pruning(old(vm.mem), old(vm.role), vm.mem, vm.role, old(vm.role)[p].path, p) && p in vm.role
        && vm.role[p] == old(vm.role)[p]
    ensures NoLeafUnder(vm.mem, vm.role, vm.role[p].path)
    ensures p in vm.mem && p in old(vm.mem) && old(vm.mem)[p].Table? && i < |old(vm.mem)[p].ptes|
        && vm.mem[p] == Table(old(vm.mem)[p].ptes[i := ZERO])
    decreases 2 - Depth(vm.role[p].path), 0
  {
    ghost var path := vm.role[p].path;
    FreewalkEntry(vm.mem, vm.role, p, i);
    var child := vm.mem[p].ptes[i].pa;
    NoLeafBelow(vm.mem, vm.role, path, i);
    ok := Freewalk(vm, child);
    ghost var m := vm.mem;
    assert GonePage(old(vm.mem), old(vm.role), m, vm.role, Step(path, i), child);
    PruneFirst(old(vm.mem), old(vm.role), m, vm.role, p, i);
    assert PageOk(vm.mem, vm.role, p, (p, i));
    HoleKeeps(vm.mem, vm.role, p, i);
    vm.mem := vm.mem[p := Table(vm.mem[p].ptes[i := ZERO])];
    ListedKept(m, vm.role, vm.mem, vm.role, vm.freelist, vm.free);
    PruneWord(old(vm.mem), old(vm.role), m, vm.mem, vm.role, path, p);
    PruneKeepsLeaves(old(vm.mem), old(vm.role), vm.mem, vm.role, p);
  }

  // ----- whole address spaces -----

  /** The free pages and those of root r are free, and all others are as before. */
  ghost predicate FreedPage(m0: Memory, r0: Roles, mem: Memory, role: Roles, r: nat, q: nat) {
    && q in r0 && q in role && q in m0 && q in mem
    && if Mine(r0[q], r) then role[q].Free? else role[q] == r0[q] && mem[q] == m0[q]
  }

  ghost predicate Freed(m0: Memory, r0: Roles, mem: Memory, role: Roles, r: nat) {
    && role.Keys == r0.Keys
    && forall q {:trigger FreedPage(m0, r0, mem, role, r, q)} :: q in r0 ==> FreedPage(m0, r0, mem, role, r, q)
  }

  lemma TwoSteps(p: Path, r: nat) returns (i: nat, j: nat)
    requires Depth(p) == 2 && Origin(p) == r
    ensures p == LowPath(r, i, j)
  {
    assert Depth(p.up) == 1;
    assert Depth(p.up.up) == 0 && Origin(p.up.up) == Origin(p.up);
    i, j := p.up.index, p.index;
  }

  /** Without leaves under r, the tables of r can be freed. */
  lemma EmptySpace(mem: Memory, role: Roles, r: nat)
    requires Matched(mem, role, NOHOLE) && Space(mem, role, r, 0, {})
    ensures NoLeafUnder(mem, role, Root(r))
  {
    forall q | q in role && role[q].At? && Depth(role[q].path) == 2 && Under(role[q].path, Root(r))
        ensures ClearTo(mem, q, ENTRIES) {
      UnderRoot(role[q].path, r);
      assert PageOk(mem, role, q, NOHOLE);
      var i, j := TwoSteps(role[q].path, r);
      LowEntry(mem, role, r, i, j, q);
      TopEntry(mem, role, r, i, j, q);
      forall k | 0 <= k < ENTRIES ensures !mem[q].ptes[k].v {
        Unjoined(i, j, k);
        var a := ((i * 512 + j) * 512 + k) * PGSIZE;
        assert PlaceOk(mem, role, r, 0, {}, a);
      }
    }
  }

  lemma TopEntry(mem: Memory, role: Roles, r: nat, i: nat, j: nat, q: nat)
    requires Matched(mem, role, NOHOLE) && IsAt(role, q, LowPath(r, i, j))
    ensures i < TOPS
  {
    LowEntry(mem, role, r, i, j, q);
    assert PageOk(mem, role, q, NOHOLE);
    assert PageOk(mem, role, role[q].parent, NOHOLE);
    assert PageOk(mem, role, r, NOHOLE);
    assert WordOk(role, r, Root(r), i, mem[r].ptes[i]);
  }

  lemma FreedByBoth(m0: Memory, r0: Roles, m1: Memory, r1: Roles, m2: Memory, r2: Roles, r: nat)
    requires Frame(m0, r0, m1, r1, r, 0) && 0 !in r0 && Gone(m1, r1, m2, r2, Root(r))
    ensures Freed(m0, r0, m2, r2, r)
  {
    forall q | q in r0 ensures FreedPage(m0, r0, m2, r2, r, q) {
      assert FramePage(m0, r0, m1, r1, r, q) && GonePage(m1, r1, m2, r2, Root(r), q);
      if r1[q].At? { UnderRoot(r1[q].path, r); }
    }
  }

  /** uvmfree: user memory and then the page table; ok is false where the kernel would panic. */
  method Uvmfree(vm: Vm, r: nat, sz: nat) returns (ok: bool)
    requires vm.Valid() && Space(vm.mem, vm.role, r, PgRoundUp(sz), {})
    modifies vm
    ensures ok && vm.Valid() && Freed(old(vm.mem), old(vm.role), vm.mem, vm.role, r)
  {
    ok := true;
    NothingChanged(vm.mem, vm.role, r, 0);
    RoundedOrder(0, sz);
    RoundedIs(0);
    if sz > 0 {
      SpaceMapped(vm.mem, vm.role, r, PgRoundUp(sz), {}, 0);
      ok := vm.Uvmunmap(r, 0, PgRoundUp(sz) / PGSIZE, true);
      if !ok { return; }
      ShrunkSpace(old(vm.mem), old(vm.role), vm.mem, vm.role, r, 0, PgRoundUp(sz), {});
    }
    ghost var m, ro := vm.mem, vm.role;
    EmptySpace(vm.mem, vm.role, r);
    ok := Freewalk(vm, r);
    FreedByBoth(old(vm.mem), old(vm.role), m, ro, vm.mem, vm.role, r);
  }

  /** The pages that were free are free, and all others are as before. */
  ghost predicate RestoredPage(m0: Memory, r0: Roles, mem: Memory, role: Roles, q: nat) {
    && q in r0 && q in role && q in m0 && q in mem
    && if r0[q].Free? then role[q].Free? else role[q] == r0[q] && mem[q] == m0[q]
  }

  ghost predicate Restored(m0: Memory, r0: Roles, mem: Memory, role: Roles) {
    && role.Keys == r0.Keys
    && forall q {:trigger RestoredPage(m0, r0, mem, role, q)} :: q in r0 ==> RestoredPage(m0, r0, mem, role, q)
  }

  /** No page is in the tree of r. */
  ghost predicate Unknown(role: Roles, r: nat) {
    forall q {:trigger role[q]} :: q in role && role[q].At? ==> Origin(role[q].path) != r
  }

  lemma NotLiveUnknown(mem: Memory, role: Roles, r: nat)
    requires Matched(mem, role, NOHOLE) && !Live(role, r)
    ensures Unknown(role, r)
  {
    forall q | q in role && role[q].At? ensures Origin(role[q].path) != r {
      Reached(mem, role, q);
    }
  }

  /** What was done with a new root r is undone by freeing it. */
  lemma RestoredByFree(m0: Memory, r0: Roles, m1: Memory, r1: Roles, m2: Memory, r2: Roles, r: nat)
    requires Frame(m0, r0, m1, r1, r, 0) && 0 !in r0 && Unknown(r0, r) && Freed(m1, r1, m2, r2, r)
    ensures Restored(m0, r0, m2, r2)
  {
    forall q | q in r0 ensures RestoredPage(m0, r0, m2, r2, q) {
      assert FramePage(m0, r0, m1, r1, r, q) && FreedPage(m1, r1, m2, r2, r, q);
    }
  }

  /** uvmcreate: a new root without mappings, or 0. */
  method Uvmcreate(vm: Vm) returns (r: nat)
    requires vm.Valid()
    modifies vm
    ensures vm.Valid() && if r == 0 then unchanged(vm) && vm.free == [] else |old(vm.free)| == |vm.free| + 1
    ensures r != 0 ==>
        Space(vm.mem, vm.role, r, 0, {}) && Unknown(old(vm.role), r)
        && Frame(old(vm.mem), old(vm.role), vm.mem, vm.role, r, 0)
  {
    r := vm.Kalloc();
    if r == 0 {
      return;
    }
    ghost var m, ro := vm.mem, vm.role;
    RootKeeps(vm.mem, vm.role, r);
    vm.mem := vm.mem[r := EMPTY];
    vm.role := vm.role[r := At(Root(r), 0)];
    ListedKept(m, ro, vm.mem, vm.role, vm.freelist, vm.free);
    NotLiveUnknown(old(vm.mem), old(vm.role), r);
    NewRoot(old(vm.mem), old(vm.role), vm.mem, vm.role, r);
  }

  lemma NewRoot(mem: Memory, role: Roles, mem': Memory, role': Roles, r: nat)
    requires Matched(mem, role, NOHOLE) && r in role && role[r].Free? && 0 !in role
    requires mem' == mem[r := Bytes(JUNK)][r := EMPTY] && role' == role[r := Held][r := At(Root(r), 0)]
    ensures Space(mem', role', r, 0, {}) && Frame(mem, role, mem', role', r, 0)
  {
    forall q | q in role ensures FramePage(mem, role, mem', role', r, q) {
    }
    forall a: nat | IsPage(a) ensures PlaceOk(mem', role', r, 0, {}, a) {
      assert Child(mem', r, Px(2, a)) == 0;
    }
  }

  const PERM_RX := Perm(true, false, true, false, 0)
  const PERM_RW := Perm(true, true, false, false, 0)

  /** Mapping the page at pa, which r does not own, at the top address a. */
  method MapTop(vm: Vm, r: nat, a: nat, pa: nat, perm: Perm, ghost ext: set<nat>) returns (ok: bool)
    requires vm.Valid() && Space(vm.mem, vm.role, r, 0, ext) && a !in ext && a in {TRAMPOLINE, TRAPFRAME}
        && LeafPerm(perm) && !perm.u
    requires pa != 0 && (pa in vm.role ==> vm.role[pa].Held?)
    modifies vm
    ensures vm.Valid() && Space(vm.mem, vm.role, r, 0, if ok then ext + {a} else ext)
    ensures if ok then |old(vm.free)| <= |vm.free| + 2 else |old(vm.free)| < 2
    ensures ok ==> Lookup(vm.mem, r, a) == Leaf(pa, perm)
    ensures Frame(old(vm.mem), old(vm.role), vm.mem, vm.role, r, 0)
        && Kept(old(vm.mem), old(vm.role), vm.mem, vm.role, r, a, if ok then a + PGSIZE else a)
  {
    TopUnmapped(vm.mem, vm.role, r, ext, a);
    var rc, n := vm.Mappages(r, a, PGSIZE, pa, perm, false);
    ok := rc == 0;
    OnePage(vm.mem, r, a, n, pa, perm);
    if pa in old(vm.role) { assert FramePage(old(vm.mem), old(vm.role), vm.mem, vm.role, r, pa); }
    TopSpace(old(vm.mem), old(vm.role), vm.mem, vm.role, r, a, pa, perm, ext, ok);
  }

  lemma TopUnmapped(mem: Memory, role: Roles, r: nat, ext: set<nat>, a: nat)
    requires Space(mem, role, r, 0, ext) && a !in ext && a in {TRAMPOLINE, TRAPFRAME}
    ensures Unmapped(mem, r, a, a + PGSIZE) && IsPage(a)
  {
    forall b: nat | IsPage(b) && a <= b < a + PGSIZE ensures !Lookup(mem, r, b).v {
      assert b == a && PlaceOk(mem, role, r, 0, ext, a);
    }
  }

  /** A range of one page is mapped whole or not at all. */
  lemma OnePage(mem: Memory, r: nat, a: nat, n: nat, pa: nat, perm: Perm)
    requires IsPage(a) && n <= PGSIZE && Multiple(n) && MappedTo(mem, r, a, n, pa, perm)
    ensures n == 0 || (n == PGSIZE && Lookup(mem, r, a) == Leaf(pa, perm))
  {
  }

  lemma TopSpace(mem: Memory, role: Roles, mem': Memory, role': Roles, r: nat, a: nat, pa: nat, perm: Perm,
      ext: set<nat>, ok: bool)
    requires Space(mem, role, r, 0, ext) && Frame(mem, role, mem', role', r, 0) && Live(role', r)
        && mem.Keys == role.Keys && 0 !in role
    requires a in {TRAMPOLINE, TRAPFRAME} && a !in ext && !perm.u && (pa in role' ==> role'[pa].Held?)
    requires Kept(mem, role, mem', role', r, a, if ok then a + PGSIZE else a)
        && (ok ==> Lookup(mem', r, a) == Leaf(pa, perm))
    ensures Space(mem', role', r, 0, if ok then ext + {a} else ext)
  {
    var ext' := if ok then ext + {a} else ext;
    forall b: nat | IsPage(b) ensures PlaceOk(mem', role', r, 0, ext', b) {
      if a <= b < a + PGSIZE { OnlyPage(b, a); }
      if b != a || !ok {
        assert AddrKept(mem, role, mem', role', r, b) && PlaceOk(mem, role, r, 0, ext, b);
        var e := Lookup(mem, r, b);
        if e.pa in role { assert FramePage(mem, role, mem', role', r, e.pa); }
      }
    }
  }

  const TOP_PAGES: set<nat> := {TRAMPOLINE, TRAPFRAME}

  /** As PlaceOk, but an extra page may have been freed already. */
  ghost predicate LoosePlace(mem: Memory, role: Roles, r: nat, n: nat, ext: set<nat>, a: nat) {
    if a < n then Owns(mem, role, r, a) else if a in ext then Lookup(mem, r, a).v
        && !Owns(mem, role, r, a) else !Lookup(mem, r, a).v
  }

  ghost predicate Loose(mem: Memory, role: Roles, r: nat, n: nat, ext: set<nat>) {
    && Live(role, r) && n % PGSIZE == 0 && n <= TRAPFRAME && ext <= TOP_PAGES
    && forall a: nat {:trigger LoosePlace(mem, role, r, n, ext, a)} :: IsPage(a) ==> LoosePlace(mem, role, r, n, ext, a)
  }

  lemma SpaceIsLoose(mem: Memory, role: Roles, r: nat, n: nat, ext: set<nat>)
    requires Space(mem, role, r, n, ext)
    ensures Loose(mem, role, r, n, ext)
  {
    forall a: nat | IsPage(a) ensures LoosePlace(mem, role, r, n, ext, a) {
      assert PlaceOk(mem, role, r, n, ext, a);
    }
  }

  lemma LooseIsSpace(mem: Memory, role: Roles, r: nat, n: nat)
    requires Loose(mem, role, r, n, {})
    ensures Space(mem, role, r, n, {})
  {
    forall a: nat | IsPage(a) ensures PlaceOk(mem, role, r, n, {}, a) {
      assert LoosePlace(mem, role, r, n, {}, a);
    }
  }

  /** uvmunmap of the page at the top address a, which is not freed. */
  method UnmapTop(vm: Vm, r: nat, a: nat, ghost n: nat, ghost ext: set<nat>) returns (ok: bool)
    requires vm.Valid() && Loose(vm.mem, vm.role, r, n, ext) && a in ext
    modifies vm
    ensures ok && vm.Valid() && vm.role == old(vm.role) && Loose(vm.mem, vm.role, r, n, ext - {a})
    ensures Frame(old(vm.mem), old(vm.role), vm.mem, vm.role, r, 0)
  {
    TopMapped(vm.mem, vm.role, r, n, ext, a);
    ok := vm.Uvmunmap(r, a, 1, false);
    TopLoose(old(vm.mem), vm.mem, vm.role, r, n, ext, a);
  }

  lemma TopMapped(mem: Memory, role: Roles, r: nat, n: nat, ext: set<nat>, a: nat)
    requires Loose(mem, role, r, n, ext) && a in ext
    ensures Mapped(mem, role, r, a, a + PGSIZE, false) && IsPage(a)
  {
    assert a == TRAMPOLINE || a == TRAPFRAME;
    forall b: nat | IsPage(b) && a <= b < a + PGSIZE ensures Lookup(mem, r, b).v && !Owns(mem, role, r, b) {
      assert b == a && LoosePlace(mem, role, r, n, ext, a);
    }
  }

  lemma TopLoose(mem: Memory, mem': Memory, role: Roles, r: nat, n: nat, ext: set<nat>, a: nat)
    requires Loose(mem, role, r, n, ext) && a in ext && Unmapping(mem, role, mem', role, r, a, a + PGSIZE)
    ensures Loose(mem', role, r, n, ext - {a})
  {
    assert a == TRAMPOLINE || a == TRAPFRAME;
    forall b: nat | IsPage(b) ensures LoosePlace(mem', role, r, n, ext - {a}, b) {
      assert LoosePlace(mem, role, r, n, ext, b);
      if a <= b < a + PGSIZE {
        assert b == a && Lookup(mem', r, b) == ZERO;
      } else {
        assert AddrKept(mem, role, mem', role, r, b);
      }
    }
  }

  /** proc_pagetable: an empty address space with the trampoline and the trapframe, or 0. */
  method ProcPagetable(vm: Vm, trampoline: nat, trapframe: nat) returns (r: nat)
    requires vm.Valid() && trampoline != 0 && trampoline !in vm.role && trapframe in vm.role && vm.role[trapframe].Held?
    modifies vm
    ensures vm.Valid() && (r == 0 ==> Restored(old(vm.mem), old(vm.role), vm.mem, vm.role))
    ensures if r == 0 then |old(vm.free)| < 5 else |old(vm.free)| <= |vm.free| + 5
    ensures r != 0 ==>
        Space(vm.mem, vm.role, r, 0, TOP_PAGES) && Unknown(old(vm.role), r)
        && Frame(old(vm.mem), old(vm.role), vm.mem, vm.role, r, 0)
    ensures r != 0 ==>
        Lookup(vm.mem, r, TRAMPOLINE) == Leaf(trampoline, PERM_RX)
        && Lookup(vm.mem, r, TRAPFRAME) == Leaf(trapframe, PERM_RW)
  {
    r := Uvmcreate(vm);
    if r == 0 {
      assert forall q {:trigger RestoredPage(vm.mem, vm.role, vm.mem, vm.role, q)} :: q in vm.role ==>
          RestoredPage(vm.mem, vm.role, vm.mem, vm.role, q);
      return;
    }
    ghost var m, ro := vm.mem, vm.role;
    assert FramePage(old(vm.mem), old(vm.role), m, ro, r, trapframe);
    var mapped := MapBoth(vm, r, trampoline, trapframe);
    FrameTwice(old(vm.mem), old(vm.role), m, ro, vm.mem, vm.role, r, 0);
    if !mapped {
      m, ro := vm.mem, vm.role;
      RoundedIs(0);
      var ok := Uvmfree(vm, r, 0);
      RestoredByFree(old(vm.mem), old(vm.role), m, ro, vm.mem, vm.role, r);
      r := 0;
    }
  }

  /** The two mappings of proc_pagetable, the first undone if the second fails. */
  method MapBoth(vm: Vm, r: nat, trampoline: nat, trapframe: nat) returns (mapped: bool)
    requires vm.Valid() && Space(vm.mem, vm.role, r, 0, {})
    requires trampoline != 0 && trampoline !in vm.role && trapframe in vm.role && vm.role[trapframe].Held?
    modifies vm
    ensures vm.Valid() && Space(vm.mem, vm.role, r, 0, if mapped then TOP_PAGES else {})
    ensures Frame(old(vm.mem), old(vm.role), vm.mem, vm.role, r, 0)
    ensures if mapped then |old(vm.free)| <= |vm.free| + 4 else |old(vm.free)| < 4
    ensures mapped ==>
        Lookup(vm.mem, r, TRAMPOLINE) == Leaf(trampoline, PERM_RX)
        && Lookup(vm.mem, r, TRAPFRAME) == Leaf(trapframe, PERM_RW)
  {
    mapped := MapTop(vm, r, TRAMPOLINE, trampoline, PERM_RX, {});
    if !mapped {
      return;
    }
    assert FramePage(old(vm.mem), old(vm.role), vm.mem, vm.role, r, trapframe);
    assert {} + {TRAMPOLINE} == {TRAMPOLINE};
    mapped := MapSecond(vm, r, trampoline, trapframe, old(vm.mem), old(vm.role));
  }

  method MapSecond(vm: Vm, r: nat, ghost trampoline: nat, trapframe: nat, ghost m0: Memory, ghost r0: Roles)
      returns (mapped: bool)
    requires vm.Valid() && Space(vm.mem, vm.role, r, 0, {TRAMPOLINE})
        && Lookup(vm.mem, r, TRAMPOLINE) == Leaf(trampoline, PERM_RX)
    requires trapframe in vm.role && vm.role[trapframe].Held? && Frame(m0, r0, vm.mem, vm.role, r, 0)
    modifies vm
    ensures vm.Valid() && Space(vm.mem, vm.role, r, 0, if mapped then TOP_PAGES else {})
        && Frame(m0, r0, vm.mem, vm.role, r, 0)
    ensures if mapped then |old(vm.free)| <= |vm.free| + 2 else |old(vm.free)| < 2
    ensures mapped ==>
        Lookup(vm.mem, r, TRAMPOLINE) == Leaf(trampoline, PERM_RX)
        && Lookup(vm.mem, r, TRAPFRAME) == Leaf(trapframe, PERM_RW)
  {
    mapped := MapTop(vm, r, TRAPFRAME, trapframe, PERM_RW, {TRAMPOLINE});
    FrameTwice(m0, r0, old(vm.mem), old(vm.role), vm.mem, vm.role, r, 0);
    assert AddrKept(old(vm.mem), old(vm.role), vm.mem, vm.role, r, TRAMPOLINE);
    assert {TRAMPOLINE} + {TRAPFRAME} == TOP_PAGES;
    if !mapped {
      ghost var m, ro := vm.mem, vm.role;
      SpaceIsLoose(vm.mem, vm.role, r, 0, {TRAMPOLINE});
      var ok := UnmapTop(vm, r, TRAMPOLINE, 0, {TRAMPOLINE});
      FrameTwice(m0, r0, m, ro, vm.mem, vm.role, r, 0);
      assert {TRAMPOLINE} - {TRAMPOLINE} == {};
      LooseIsSpace(vm.mem, vm.role, r, 0);
    }
  }

  lemma FrameThenFreed(m0: Memory, r0: Roles, m1: Memory, r1: Roles, m2: Memory, r2: Roles, r: nat)
    requires Frame(m0, r0, m1, r1, r, 0) && 0 !in r0 && Freed(m1, r1, m2, r2, r)
    ensures Freed(m0, r0, m2, r2, r)
  {
    forall q | q in r0 ensures FreedPage(m0, r0, m2, r2, r, q) {
      assert FramePage(m0, r0, m1, r1, r, q) && FreedPage(m1, r1, m2, r2, r, q);
    }
  }

  /** proc_freepagetable */
  method ProcFreepagetable(vm: Vm, r: nat, sz: nat) returns (ok: bool)
    requires vm.Valid() && Loose(vm.mem, vm.role, r, PgRoundUp(sz), TOP_PAGES)
    modifies vm
    ensures ok && vm.Valid() && Freed(old(vm.mem), old(vm.role), vm.mem, vm.role, r)
  {
    ok := UnmapTop(vm, r, TRAMPOLINE, PgRoundUp(sz), TOP_PAGES);
    ghost var m, ro := vm.mem, vm.role;
    ok := UnmapTop(vm, r, TRAPFRAME, PgRoundUp(sz), TOP_PAGES - {TRAMPOLINE});
    FrameTwice(old(vm.mem), old(vm.role), m, ro, vm.mem, vm.role, r, 0);
    assert TOP_PAGES - {TRAMPOLINE} - {TRAPFRAME} == {};
    LooseIsSpace(vm.mem, vm.role, r, PgRoundUp(sz));
    m, ro := vm.mem, vm.role;
    ok := Uvmfree(vm, r, sz);
    FrameThenFreed(old(vm.mem), old(vm.role), m, ro, vm.mem, vm.role, r);
  }

  // ----- copying an address space -----

  /** Address a is mapped alike under s and d, to pages with the same bytes. */
  ghost predicate CopiedPage(mem: Memory, s: nat, d: nat, a: nat) {
    var e := Lookup(mem, s, a);
    var f := Lookup(mem, d, a);
    f == e.(pa := f.pa) && e.pa in mem && f.pa in mem && mem[f.pa] == mem[e.pa]
  }

  ghost predicate Copied(mem: Memory, s: nat, d: nat, n: nat) {
    forall a: nat {:trigger CopiedPage(mem, s, d, a)} :: IsPage(a) && a < n ==> CopiedPage(mem, s, d, a)
  }

  /** uvmcopy has copied the pages below i of s to d, and s is as it was. */
  ghost predicate Copying(vm: Vm, m0: Memory, r0: Roles, s: nat, n: nat, ext: set<nat>, d: nat, i: nat, dext: set<nat>)
    reads vm
  {
    && vm.Valid() && Space(vm.mem, vm.role, s, n, ext) && Space(vm.mem, vm.role, d, i, dext) && s != d && i <= n
    && Frame(m0, r0, vm.mem, vm.role, d, 0) && Kept(m0, r0, vm.mem, vm.role, d, 0, i) && Copied(vm.mem, s, d, i)
  }

  /** One round of uvmcopy. */
  method CopyOne(vm: Vm, s: nat, d: nat, i: nat, ghost m0: Memory, ghost r0: Roles, ghost n: nat, ghost ext: set<nat>,
      ghost dext: set<nat>) returns (ok: bool)
    requires Copying(vm, m0, r0, s, n, ext, d, i, dext) && i < n
    modifies vm
    ensures Copying(vm, m0, r0, s, n, ext, d, if ok then i + PGSIZE else i, dext)
    ensures if ok then |old(vm.free)| <= |vm.free| + 3 else |old(vm.free)| < 3
  {
    SourcePage(vm.mem, vm.role, s, n, ext, i);
    var pt, k := vm.Walk(s, i, false);
    LeafEntry(vm.mem, vm.role, s, i, pt);
    var pte := vm.mem[pt].ptes[k];
    ok := vm.GrowOne(d, i, vm.mem[pte.pa].data, Perm(pte.r, pte.w, pte.x, pte.u, pte.rest), dext);
    FrameTwice(m0, r0, old(vm.mem), old(vm.role), vm.mem, vm.role, d, 0);
    KeptTwice(m0, r0, old(vm.mem), old(vm.role), vm.mem, vm.role, d, 0, i, i, if ok then i + 1 else i, 0,
        if ok then i + PGSIZE else i);
    OtherSpace(old(vm.mem), old(vm.role), vm.mem, vm.role, d, s, n, ext);
    CopyNext(old(vm.mem), old(vm.role), vm.mem, vm.role, s, n, ext, d, i, dext, ok);
  }

  lemma SourcePage(mem: Memory, role: Roles, s: nat, n: nat, ext: set<nat>, i: nat)
    requires Matched(mem, role, NOHOLE) && Space(mem, role, s, n, ext) && i < n && i % PGSIZE == 0
    ensures IsPage(i) && Owns(mem, role, s, i) && Lookup(mem, s, i).pa in mem
    ensures mem[Lookup(mem, s, i).pa].Bytes? && |mem[Lookup(mem, s, i).pa].data| == PGSIZE && i + PGSIZE <= n
  {
    assert PlaceOk(mem, role, s, n, ext, i);
    assert PageOk(mem, role, Lookup(mem, s, i).pa, NOHOLE);
  }

  /** An operation on root d leaves the space of s as it is. */
  lemma OtherSpace(mem: Memory, role: Roles, mem': Memory, role': Roles, d: nat, s: nat, n: nat, ext: set<nat>)
    requires Matched(mem, role, NOHOLE) && mem'.Keys == mem.Keys && Frame(mem, role, mem', role', d, 0) && s != d
        && Space(mem, role, s, n, ext)
    ensures Space(mem', role', s, n, ext) && Kept(mem, role, mem', role', s, 0, 0)
  {
    OtherRoots(mem, role, mem', role', d, 0, s);
    forall a: nat | IsPage(a) ensures PlaceOk(mem', role', s, n, ext, a) {
      assert AddrKept(mem, role, mem', role', s, a) && PlaceOk(mem, role, s, n, ext, a);
      var e := Lookup(mem, s, a);
      if e.pa in role { assert FramePage(mem, role, mem', role', d, e.pa); }
    }
  }

  lemma CopyNext(mem: Memory, role: Roles, mem': Memory, role': Roles, s: nat, n: nat, ext: set<nat>, d: nat, i: nat,
      dext: set<nat>, ok: bool)
    requires Space(mem, role, s, n, ext) && Space(mem, role, d, i, dext) && Copied(mem, s, d, i) && i + PGSIZE <= n
        && i % PGSIZE == 0
    requires Kept(mem, role, mem', role', s, 0, 0) && Kept(mem, role, mem', role', d, i, if ok then i + 1 else i)
    requires var e, f := Lookup(mem, s, i), Lookup(mem', d, i);
             ok ==> f == e.(pa := f.pa) && f.pa in mem' && e.pa in mem && mem'[f.pa] == mem[e.pa]
    ensures Copied(mem', s, d, if ok then i + PGSIZE else i)
  {
    forall a: nat | IsPage(a) && a < (if ok then i + PGSIZE else i) ensures CopiedPage(mem', s, d, a) {
      if a < i {
        assert CopiedPage(mem, s, d, a) && AddrKept(mem, role, mem', role', s, a)
            && AddrKept(mem, role, mem', role', d, a);
        CopyKept(mem, role, mem', role', s, n, ext, d, i, dext, a);
      } else {
        OnlyPage(a, i);
        assert AddrKept(mem, role, mem', role', s, i) && PlaceOk(mem, role, s, n, ext, i);
      }
    }
  }

  lemma CopyKept(mem: Memory, role: Roles, mem': Memory, role': Roles, s: nat, n: nat, ext: set<nat>, d: nat, i: nat,
      dext: set<nat>, a: nat)
    requires Space(mem, role, s, n, ext) && Space(mem, role, d, i, dext) && IsPage(a) && a < i <= n
        && CopiedPage(mem, s, d, a)
    requires AddrKept(mem, role, mem', role', s, a) && AddrKept(mem, role, mem', role', d, a)
    ensures CopiedPage(mem', s, d, a)
  {
    assert PlaceOk(mem, role, s, n, ext, a) && PlaceOk(mem, role, d, i, dext, a);
  }

  /** uvmcopy of the first sz bytes of s to the empty space d. It fails only if there were not
      three free pages for each page. */
  method Uvmcopy(vm: Vm, s: nat, d: nat, sz: nat, ghost ext: set<nat>, ghost dext: set<nat>) returns (rc: int)
    requires vm.Valid() && s != d && Space(vm.mem, vm.role, s, PgRoundUp(sz), ext) && Space(vm.mem, vm.role, d, 0, dext)
    modifies vm
    ensures rc == 0 || rc == -1
    ensures Copying(vm, old(vm.mem), old(vm.role), s, PgRoundUp(sz), ext, d, if rc == 0 then PgRoundUp(sz) else 0, dext)
    ensures if rc == 0 then |old(vm.free)| <= |vm.free| + 3 * PagesIn(0, PgRoundUp(sz))
            else |old(vm.free)| < 3 * PagesIn(0, PgRoundUp(sz))
  {
    NothingChanged(vm.mem, vm.role, d, 0);
    var i := 0;
    ghost var j := 0;
    while i < sz
      invariant Copying(vm, old(vm.mem), old(vm.role), s, PgRoundUp(sz), ext, d, i, dext) && (i < sz + PGSIZE)
      invariant i == 4096 * j && |old(vm.free)| <= |vm.free| + 3 * j && j <= PagesIn(0, PgRoundUp(sz))
    {
      PagesReach(0, i, sz, j);
      var ok := CopyOne(vm, s, d, i, old(vm.mem), old(vm.role), PgRoundUp(sz), ext, dext);
      if !ok {
        var freed := CopyUndo(vm, s, d, i, old(vm.mem), old(vm.role), PgRoundUp(sz), ext, dext);
        return -1;
      }
      i, j := i + PGSIZE, j + 1;
    }
    RoundedIs(0);
    RoundedFrom(0, sz, i);
    rc := 0;
  }

  /** The error path of uvmcopy. */
  method CopyUndo(vm: Vm, s: nat, d: nat, i: nat, ghost m0: Memory, ghost r0: Roles, ghost n: nat, ghost ext: set<nat>,
      ghost dext: set<nat>) returns (ok: bool)
    requires Copying(vm, m0, r0, s, n, ext, d, i, dext) && Matched(m0, r0, NOHOLE) && Space(m0, r0, d, 0, dext)
    modifies vm
    ensures ok && Copying(vm, m0, r0, s, n, ext, d, 0, dext)
  {
    SpaceMapped(vm.mem, vm.role, d, i, dext, 0);
    ok := vm.Uvmunmap(d, 0, i / PGSIZE, true);
    ShrunkSpace(old(vm.mem), old(vm.role), vm.mem, vm.role, d, 0, i, dext);
    OtherSpace(old(vm.mem), old(vm.role), vm.mem, vm.role, d, s, n, ext);
    GrowUndone(m0, r0, old(vm.mem), old(vm.role), vm.mem, vm.role, d, 0, i, dext);
  }
}
