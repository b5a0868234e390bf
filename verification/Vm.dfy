/** The page allocator (kernel/kalloc.c) and virtual memory (kernel/vm.c). */
module Vm {
  import opened PageFormat
  import opened PageTree
  import opened PageFrames

  /** The pages of memory are those of [lo, hi). */
  ghost predicate AllPages(role: Roles, lo: nat, hi: nat) {
    0 < lo && lo % PGSIZE == 0 && hi <= TRAPFRAME && forall p {:trigger IsFrame(lo, hi, p)} :: p in role <==>
        IsFrame(lo, hi, p)
  }

  predicate IsFrame(lo: nat, hi: nat, p: int) {
    lo <= p && p + PGSIZE <= hi && p % PGSIZE == 0
  }

  /** memset */
  function Fill(b: byte, n: nat): (d: seq<byte>)
    ensures |d| == n && forall i :: 0 <= i < n ==> d[i] == b
  {
    seq(n, i => b)
  }

  const JUNK: seq<byte> := Fill(5, PGSIZE)
  const BLANK: seq<byte> := Fill(0, PGSIZE)

  class Vm {
    var mem: Memory
    var freelist: nat
    const lo: nat
    const hi: nat
    ghost var role: Roles
    ghost var free: seq<nat>

    ghost predicate Sound(hole: (nat, nat))
      reads this
    {
      Matched(mem, role, hole) && Listed(mem, role, freelist, free) && AllPages(role, lo, hi)
    }

    ghost predicate Valid()
      reads this
    {
      Sound(NOHOLE)
    }

    /** kalloc: a page from the head of the free list, or 0 if there is none. */
    method Kalloc() returns (pa: nat)
      requires Valid()
      modifies this
      ensures Valid() && (pa == 0 <==> old(free) == [])
      ensures pa == 0 ==> unchanged(this)
      ensures pa != 0 ==>
          pa in old(role) && old(role)[pa].Free? && role == old(role)[pa := Held]
          && mem == old(mem)[pa := Bytes(JUNK)]
      ensures pa != 0 ==> pa == old(free)[0] && free == old(free)[1..]
    {
      assert free != [] ==> free[0] in free && ListedPage(role, free, free[0]);
      pa := freelist;
      if pa != 0 {
        ListedPop(mem, role, freelist, free, Bytes(JUNK));
        AllocKeeps(mem, role, pa, JUNK);
        freelist := mem[pa].next;
        mem := mem[pa := Bytes(JUNK)];
        free := free[1..];
        role := role[pa := Held];
      }
    }

    /** kfree; ok is false where the kernel would panic. */
    method Kfree(pa: nat) returns (ok: bool)
      requires Listed(mem, role, freelist, free) && AllPages(role, lo, hi) && pa in role && !role[pa].Free?
      modifies this
      ensures ok && Listed(mem, role, freelist, free)
      ensures mem == old(mem)[pa := Run(old(freelist))] && role == old(role)[pa := Free] && free == [pa] + old(free)
    {
      assert IsFrame(lo, hi, pa);
      if pa % PGSIZE != 0 || pa < lo || pa >= hi {
        return false;
      }
      ListedPush(mem, role, freelist, free, pa);
      mem := mem[pa := Run(freelist)];
      freelist := pa;
      free := [pa] + free;
      role := role[pa := Free];
      ok := true;
    }

    /** kfree of a page that no page table has. */
    method Release(pa: nat) returns (ok: bool)
      requires Valid() && pa in role && role[pa].Held?
      modifies this
      ensures ok && Valid()
      ensures role == old(role)[pa := Free] && mem == old(mem)[pa := Run(old(freelist))] && free == [pa] + old(free)
    {
      FreeKeeps(mem, role, pa, freelist);
      ok := Kfree(pa);
    }

    /** kfmemory */
    method Kfmemory() returns (sum: nat)
      requires Valid()
      ensures sum == PGSIZE * |free|
    {
      assert forall j :: 0 <= j < |free| ==> free[j] in free && ListedPage(role, free, free[j]);
      sum := 0;
      var r := freelist;
      ghost var k := 0;
      while r != 0
        invariant k <= |free| && r == (if k < |free| then free[k] else 0) && sum == PGSIZE * k
        invariant forall j :: 0 <= j < |free| ==> free[j] != 0
        decreases |free| - k
      {
        sum := sum + PGSIZE;
        assert LinkOk(mem, free, k);
        r := mem[r].next;
        k := k + 1;
      }
    }

    /** kinit: every page from end to phystop is freed. */
    constructor (end: nat, phystop: nat)
      requires 0 < end && phystop <= TRAPFRAME
      ensures Valid() && lo == PgRoundUp(end) && hi == phystop
      ensures forall p :: p in role ==> role[p].Free?
    {
      lo := PgRoundUp(end);
      hi := phystop;
      freelist := 0;
      mem := map p: nat | p <= phystop && IsFrame(PgRoundUp(end), phystop, p) :: Bytes(BLANK);
      free := [];
      role := map p: nat | p <= phystop && IsFrame(PgRoundUp(end), phystop, p) :: Held;
      new;
      assert forall q {:trigger PageOk(mem, role, q, NOHOLE)} :: q in role ==> PageOk(mem, role, q, NOHOLE);
      Freerange();
    }

    method Freerange()
      requires Valid() && forall p :: p in role ==> role[p].Held?
      modifies this
      ensures Valid() && forall p :: p in role ==> role[p].Free?
    {
      var p := lo;
      assert forall q :: q in role ==> IsFrame(lo, hi, q);
      while p + PGSIZE <= hi
        invariant Valid() && p % PGSIZE == 0 && lo <= p
        invariant FreedTo(role, p)
      {
        assert IsFrame(lo, hi, p);
        var ok := Release(p);
        NextFrame(role, lo, hi, p);
        p := p + PGSIZE;
      }
      assert forall q :: q in role ==> IsFrame(lo, hi, q);
    }

    // ----- page tables -----

    /** kalloc and memset of a page-table page for entry i of page q, which points to it. */
    method NewTable(ghost r: nat, q: nat, i: nat) returns (p: nat)
      requires Valid() && Live(role, r) && i < ENTRIES && Child(mem, q, i) == 0
      requires q in role && role[q].At? && Depth(role[q].path) < 2 && Origin(role[q].path) == r
          && (role[q].path.Root? ==> i < TOPS)
      modifies this
      ensures Valid() && Live(role, r) && (p == 0 ==> unchanged(this) && free == [])
      ensures p != 0 ==> |old(free)| == |free| + 1
      ensures p != 0 ==> IsAt(role, p, Step(old(role)[q].path, i))
      ensures Frame(old(mem), old(role), mem, role, r, 0) && Kept(old(mem), old(role), mem, role, r, 0, 0)
    {
      ClearEntry(mem, role, q, i);
      p := Kalloc();
      if p == 0 {
        NothingChanged(mem, role, r, 0);
      } else {
        AttachTable(q, i, p);
        AttachFrame(old(mem), old(role), mem, role, q, i, p, r);
      }
    }

    /** memset of page p, and entry i of page q set to point to it. */
    method AttachTable(q: nat, i: nat, p: nat)
      requires Valid() && q in role && role[q].At? && Depth(role[q].path) < 2 && i < ENTRIES && p in role
          && role[p].Held?
      requires Child(mem, q, i) == 0 && q in mem && mem[q].Table? && |mem[q].ptes| == ENTRIES
          && (role[q].path.Root? ==> i < TOPS)
      modifies this`mem, this`role
      ensures Valid()
      ensures mem == SetWord(old(mem), q, i, ZERO.(v := true, pa := p))[p := EMPTY]
          && role == old(role)[p := At(Step(old(role)[q].path, i), q)]
    {
      assert PageOk(mem, role, q, NOHOLE);
      ClearEntry(mem, role, q, i);
      AttachKeeps(mem, role, q, i, p);
      mem := mem[q := Table(mem[q].ptes[i := ZERO.(v := true, pa := p)])];
      mem := mem[p := EMPTY];
      role := role[p := At(Step(role[q].path, i), q)];
      ListedKept(old(mem), old(role), mem, role, freelist, free);
    }

    /** walk, for va below MAXVA (above, the kernel panics): the page and index of the entry
        for va, or page 0. */
    method Walk(r: nat, va: nat, alloc: bool) returns (pt: nat, k: nat)
      requires Valid() && Live(role, r) && va < MAXVA
      modifies if alloc then {this} else {}
      ensures Valid() && Live(role, r)
      ensures Frame(old(mem), old(role), mem, role, r, 0) && Kept(old(mem), old(role), mem, role, r, 0, 0)
      ensures pt == 0 ==> if alloc then free == [] && |old(free)| < 2 else !Lookup(mem, r, va).v
      ensures |free| <= |old(free)| <= |free| + 2
      ensures pt != 0 ==> IsAt(role, pt, LowPath(r, Px(2, va), Px(1, va))) && k == Px(0, va)
    {
      pt := r;
      NothingChanged(mem, role, r, 0);
      var level := 2;
      while level > 0
        invariant level <= 2 && Valid() && IsAt(role, pt, PathTo(r, va, level)) && Live(role, r)
        invariant Frame(old(mem), old(role), mem, role, r, 0) && Kept(old(mem), old(role), mem, role, r, 0, 0)
        invariant |free| <= |old(free)| <= |free| + 2 - level
      {
        ghost var m, ro := mem, role;
        TopIndex(va);
        var i := Px(level, va);
        TableAt(mem, role, pt, i);
        if mem[pt].ptes[i].v {
          pt := mem[pt].ptes[i].pa;
        } else {
          if !alloc {
            NoEntry(mem, role, r, va, level, pt);
            return 0, 0;
          }
          pt := NewTable(r, pt, i);
          FrameTwice(old(mem), old(role), m, ro, mem, role, r, 0);
          KeptTwice(old(mem), old(role), m, ro, mem, role, r, 0, 0, 0, 0, 0, 0);
          if pt == 0 {
            return 0, 0;
          }
        }
        level := level - 1;
      }
      k := Px(0, va);
    }

    /** One round of mappages, for a page that is not mapped yet (if it is, the kernel
        panics). With own, the page at pa becomes the page of a. */
    method MapOne(r: nat, a: nat, pa: nat, perm: Perm, ghost own: bool) returns (ok: bool)
      requires Valid() && Live(role, r) && IsPage(a) && !Lookup(mem, r, a).v && pa != 0 && LeafPerm(perm)
      requires own ==> pa in role && role[pa].Held?
      modifies this
      ensures Valid() && Live(role, r) && (!ok ==> free == [] && |old(free)| < 2) && |old(free)| <= |free| + 2
      ensures Lookup(mem, r, a) == if ok then Leaf(pa, perm) else old(Lookup(mem, r, a))
      ensures own ==> pa in role && mem[pa] == old(mem)[pa] && if ok then Owns(mem, role, r, a) else role[pa].Held?
      ensures Kept(old(mem), old(role), mem, role, r, a, if ok then a + 1 else a)
      ensures Frame(old(mem), old(role), mem, role, r, if own then pa else 0)
    {
      var pt, k := Walk(r, a, true);
      WalkKeeps(old(mem), old(role), mem, role, r, a, if own then pa else 0);
      if pt == 0 {
        return false;
      }
      ghost var m, ro := mem, role;
      LowEntry(mem, role, r, Px(2, a), Px(1, a), pt);
      SetLeaf(r, a, pt, k, Leaf(pa, perm), own);
      FrameTwice(old(mem), old(role), m, ro, mem, role, r, if own then pa else 0);
      KeptTwice(old(mem), old(role), m, ro, mem, role, r, 0, 0, a, a + 1, a, a + 1);
      ok := true;
    }

    /** *pte = e, for the entry of a, which is clear. */
    method SetLeaf(r: nat, a: nat, pt: nat, k: nat, e: Pte, ghost own: bool)
      requires Valid() && IsPage(a) && IsAt(role, pt, LowPath(r, Px(2, a), Px(1, a))) && k == Px(0, a)
          && !Lookup(mem, r, a).v
      requires IsLeaf(e) && e.pa != 0 && (own ==> e.pa in role && role[e.pa].Held?)
      modifies this`mem, this`role
      ensures Valid() && Live(role, r) && Lookup(mem, r, a) == e
      ensures own ==> Owns(mem, role, r, a) && e.pa in old(mem) && e.pa in mem && mem[e.pa] == old(mem)[e.pa]
      ensures Kept(old(mem), old(role), mem, role, r, a, a + 1)
      ensures Frame(old(mem), old(role), mem, role, r, if own then e.pa else 0)
    {
      LowEntry(mem, role, r, Px(2, a), Px(1, a), pt);
      assert PageOk(mem, role, pt, NOHOLE);
      MapKeeps(mem, role, pt, k, e, own);
      mem := mem[pt := Table(mem[pt].ptes[k := e])];
      role := if own then role[e.pa := At(Step(role[pt].path, k), pt)] else role;
      ListedKept(old(mem), old(role), mem, role, freelist, free);
      SetLeafKeeps(old(mem), old(role), mem, role, r, a, pt, e, own);
    }

    /** mappages, for a range that is page-aligned, below MAXVA and not mapped (otherwise the
        kernel panics). It maps the first n bytes of the range; all of them, or it is out of
        memory and returns -1. A page to be owned is mapped alone. */
    method Mappages(r: nat, va: nat, size: nat, pa: nat, perm: Perm, ghost own: bool) returns (rc: int, ghost n: nat)
      requires Valid() && Live(role, r) && va % PGSIZE == 0 && size % PGSIZE == 0 && size > 0 && va + size <= MAXVA
      requires Unmapped(mem, r, va, va + size) && pa != 0 && LeafPerm(perm)
      requires own ==> size == PGSIZE && pa in role && role[pa].Held?
      modifies this
      ensures Valid() && Live(role, r) && Multiple(n)
      ensures if rc == 0 then n == size else rc == -1 && n < size && free == []
      ensures if rc == 0 then 2048 * (|old(free)| - |free|) <= n else 2048 * |old(free)| <= n + 2048
      ensures Mapping(old(mem), old(role), mem, role, r, va, n, pa, perm, if own then pa else 0)
      ensures own ==> pa in role && mem[pa] == old(mem)[pa] && if rc == 0 then Owns(mem, role, r, va)
          else role[pa].Held?
    {
      var a, last, p := va, va + size - PGSIZE, pa;
      n := 0;
      NothingChanged(mem, role, r, 0);
      WalkKeeps(mem, role, mem, role, r, va, if own then pa else 0);
      while true
        invariant Valid() && Live(role, r) && n < size && a == va + n && p == pa + n && Multiple(n)
        invariant own ==> n == 0 && pa in role && mem[pa] == old(mem)[pa] && role[pa].Held?
        invariant 2048 * (|old(free)| - |free|) <= n
        invariant Mapping(old(mem), old(role), mem, role, r, va, n, pa, perm, if own then pa else 0)
        decreases size - n
      {
        ghost var m, ro := mem, role;
        NextPage(va, n, size);
        assert AddrKept(old(mem), old(role), mem, role, r, a);
        var ok := MapOne(r, a, p, perm, own);
        MappedNext(old(mem), old(role), m, ro, mem, role, r, va, n, pa, perm, if own then pa else 0, ok);
        if !ok {
          return -1, n;
        }
        n := n + PGSIZE;
        if a == last {
          break;
        }
        a, p := a + PGSIZE, p + PGSIZE;
      }
      rc := 0;
    }

    /** One round of uvmunmap; ok is false where the kernel would panic. The page is freed
        if and only if it is the page of a. */
    method UnmapOne(r: nat, a: nat, doFree: bool) returns (ok: bool)
      requires Valid() && Live(role, r) && IsPage(a) && Lookup(mem, r, a).v && (doFree <==> Owns(mem, role, r, a))
      modifies this
      ensures ok && Valid() && Live(role, r) && Lookup(mem, r, a) == ZERO && (!doFree ==> role == old(role))
      ensures Kept(old(mem), old(role), mem, role, r, a, a + 1) && Frame(old(mem), old(role), mem, role, r, 0)
    {
      var pt, k := Walk(r, a, false);
      LeafEntry(mem, role, r, a, pt);
      if pt == 0 || !mem[pt].ptes[k].v || NoFlags(mem[pt].ptes[k]) {
        return false;
      }
      ok := true;
      if doFree {
        ok := FreeLeaf(r, a, mem[pt].ptes[k].pa);
        if !ok { return; }
      }
      ghost var m, ro := mem, role;
      ClearLeaf(r, a, pt, k);
      FrameTwice(old(mem), old(role), m, ro, mem, role, r, 0);
      KeptTwice(old(mem), old(role), m, ro, mem, role, r, a, a + 1, a, a + 1, a, a + 1);
    }

    /** uvmunmap, for a mapped range; ok is false where the kernel would panic. */
    method Uvmunmap(r: nat, va: nat, npages: nat, doFree: bool) returns (ok: bool)
      requires Valid() && Live(role, r) && va % PGSIZE == 0 && va + npages * PGSIZE <= MAXVA
      requires Mapped(mem, role, r, va, va + npages * PGSIZE, doFree)
      modifies this
      ensures ok && Valid() && Live(role, r)
      ensures Unmapping(old(mem), old(role), mem, role, r, va, va + npages * PGSIZE) && (!doFree ==> role == old(role))
    {
      ok := true;
      var a := va;
      ghost var hi := va + npages * PGSIZE;
      NothingChanged(mem, role, r, va);
      while a < va + npages * PGSIZE
        invariant ok && Valid() && Live(role, r) && va <= a <= hi && Multiple(a)
        invariant Unmapping(old(mem), old(role), mem, role, r, va, a) && (!doFree ==> role == old(role))
      {
        ghost var m, ro := mem, role;
        NextMultiple(va, npages, a);
        StillMapped(old(mem), old(role), mem, role, r, va, a, hi, doFree);
        ok := UnmapOne(r, a, doFree);
        if !ok { return; }
        UnmappedNext(old(mem), old(role), m, ro, mem, role, r, va, a);
        a := a + PGSIZE;
      }
    }

    /** uvmdealloc, with the new size; ok is false where the kernel would panic. */
    method Uvmdealloc(r: nat, oldsz: nat, newsz: nat, ghost ext: set<nat>) returns (ok: bool, sz: nat)
      requires Valid() && Space(mem, role, r, PgRoundUp(oldsz), ext)
      modifies this
      ensures ok && Valid() && sz == (if newsz < oldsz then newsz else oldsz) && Space(mem, role, r, PgRoundUp(sz), ext)
      ensures Kept(old(mem), old(role), mem, role, r, PgRoundUp(sz), PgRoundUp(oldsz))
          && Frame(old(mem), old(role), mem, role, r, 0)
    {
      ok := true;
      NothingChanged(mem, role, r, PgRoundUp(oldsz));
      if newsz >= oldsz {
        return true, oldsz;
      }
      ghost var lo, hi := PgRoundUp(newsz), PgRoundUp(oldsz);
      RoundedOrder(newsz, oldsz);
      if PgRoundUp(newsz) < PgRoundUp(oldsz) {
        var npages := (PgRoundUp(oldsz) - PgRoundUp(newsz)) / PGSIZE;
        SpaceMapped(mem, role, r, hi, ext, lo);
        ok := Uvmunmap(r, PgRoundUp(newsz), npages, true);
        ShrunkSpace(old(mem), old(role), mem, role, r, lo, hi, ext);
      }
      sz := newsz;
    }

    /** uvmalloc, with the result that the kernel returns and whether it is for success.
        Then the new pages are blank, and otherwise every page of the space is as before. It
        fails only if there were not three free pages for each new page, for the page and two
        page-table pages. */
    method Uvmalloc(r: nat, oldsz: nat, newsz: nat, w: bool, x: bool, ghost ext: set<nat>)
        returns (sz: nat, ghost grew: bool)
      requires Valid() && Space(mem, role, r, PgRoundUp(oldsz), ext)
      modifies this
      ensures Valid() && Frame(old(mem), old(role), mem, role, r, 0)
      ensures sz == if !grew then 0 else if newsz < oldsz then oldsz else newsz
      ensures Space(mem, role, r, PgRoundUp(if grew then sz else oldsz), ext)
      ensures Kept(old(mem), old(role), mem, role, r, PgRoundUp(oldsz), PgRoundUp(if grew then sz else oldsz))
      ensures grew ==> Blank(mem, r, PgRoundUp(oldsz), PgRoundUp(sz), Perm(true, w, x, true, 0))
      ensures if grew then |old(free)| <= |free| + 3 * PagesIn(PgRoundUp(oldsz), PgRoundUp(newsz))
              else |old(free)| < 3 * PagesIn(PgRoundUp(oldsz), PgRoundUp(newsz))
    {
      NothingChanged(mem, role, r, PgRoundUp(oldsz));
      grew := true;
      if newsz < oldsz {
        return oldsz, true;
      }
      var base := PgRoundUp(oldsz);
      var a := base;
      ghost var j := 0;
      while a < newsz
        invariant Growing(old(mem), old(role), r, base, a, ext, Perm(true, w, x, true, 0))
            && (a < newsz + PGSIZE || a == base)
        invariant a == base + 4096 * j && |old(free)| <= |free| + 3 * j
        invariant j <= PagesIn(base, PgRoundUp(newsz))
      {
        PagesReach(base, a, newsz, j);
        ghost var m, ro := mem, role;
        SpaceFits(mem, role, r, a, ext, lo, hi);
        var ok := GrowOne(r, a, BLANK, Perm(true, w, x, true, 0), ext);
        GrowNext(old(mem), old(role), m, ro, mem, role, r, base, a, ext, Perm(true, w, x, true, 0), ok);
        if !ok {
          grew, sz := false, 0;
          m, ro := mem, role;
          RoundedIs(a);
          RoundedIs(base);
          var ok1, sz1 := Uvmdealloc(r, a, base, ext);
          GrowUndone(old(mem), old(role), m, ro, mem, role, r, base, a, ext);
          return;
        }
        a, j := a + PGSIZE, j + 1;
      }
      RoundedFrom(oldsz, newsz, a);
      sz := newsz;
    }

    /** uvmalloc has got as far as a. */
    ghost predicate Growing(m0: Memory, r0: Roles, r: nat, lo: nat, a: nat, ext: set<nat>, perm: Perm)
      reads this
    {
      && Valid() && Space(mem, role, r, a, ext) && lo <= a
      && Kept(m0, r0, mem, role, r, lo, a) && Frame(m0, r0, mem, role, r, 0) && Blank(mem, r, lo, a, perm)
    }

    /** kalloc and filling of a page. */
    method NewPage(d: seq<byte>) returns (pa: nat)
      requires Valid() && |d| == PGSIZE
      modifies this
      ensures Valid() && (pa == 0 ==> unchanged(this) && free == []) && (pa != 0 ==> |old(free)| == |free| + 1)
      ensures pa != 0 ==>
          pa in old(role) && old(role)[pa].Free? && role == old(role)[pa := Held] && mem == old(mem)[pa := Bytes(d)]
    {
      pa := Kalloc();
      if pa != 0 {
        DataKeeps(mem, role, pa, d);
        ghost var m := mem;
        mem := mem[pa := Bytes(d)];
        ListedKept(m, role, mem, role, freelist, free);
        assert mem == old(mem)[pa := Bytes(d)];
      }
    }

    /** mappages of the held page pa at a, which is freed if that fails. */
    method MapNew(r: nat, a: nat, pa: nat, perm: Perm) returns (ok: bool)
      requires Valid() && Live(role, r) && IsPage(a) && !Lookup(mem, r, a).v && LeafPerm(perm) && pa in role
          && role[pa].Held?
      modifies this
      ensures Valid() && Live(role, r) && pa in role && pa in old(mem)
      ensures if ok then |old(free)| <= |free| + 2 else |old(free)| < 2
      ensures if ok then Owns(mem, role, r, a) && Lookup(mem, r, a) == Leaf(pa, perm)
          && mem[pa] == old(mem)[pa] else role[pa].Free?
      ensures Kept(old(mem), old(role), mem, role, r, a, if ok then a + 1 else a)
          && Frame(old(mem), old(role), mem, role, r, pa)
    {
      ok := MapOne(r, a, pa, perm, true);
      if !ok {
        ghost var m, ro := mem, role;
        var freed := Release(pa);
        FreedFrame(m, ro, mem, role, pa, mem[pa].next, r, a);
        FrameTwice(old(mem), old(role), m, ro, mem, role, r, pa);
        KeptTwice(old(mem), old(role), m, ro, mem, role, r, a, a, a, a, a, a);
      }
    }

    /** One round of uvmalloc or uvmcopy: a new page holding d, mapped at the end a. */
    method GrowOne(r: nat, a: nat, d: seq<byte>, perm: Perm, ghost ext: set<nat>) returns (ok: bool)
      requires Valid() && Space(mem, role, r, a, ext) && a < TRAPFRAME && |d| == PGSIZE && LeafPerm(perm)
      modifies this
      ensures Valid() && Space(mem, role, r, if ok then a + PGSIZE else a, ext)
      ensures if ok then |old(free)| <= |free| + 3 else |old(free)| < 3
      ensures ok ==>
          Lookup(mem, r, a) == Leaf(Lookup(mem, r, a).pa, perm) && Lookup(mem, r, a).pa in mem
          && mem[Lookup(mem, r, a).pa] == Bytes(d)
      ensures Kept(old(mem), old(role), mem, role, r, a, if ok then a + 1 else a)
          && Frame(old(mem), old(role), mem, role, r, 0)
    {
      assert PlaceOk(mem, role, r, a, ext, a);
      var pa := NewPage(d);
      if pa == 0 {
        NothingChanged(mem, role, r, a);
        return false;
      }
      ghost var m, ro := mem, role;
      HeldFrame(old(mem), old(role), mem, role, pa, d, r, a);
      assert AddrKept(old(mem), old(role), mem, role, r, a);
      ok := MapNew(r, a, pa, perm);
      FrameTwice(old(mem), old(role), m, ro, mem, role, r, pa);
      FrameAll(old(mem), old(role), mem, role, r, pa);
      KeptTwice(old(mem), old(role), m, ro, mem, role, r, a, a, a, if ok then a + 1 else a, a, if ok then a + 1 else a);
      GrownSpace(old(mem), old(role), mem, role, r, a, ext, ok);
    }

    /** kfree of the page of a, which stays mapped for the moment. */
    method FreeLeaf(ghost r: nat, ghost a: nat, pa: nat) returns (ok: bool)
      requires Valid() && Live(role, r) && IsPage(a) && Owns(mem, role, r, a) && pa == Lookup(mem, r, a).pa
      modifies this
      ensures ok && Valid() && Live(role, r) && Lookup(mem, r, a) == old(Lookup(mem, r, a)) && !Owns(mem, role, r, a)
      ensures forall p :: p in old(role) && old(role)[p].At? && p != pa ==> p in role && role[p] == old(role)[p]
      ensures Kept(old(mem), old(role), mem, role, r, a, a + 1) && Frame(old(mem), old(role), mem, role, r, 0)
    {
      FreeKeeps(mem, role, pa, freelist);
      ok := Kfree(pa);
      FreeLeafFrame(old(mem), old(role), mem, role, r, a);
    }

    /** *pte = 0, for the entry of a, which does not own its page. */
    method ClearLeaf(ghost r: nat, ghost a: nat, pt: nat, k: nat)
      requires Valid() && IsPage(a) && IsAt(role, pt, LowPath(r, Px(2, a), Px(1, a))) && k == Px(0, a)
          && !Owns(mem, role, r, a)
      modifies this`mem
      ensures Valid() && Live(role, r) && Lookup(mem, r, a) == ZERO
      ensures Kept(old(mem), old(role), mem, role, r, a, a + 1) && Frame(old(mem), old(role), mem, role, r, 0)
    {
      LowEntry(mem, role, r, Px(2, a), Px(1, a), pt);
      assert PageOk(mem, role, pt, NOHOLE);
      UnmapKeeps(mem, role, pt, k);
      mem := mem[pt := Table(mem[pt].ptes[k := ZERO])];
      ListedKept(old(mem), role, mem, role, freelist, free);
      SetLeafKeeps(old(mem), role, mem, role, r, a, pt, ZERO, false);
    }
  }

  // ----- address spaces -----

  /** A free page p becomes held. */
  lemma HeldFrame(mem: Memory, role: Roles, mem': Memory, role': Roles, p: nat, d: seq<byte>, r: nat, a: nat)
    requires Matched(mem, role, NOHOLE) && p in role && role[p].Free? && Live(role, r)
    requires mem' == mem[p := Bytes(d)] && role' == role[p := Held]
    ensures Live(role', r) && Kept(mem, role, mem', role', r, a, a) && Frame(mem, role, mem', role', r, p)
  {
    forall b: nat | IsPage(b) ensures AddrKept(mem, role, mem', role', r, b) {
      SameTablesSameEntries(mem, mem', role, r, Px(2, b), Px(1, b), Px(0, b));
    }
    forall q | q in role && q != p ensures FramePage(mem, role, mem', role', r, q) {
    }
  }

  /** A held page p is freed. */
  lemma FreedFrame(mem: Memory, role: Roles, mem': Memory, role': Roles, p: nat, next: nat, r: nat, a: nat)
    requires Matched(mem, role, NOHOLE) && p in role && role[p].Held? && Live(role, r)
    requires mem' == mem[p := Run(next)] && role' == role[p := Free]
    ensures Live(role', r) && Kept(mem, role, mem', role', r, a, a) && Frame(mem, role, mem', role', r, p)
  {
    forall b: nat | IsPage(b) ensures AddrKept(mem, role, mem', role', r, b) {
      SameTablesSameEntries(mem, mem', role, r, Px(2, b), Px(1, b), Px(0, b));
    }
    forall q | q in role && q != p ensures FramePage(mem, role, mem', role', r, q) {
    }
  }

  /** The exempt page is one that the operation may change anyway. */
  lemma FrameAll(mem: Memory, role: Roles, mem': Memory, role': Roles, r: nat, p: nat)
    requires Frame(mem, role, mem', role', r, p) && p in role && Mine(role[p], r) && Mine(role'[p], r) && p in mem
        && p in mem'
    ensures Frame(mem, role, mem', role', r, 0)
  {
    forall q | q in role ensures FramePage(mem, role, mem', role', r, q) {
      assert FramePage(mem, role, mem', role', r, q);
    }
  }

  /** Address a in a space with n bytes of user memory and the extra mappings ext: user
      pages own their memory; the extra ones are not for user mode, and map kernel code or a
      page that the kernel holds. */
  ghost predicate PlaceOk(mem: Memory, role: Roles, r: nat, n: nat, ext: set<nat>, a: nat) {
    var e := Lookup(mem, r, a);
    if a < n then Owns(mem, role, r, a) else if a in ext then e.v && !e.u && (e.pa in role ==> role[e.pa].Held?)
        else !e.v
  }

  /** Root r maps the user pages below n, and ext at the top, and nothing else. */
  ghost predicate Space(mem: Memory, role: Roles, r: nat, n: nat, ext: set<nat>) {
    && Live(role, r) && n % PGSIZE == 0 && n <= TRAPFRAME && ext <= {TRAMPOLINE, TRAPFRAME}
    && forall a: nat {:trigger PlaceOk(mem, role, r, n, ext, a)} :: IsPage(a) ==> PlaceOk(mem, role, r, n, ext, a)
  }

  /** Places outside [lo, hi) stay as they were; the space may end at lo or hi instead. */
  lemma KeptSpace(mem: Memory, role: Roles, mem': Memory, role': Roles, r: nat, n: nat, n': nat, ext: set<nat>,
      lo: nat, hi: nat)
    requires Space(mem, role, r, n, ext) && Kept(mem, role, mem', role', r, lo, hi)
        && Frame(mem, role, mem', role', r, 0) && Live(role', r)
    requires n' % PGSIZE == 0 && n' <= TRAPFRAME && mem.Keys == role.Keys && 0 !in role
    requires forall a: nat :: IsPage(a) && !(lo <= a < hi) ==> (a < n <==> a < n')
    requires forall a: nat {:trigger PlaceOk(mem', role', r, n', ext, a)} :: IsPage(a) && lo <= a < hi ==>
        PlaceOk(mem', role', r, n', ext, a)
    ensures Space(mem', role', r, n', ext)
  {
    forall a: nat | IsPage(a) ensures PlaceOk(mem', role', r, n', ext, a) {
      if !(lo <= a < hi) {
        assert AddrKept(mem, role, mem', role', r, a) && PlaceOk(mem, role, r, n, ext, a);
        var e := Lookup(mem, r, a);
        if e.pa in role { assert FramePage(mem, role, mem', role', r, e.pa); }
      }
    }
  }

  /** Address a is mapped with the given permissions to a page that holds d. */
  ghost predicate Holds(mem: Memory, r: nat, a: nat, perm: Perm, d: seq<byte>) {
    var e := Lookup(mem, r, a);
    e == Leaf(e.pa, perm) && e.pa in mem && mem[e.pa] == Bytes(d)
  }

  ghost predicate IsBlank(mem: Memory, r: nat, a: nat, perm: Perm) { Holds(mem, r, a, perm, BLANK) }

  ghost predicate Blank(mem: Memory, r: nat, lo: nat, hi: nat, perm: Perm) {
    forall a: nat {:trigger IsBlank(mem, r, a, perm)} :: IsPage(a) && lo <= a < hi ==> IsBlank(mem, r, a, perm)
  }

  lemma GrowNext(m0: Memory, r0: Roles, m1: Memory, r1: Roles, m2: Memory, r2: Roles, r: nat, lo: nat, a: nat,
      ext: set<nat>, perm: Perm, ok: bool)
    requires Space(m1, r1, r, a, ext) && lo <= a && a % PGSIZE == 0 && Kept(m0, r0, m1, r1, r, lo, a)
        && Frame(m0, r0, m1, r1, r, 0)
    requires Kept(m1, r1, m2, r2, r, a, if ok then a + 1 else a) && Frame(m1, r1, m2, r2, r, 0)
    requires Blank(m1, r, lo, a, perm) && (ok ==> IsBlank(m2, r, a, perm))
    ensures Kept(m0, r0, m2, r2, r, lo, if ok then a + PGSIZE else a) && Frame(m0, r0, m2, r2, r, 0)
    ensures Blank(m2, r, lo, if ok then a + PGSIZE else a, perm)
  {
    FrameTwice(m0, r0, m1, r1, m2, r2, r, 0);
    KeptTwice(m0, r0, m1, r1, m2, r2, r, lo, a, a, if ok then a + 1 else a, lo, if ok then a + PGSIZE else a);
    forall b: nat | IsPage(b) && lo <= b < (if ok then a + PGSIZE else a) ensures IsBlank(m2, r, b, perm) {
      if b < a {
        assert PlaceOk(m1, r1, r, a, ext, b) && AddrKept(m1, r1, m2, r2, r, b) && IsBlank(m1, r, b, perm);
      } else {
        assert b == a;
      }
    }
  }

  /** Entries that are not valid are zero. */
  lemma ZeroEntry(mem: Memory, role: Roles, r: nat, a: nat)
    requires Matched(mem, role, NOHOLE) && Live(role, r) && !Lookup(mem, r, a).v
    ensures Lookup(mem, r, a) == ZERO
  {
    var i, j := Px(2, a), Px(1, a);
    Reaches(mem, role, r, i, j);
    var low := Child(mem, Child(mem, r, i), j);
    if low != 0 {
      assert PageOk(mem, role, low, NOHOLE);
      assert WordOk(role, low, role[low].path, Px(0, a), mem[low].ptes[Px(0, a)]);
    }
  }

  /** Growing to a and shrinking again leaves every page as it was. */
  lemma GrowUndone(m0: Memory, r0: Roles, m1: Memory, r1: Roles, m2: Memory, r2: Roles, r: nat, lo: nat, a: nat,
      ext: set<nat>)
    requires Matched(m0, r0, NOHOLE) && Space(m0, r0, r, lo, ext) && Kept(m0, r0, m1, r1, r, lo, a)
        && Kept(m1, r1, m2, r2, r, lo, a)
    requires Frame(m0, r0, m1, r1, r, 0) && Frame(m1, r1, m2, r2, r, 0)
    requires Matched(m2, r2, NOHOLE) && Space(m2, r2, r, lo, ext) && lo <= a <= TRAPFRAME
    ensures Kept(m0, r0, m2, r2, r, lo, lo) && Frame(m0, r0, m2, r2, r, 0)
  {
    FrameTwice(m0, r0, m1, r1, m2, r2, r, 0);
    KeptTwice(m0, r0, m1, r1, m2, r2, r, lo, a, lo, a, lo, a);
    forall b: nat | IsPage(b) ensures AddrKept(m0, r0, m2, r2, r, b) {
      if lo <= b < a {
        assert PlaceOk(m0, r0, r, lo, ext, b) && PlaceOk(m2, r2, r, lo, ext, b);
        ZeroEntry(m0, r0, r, b);
        ZeroEntry(m2, r2, r, b);
      } else {
        assert AddrKept(m0, r0, m2, r2, r, b);
      }
    }
  }

  lemma RoundedIs(a: nat)
    requires a % PGSIZE == 0
    ensures PgRoundUp(a) == a
  {
  }

  lemma RoundedFrom(oldsz: nat, newsz: nat, a: nat)
    requires oldsz <= newsz <= a && a % PGSIZE == 0 && (a < newsz + PGSIZE || a == PgRoundUp(oldsz))
    ensures a == PgRoundUp(newsz)
  {
  }

  /** User memory ends below the trapframe, since its pages are distinct pages of physical memory. */
  lemma SpaceFits(mem: Memory, role: Roles, r: nat, n: nat, ext: set<nat>, lo: nat, hi: nat)
    requires Space(mem, role, r, n, ext) && AllPages(role, lo, hi)
    ensures n < TRAPFRAME
  {
    if n > 0 {
      var s := PagesOf(mem, role, r, n, ext, lo, hi, n);
      PagesFit(s, lo, hi);
    }
  }

  ghost predicate PageBelow(mem: Memory, role: Roles, r: nat, n: nat, p: nat) {
    exists a: nat :: a < n && IsPage(a) && Owns(mem, role, r, a) && Lookup(mem, r, a).pa == p
  }

  /** The pages of user memory below k. */
  lemma {:induction false} PagesOf(mem: Memory, role: Roles, r: nat, n: nat, ext: set<nat>, lo: nat, hi: nat, k: nat)
      returns (s: set<nat>)
    requires Space(mem, role, r, n, ext) && AllPages(role, lo, hi) && Multiple(k) && k <= n
    ensures |s| * PGSIZE == k && forall p :: p in s ==> IsFrame(lo, hi, p) && PageBelow(mem, role, r, k, p)
  {
    if k == 0 {
      return {};
    }
    var a := k - PGSIZE;
    var t := PagesOf(mem, role, r, n, ext, lo, hi, a);
    assert PlaceOk(mem, role, r, n, ext, a);
    var p := Lookup(mem, r, a).pa;
    if p in t {
      var b: nat :| b < a && IsPage(b) && Owns(mem, role, r, b) && Lookup(mem, r, b).pa == p;
      OwnsOnce(mem, role, r, a, r, b);
    }
    s := t + {p};
    forall q | q in s ensures IsFrame(lo, hi, q) && PageBelow(mem, role, r, k, q) {
      if q == p { assert IsFrame(lo, hi, p) && Owns(mem, role, r, a); } else { assert PageBelow(mem, role, r, a, q); }
    }
  }

  lemma {:induction false} PagesFit(s: set<nat>, lo: nat, hi: nat)
    requires lo % PGSIZE == 0 && forall p :: p in s ==> IsFrame(lo, hi, p)
    ensures s != {} ==> lo + |s| * PGSIZE <= hi
    decreases hi - lo
  {
    if lo + PGSIZE <= hi {
      var t := s - {lo};
      forall p | p in t ensures IsFrame(lo + PGSIZE, hi, p) {
        assert IsFrame(lo, hi, p);
      }
      PagesFit(t, lo + PGSIZE, hi);
      if t == {} { assert s == {} || s == {lo}; } else { assert |s| <= |t| + 1; }
    } else {
      assert s == {};
    }
  }

  /** Rounding keeps the order, and rounded sizes are whole pages apart. */
  lemma RoundedOrder(a: nat, b: nat)
    requires a <= b
    ensures PgRoundUp(a) <= PgRoundUp(b)
        && PgRoundUp(a) + (PgRoundUp(b) - PgRoundUp(a)) / PGSIZE * PGSIZE == PgRoundUp(b)
  {
  }

  /** User pages own their memory. */
  lemma SpaceMapped(mem: Memory, role: Roles, r: nat, n: nat, ext: set<nat>, lo: nat)
    requires Space(mem, role, r, n, ext)
    ensures Mapped(mem, role, r, lo, n, true)
  {
    forall a: nat | IsPage(a) && lo <= a < n ensures Owns(mem, role, r, a) {
      assert PlaceOk(mem, role, r, n, ext, a);
    }
  }

  lemma ShrunkSpace(mem: Memory, role: Roles, mem': Memory, role': Roles, r: nat, lo: nat, hi: nat, ext: set<nat>)
    requires Space(mem, role, r, hi, ext) && Unmapping(mem, role, mem', role', r, lo, hi) && Live(role', r)
        && mem.Keys == role.Keys && 0 !in role
    requires lo % PGSIZE == 0 && lo <= hi
    ensures Space(mem', role', r, lo, ext)
  {
    forall a: nat | IsPage(a) && lo <= a < hi ensures PlaceOk(mem', role', r, lo, ext, a) {
      assert Lookup(mem', r, a) == ZERO && a !in ext;
    }
    KeptSpace(mem, role, mem', role', r, hi, lo, ext, lo, hi);
  }

  lemma GrownSpace(mem: Memory, role: Roles, mem': Memory, role': Roles, r: nat, n: nat, ext: set<nat>, ok: bool)
    requires Space(mem, role, r, n, ext) && Frame(mem, role, mem', role', r, 0) && Live(role', r) && n < TRAPFRAME
        && mem.Keys == role.Keys && 0 !in role
    requires Kept(mem, role, mem', role', r, n, if ok then n + 1 else n) && (ok ==> Owns(mem', role', r, n))
    ensures Space(mem', role', r, if ok then n + PGSIZE else n, ext)
  {
    var n' := if ok then n + PGSIZE else n;
    forall a: nat | IsPage(a) && !(n <= a < n + 1) ensures a < n <==> a < n + PGSIZE {
    }
    KeptSpace(mem, role, mem', role', r, n, n', ext, n, if ok then n + 1 else n);
  }

  /** Every page of [lo, hi) is mapped to a page of its own, or every one to another's. */
  ghost predicate Mapped(mem: Memory, role: Roles, r: nat, lo: nat, hi: nat, own: bool) {
    forall a: nat {:trigger Lookup(mem, r, a)} :: IsPage(a) && lo <= a < hi ==>
        Lookup(mem, r, a).v && (own <==> Owns(mem, role, r, a))
  }

  ghost predicate Cleared(mem: Memory, r: nat, lo: nat, hi: nat) {
    forall a: nat {:trigger Lookup(mem, r, a)} :: IsPage(a) && lo <= a < hi ==> Lookup(mem, r, a) == ZERO
  }

  /** uvmunmap has cleared [lo, mid) of its range [lo, hi). */
  ghost predicate Unmapping(m0: Memory, r0: Roles, mem: Memory, role: Roles, r: nat, lo: nat, mid: nat) {
    Cleared(mem, r, lo, mid) && Kept(m0, r0, mem, role, r, lo, mid) && Frame(m0, r0, mem, role, r, 0)
  }

  lemma StillMapped(m0: Memory, r0: Roles, mem: Memory, role: Roles, r: nat, lo: nat, a: nat, hi: nat, own: bool)
    requires Mapped(m0, r0, r, lo, hi, own) && Kept(m0, r0, mem, role, r, lo, a) && (!own ==> role == r0)
    requires lo <= a < hi <= MAXVA && a % PGSIZE == 0
    ensures IsPage(a) && Lookup(mem, r, a).v && (own <==> Owns(mem, role, r, a))
  {
    assert AddrKept(m0, r0, mem, role, r, a);
  }

  lemma UnmappedNext(m0: Memory, r0: Roles, m1: Memory, r1: Roles, m2: Memory, r2: Roles, r: nat, lo: nat, a: nat)
    requires Unmapping(m0, r0, m1, r1, r, lo, a) && lo <= a && IsPage(a)
    requires Kept(m1, r1, m2, r2, r, a, a + 1) && Frame(m1, r1, m2, r2, r, 0) && Lookup(m2, r, a) == ZERO
    ensures Unmapping(m0, r0, m2, r2, r, lo, a + PGSIZE)
  {
    FrameTwice(m0, r0, m1, r1, m2, r2, r, 0);
    KeptTwice(m0, r0, m1, r1, m2, r2, r, lo, a, a, a + 1, lo, a + PGSIZE);
    forall b: nat | IsPage(b) && lo <= b < a + PGSIZE ensures Lookup(m2, r, b) == ZERO {
      if b < a { assert AddrKept(m1, r1, m2, r2, r, b); } else { assert b == a; }
    }
  }

  /** PTE_FLAGS(pte) == PTE_V */
  predicate NoFlags(e: Pte) { e.v && !e.r && !e.w && !e.x && !e.u && e.rest == 0 }

  /** What walk finds for a mapped page. */
  lemma LeafEntry(mem: Memory, role: Roles, r: nat, a: nat, pt: nat)
    requires Matched(mem, role, NOHOLE) && Lookup(mem, r, a).v && IsAt(role, pt, LowPath(r, Px(2, a), Px(1, a)))
    ensures pt in mem && mem[pt].Table? && |mem[pt].ptes| == ENTRIES && mem[pt].ptes[Px(0, a)] == Lookup(mem, r, a)
        && IsLeaf(Lookup(mem, r, a))
  {
    LowEntry(mem, role, r, Px(2, a), Px(1, a), pt);
    assert PageOk(mem, role, pt, NOHOLE);
    assert WordOk(role, pt, role[pt].path, Px(0, a), mem[pt].ptes[Px(0, a)]);
  }

  lemma FreeLeafFrame(mem: Memory, role: Roles, mem': Memory, role': Roles, r: nat, a: nat)
    requires Matched(mem, role, NOHOLE) && Live(role, r) && IsPage(a) && Owns(mem, role, r, a)
    requires role' == role[Lookup(mem, r, a).pa := Free] && mem'.Keys == mem.Keys
    requires forall p :: p in mem && p != Lookup(mem, r, a).pa ==> mem'[p] == mem[p]
    ensures Live(role', r) && Lookup(mem', r, a) == Lookup(mem, r, a)
    ensures Kept(mem, role, mem', role', r, a, a + 1) && Frame(mem, role, mem', role', r, 0)
  {
    var pa := Lookup(mem, r, a).pa;
    SameTablesSameEntries(mem, mem', role, r, Px(2, a), Px(1, a), Px(0, a));
    forall b: nat | IsPage(b) && !(a <= b < a + 1) ensures AddrKept(mem, role, mem', role', r, b) {
      SameTablesSameEntries(mem, mem', role, r, Px(2, b), Px(1, b), Px(0, b));
      if Owns(mem, role, r, b) && Lookup(mem, r, b).pa == pa { OwnsOnce(mem, role, r, a, r, b); }
    }
    forall p | p in role ensures FramePage(mem, role, mem', role', r, p) {
    }
  }

  ghost predicate Multiple(n: nat) { n % PGSIZE == 0 }

  lemma NextMultiple(va: nat, npages: nat, a: nat)
    requires va % PGSIZE == 0 && Multiple(a) && va <= a < va + npages * PGSIZE
    ensures Multiple(a + PGSIZE) && a + PGSIZE <= va + npages * PGSIZE
  {
  }

  lemma NextPage(va: nat, n: nat, size: nat)
    requires va % PGSIZE == 0 && size % PGSIZE == 0 && Multiple(n) && n < size && va + size <= MAXVA
    ensures IsPage(va + n) && Multiple(n + PGSIZE) && n + PGSIZE <= size
  {
  }

  ghost predicate Unmapped(mem: Memory, r: nat, lo: nat, hi: nat) {
    forall a: nat {:trigger Lookup(mem, r, a)} :: IsPage(a) && lo <= a < hi ==> !Lookup(mem, r, a).v
  }

  ghost predicate MappedTo(mem: Memory, r: nat, va: nat, n: nat, pa: nat, perm: Perm) {
    forall a: nat {:trigger Lookup(mem, r, a)} :: IsPage(a) && va <= a < va + n
        ==> Lookup(mem, r, a) == Leaf(pa + (a - va), perm)
  }

  /** mappages has mapped the first n bytes of its range. */
  ghost predicate Mapping(m0: Memory, r0: Roles, mem: Memory, role: Roles, r: nat, va: nat, n: nat, pa: nat,
      perm: Perm, x: nat) {
    MappedTo(mem, r, va, n, pa, perm) && Kept(m0, r0, mem, role, r, va, va + n) && Frame(m0, r0, mem, role, r, x)
  }

  lemma MappedNext(m0: Memory, r0: Roles, m1: Memory, r1: Roles, m2: Memory, r2: Roles, r: nat, va: nat, n: nat,
      pa: nat, perm: Perm, x: nat, ok: bool)
    requires Mapping(m0, r0, m1, r1, r, va, n, pa, perm, x) && IsPage(va + n) && Multiple(n)
    requires Kept(m1, r1, m2, r2, r, va + n, if ok then va + n + 1 else va + n) && Frame(m1, r1, m2, r2, r, x)
    requires ok ==> Lookup(m2, r, va + n) == Leaf(pa + n, perm)
    ensures Mapping(m0, r0, m2, r2, r, va, if ok then n + PGSIZE else n, pa, perm, x)
  {
    FrameTwice(m0, r0, m1, r1, m2, r2, r, x);
    KeptTwice(m0, r0, m1, r1, m2, r2, r, va, va + n, va + n, if ok then va + n + 1 else va + n, va,
        if ok then va + n + PGSIZE else va + n);
    forall a: nat | IsPage(a) && va <= a < va + n ensures Lookup(m2, r, a) == Leaf(pa + (a - va), perm) {
      assert AddrKept(m1, r1, m2, r2, r, a);
    }
    if ok {
      forall a: nat | IsPage(a) && va + n <= a < va + n + PGSIZE ensures a == va + n {
      }
    }
  }

  ghost predicate FreedTo(role: Roles, p: nat) {
    forall q {:trigger role[q]} :: q in role ==> if q < p then role[q].Free? else role[q].Held?
  }

  /** There is no page between p and p + PGSIZE. */
  lemma NextFrame(role: Roles, lo: nat, hi: nat, p: nat)
    requires AllPages(role, lo, hi) && p % PGSIZE == 0
    ensures forall q {:trigger q in role} :: q in role && q != p ==> (q < p <==> q < p + PGSIZE)
  {
    forall q | q in role && q != p ensures q < p <==> q < p + PGSIZE {
      assert IsFrame(lo, hi, q);
    }
  }

  predicate LeafPerm(perm: Perm) { perm.r || perm.w || perm.x }

  function Leaf(pa: nat, perm: Perm): Pte { Pte(true, perm.r, perm.w, perm.x, perm.u, perm.rest, pa) }

  /** walk changes no translation, and no page that is not a table of r. */
  lemma WalkKeeps(mem: Memory, role: Roles, mem': Memory, role': Roles, r: nat, a: nat, x: nat)
    requires Frame(mem, role, mem', role', r, 0) && Kept(mem, role, mem', role', r, 0, 0) && IsPage(a) && 0 !in role
    ensures Frame(mem, role, mem', role', r, x) && Kept(mem, role, mem', role', r, a, a)
    ensures Lookup(mem', r, a) == Lookup(mem, r, a)
    ensures x in role && role[x].Held? ==> x in role' && x in mem && x in mem' && role'[x].Held? && mem'[x] == mem[x]
  {
    assert AddrKept(mem, role, mem', role', r, a);
    forall p | p in role && p != x ensures FramePage(mem, role, mem', role', r, p) {
      assert FramePage(mem, role, mem', role', r, p);
    }
    if x in role { assert FramePage(mem, role, mem', role', r, x); }
  }

  /** Setting the entry of a changes no other translation. */
  lemma SetLeafKeeps(mem: Memory, role: Roles, mem': Memory, role': Roles, r: nat, a: nat, q: nat, e: Pte, own: bool)
    requires Matched(mem, role, NOHOLE) && IsAt(role, q, LowPath(r, Px(2, a), Px(1, a))) && IsPage(a)
    requires q in mem && mem[q].Table? && |mem[q].ptes| == ENTRIES
        && mem' == mem[q := Table(mem[q].ptes[Px(0, a) := e])]
    requires own ==> e.pa in role && role[e.pa].Held?
    requires role' == if own then role[e.pa := At(LeafPath(r, a), q)] else role
    ensures Frame(mem, role, mem', role', r, if own then e.pa else 0) && Kept(mem, role, mem', role', r, a, a + 1)
    ensures Lookup(mem', r, a) == e && Live(role', r)
  {
    LowEntry(mem, role, r, Px(2, a), Px(1, a), q);
    WriteEntry(mem, mem', role, r, Px(2, a), Px(1, a), q, Px(0, a), e, Px(2, a), Px(1, a), Px(0, a));
    forall b: nat | IsPage(b) && !(a <= b < a + 1) ensures AddrKept(mem, role, mem', role', r, b) {
      WriteEntry(mem, mem', role, r, Px(2, a), Px(1, a), q, Px(0, a), e, Px(2, b), Px(1, b), Px(0, b));
      if Px(2, b) == Px(2, a) && Px(1, b) == Px(1, a) && Px(0, b) == Px(0, a) { PxInjective(a, b); }
    }
    forall p | p in role && p != (if own then e.pa else 0) ensures FramePage(mem, role, mem', role', r, p) {
    }
  }

  /** The place of the table for va at the given level. */
  ghost function PathTo(r: nat, va: nat, level: nat): (p: Path)
    requires level <= 2
    ensures Depth(p) == 2 - level && Origin(p) == r
    decreases 2 - level
  {
    if level == 2 then Root(r) else Step(PathTo(r, va, level + 1), Px(level + 1, va))
  }

  /** A clear entry on the way means that va is not mapped. */
  lemma NoEntry(mem: Memory, role: Roles, r: nat, va: nat, level: nat, q: nat)
    requires Matched(mem, role, NOHOLE) && 1 <= level <= 2 && IsAt(role, q, PathTo(r, va, level))
        && Child(mem, q, Px(level, va)) == 0
    ensures Lookup(mem, r, va) == ZERO
  {
    assert PageOk(mem, role, q, NOHOLE);
    if level == 1 {
      assert PathTo(r, va, 1) == Step(PathTo(r, va, 2), Px(2, va));
      assert PageOk(mem, role, role[q].parent, NOHOLE);
    }
  }

  lemma NothingChanged(mem: Memory, role: Roles, r: nat, lo: nat)
    requires mem.Keys == role.Keys
    ensures Frame(mem, role, mem, role, r, 0) && Kept(mem, role, mem, role, r, lo, lo)
  {
    assert forall a: nat :: Owns(mem, role, r, a) ==> AddrKept(mem, role, mem, role, r, a);
  }

  /** Entry i of a table is clear or leads to the table at the next place. */
  lemma TableAt(mem: Memory, role: Roles, q: nat, i: nat)
    requires Matched(mem, role, NOHOLE) && q in role && role[q].At? && Depth(role[q].path) < 2 && i < ENTRIES
    ensures q in mem && mem[q].Table? && |mem[q].ptes| == ENTRIES && q != 0
    ensures mem[q].ptes[i].v ==> IsAt(role, mem[q].ptes[i].pa, Step(role[q].path, i)) && mem[q].ptes[i].pa != 0
  {
    assert PageOk(mem, role, q, NOHOLE);
    assert WordOk(role, q, role[q].path, i, mem[q].ptes[i]);
  }

  lemma ClearEntry(mem: Memory, role: Roles, q: nat, i: nat)
    requires Matched(mem, role, NOHOLE) && q in role && role[q].At? && Depth(role[q].path) < 2 && i < ENTRIES
        && Child(mem, q, i) == 0
    ensures q in mem && mem[q].Table? && |mem[q].ptes| == ENTRIES && mem[q].ptes[i] == ZERO
  {
    assert PageOk(mem, role, q, NOHOLE);
    var e := mem[q].ptes[i];
    assert WordOk(role, q, role[q].path, i, e);
  }

  /** A page that was free became the table at entry i of q. */
  lemma AttachFrame(m0: Memory, r0: Roles, m2: Memory, r2: Roles, q: nat, i: nat, p: nat, r: nat)
    requires Matched(m0, r0, NOHOLE) && p in r0 && r0[p].Free? && Live(r0, r) && q != p
    requires q in r0 && r0[q].At? && Depth(r0[q].path) < 2 && Origin(r0[q].path) == r && i < ENTRIES
    requires q in m0 && m0[q].Table? && |m0[q].ptes| == ENTRIES && !m0[q].ptes[i].v
    requires m2 == SetWord(m0[p := Bytes(JUNK)], q, i, ZERO.(v := true, pa := p))[p := EMPTY]
        && r2 == r0[p := Held][p := At(Step(r0[q].path, i), q)]
    ensures Frame(m0, r0, m2, r2, r, 0) && Kept(m0, r0, m2, r2, r, 0, 0) && Live(r2, r)
  {
    var m1, r1 := m0[p := Bytes(JUNK)], r0[p := Held];
    AllocKeeps(m0, r0, p, JUNK);
    assert PageOk(m0, r0, q, NOHOLE) && PageOk(m1, r1, q, NOHOLE) && PageOk(m0, r0, p, NOHOLE);
    forall x | x in r0 ensures FramePage(m0, r0, m2, r2, r, x) {
    }
    forall a: nat | IsPage(a) ensures AddrKept(m0, r0, m2, r2, r, a) {
      SameTablesSameEntries(m0, m1, r0, r, Px(2, a), Px(1, a), Px(0, a));
      AttachEntry(m1, r1, q, i, p, r, Px(2, a), Px(1, a), Px(0, a));
    }
  }
}
