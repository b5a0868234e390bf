/** The free list of pages (kernel/kalloc.c), and what an operation on one page table leaves alone. */
module PageFrames {
  import opened PageFormat
  import opened PageTree

  // ----- the free list -----

  ghost predicate LinkOk(mem: Memory, free: seq<nat>, k: nat) {
    k < |free| && free[k] in mem && mem[free[k]] == Run(if k + 1 < |free| then free[k + 1] else 0)
  }

  ghost predicate Differ(free: seq<nat>, k: nat, l: nat) { k < |free| && l < |free| && free[k] != free[l] }

  ghost predicate ListedPage(role: Roles, free: seq<nat>, p: nat) { p in role && (role[p].Free? <==> p in free) }

  /** The links from head lead through the pages of free, each once, and these are the
      pages that are free. */
  ghost predicate Listed(mem: Memory, role: Roles, head: nat, free: seq<nat>) {
    && head == (if free == [] then 0 else free[0])
    && (forall k: nat {:trigger LinkOk(mem, free, k)} :: k < |free| ==> LinkOk(mem, free, k))
    && (forall k: nat, l: nat {:trigger Differ(free, k, l)} :: k < l < |free| ==> Differ(free, k, l))
    && (forall p: nat {:trigger ListedPage(role, free, p)} :: p in role || p in free ==> ListedPage(role, free, p))
  }

  /** The list does not depend on pages that are not free. */
  lemma ListedKept(mem: Memory, role: Roles, mem': Memory, role': Roles, head: nat, free: seq<nat>)
    requires Listed(mem, role, head, free) && role'.Keys == role.Keys
    requires forall p {:trigger role'[p]} :: p in role ==> (role'[p].Free? <==> role[p].Free?)
    requires forall p {:trigger role[p]} :: p in role && role[p].Free? ==> p in mem && p in mem' && mem'[p] == mem[p]
    ensures Listed(mem', role', head, free)
  {
    forall k: nat | k < |free| ensures LinkOk(mem', free, k) {
      assert LinkOk(mem, free, k) && free[k] in free && ListedPage(role, free, free[k]);
      assert role[free[k]].Free?;
    }
    forall p: nat | p in role' || p in free ensures ListedPage(role', free, p) {
      assert ListedPage(role, free, p);
    }
  }

  lemma ListedPop(mem: Memory, role: Roles, head: nat, free: seq<nat>, page: Page)
    requires Listed(mem, role, head, free) && head != 0
    ensures free != [] && head == free[0] && head in role && role[head].Free? && head in mem && mem[head].Run?
    ensures Listed(mem[head := page], role[head := Held], mem[head].next, free[1..])
  {
    assert LinkOk(mem, free, 0) && head in free && ListedPage(role, free, head);
    var mem', role', rest := mem[head := page], role[head := Held], free[1..];
    assert free == [head] + rest;
    forall k: nat | k < |rest| ensures LinkOk(mem', rest, k) {
      assert LinkOk(mem, free, k + 1) && Differ(free, 0, k + 1);
    }
    forall k: nat, l: nat | k < l < |rest| ensures Differ(rest, k, l) {
      assert Differ(free, k + 1, l + 1);
    }
    assert forall k: nat :: k < |rest| ==> Differ(free, 0, k + 1) && rest[k] == free[k + 1];
    forall p: nat | p in role' || p in rest ensures ListedPage(role', rest, p) {
      assert ListedPage(role, free, p) && (p in free <==> p == head || p in rest);
    }
  }

  lemma ListedPush(mem: Memory, role: Roles, head: nat, free: seq<nat>, p: nat)
    requires Listed(mem, role, head, free) && p in role && !role[p].Free? && p != 0
    ensures Listed(mem[p := Run(head)], role[p := Free], p, [p] + free)
  {
    assert ListedPage(role, free, p);
    var mem', role', free' := mem[p := Run(head)], role[p := Free], [p] + free;
    forall k: nat | k < |free'| ensures LinkOk(mem', free', k) {
      if k > 0 { assert LinkOk(mem, free, k - 1) && free[k - 1] in free; }
    }
    forall k: nat, l: nat | k < l < |free'| ensures Differ(free', k, l) {
      if k == 0 { assert free[l - 1] in free; } else { assert Differ(free, k - 1, l - 1); }
    }
    forall q: nat | q in role' || q in free' ensures ListedPage(role', free', q) {
      assert q in role || q in free ==> ListedPage(role, free, q);
    }
  }

  // ----- frames -----

  /** A page that an operation on root r may take, change or give back. */
  ghost predicate Mine(ro: Role, r: nat) {
    ro.Free? || (ro.At? && Origin(ro.path) == r)
  }

  ghost predicate FramePage(mem: Memory, role: Roles, mem': Memory, role': Roles, r: nat, p: nat) {
    && p in role && p in role' && p in mem && p in mem'
    && if Mine(role[p], r) then Mine(role'[p], r) else role'[p] == role[p] && mem'[p] == mem[p]
  }

  /** Every page but x that is held, or is in the tree of another root, is unchanged, and
      the others stay free or in the tree of r. */
  ghost predicate Frame(mem: Memory, role: Roles, mem': Memory, role': Roles, r: nat, x: nat) {
    && role'.Keys == role.Keys
    && forall p {:trigger FramePage(mem, role, mem', role', r, p)} :: p in role && p != x
        ==> FramePage(mem, role, mem', role', r, p)
  }

  lemma FrameTwice(m0: Memory, r0: Roles, m1: Memory, r1: Roles, m2: Memory, r2: Roles, r: nat, x: nat)
    requires Frame(m0, r0, m1, r1, r, x) && Frame(m1, r1, m2, r2, r, x)
    ensures Frame(m0, r0, m2, r2, r, x)
  {
    forall p | p in r0 && p != x ensures FramePage(m0, r0, m2, r2, r, p) {
      assert FramePage(m0, r0, m1, r1, r, p) && FramePage(m1, r1, m2, r2, r, p);
    }
  }

  ghost predicate IsPage(a: nat) { a % PGSIZE == 0 && a < MAXVA }

  lemma OnlyPage(a: nat, b: nat)
    requires IsPage(a) && b % PGSIZE == 0 && b <= a < b + PGSIZE
    ensures a == b
  {
  }

  ghost function LeafPath(r: nat, a: nat): (p: Path)
    ensures Origin(p) == r && Depth(p) == 3
  {
    Step(LowPath(r, Px(2, a), Px(1, a)), Px(0, a))
  }

  /** Address a is mapped to a page of its own. */
  ghost predicate Owns(mem: Memory, role: Roles, r: nat, a: nat) {
    var e := Lookup(mem, r, a);
    e.v && IsAt(role, e.pa, LeafPath(r, a))
  }

  /** Two addresses never own the same page. */
  lemma OwnsOnce(mem: Memory, role: Roles, r: nat, a: nat, s: nat, b: nat)
    requires IsPage(a) && IsPage(b) && Owns(mem, role, r, a) && Owns(mem, role, s, b)
    requires Lookup(mem, r, a).pa == Lookup(mem, s, b).pa
    ensures r == s && a == b
  {
    assert LeafPath(r, a) == LeafPath(s, b);
    PxInjective(a, b);
  }

  /** Address a translates as before, and if it owns its page, that has the same bytes. */
  ghost predicate AddrKept(mem: Memory, role: Roles, mem': Memory, role': Roles, r: nat, a: nat) {
    var e := Lookup(mem, r, a);
    && Lookup(mem', r, a) == e
    && (Owns(mem, role, r, a) ==>
        e.pa in role' && role'[e.pa] == role[e.pa] && e.pa in mem && e.pa in mem' && mem'[e.pa] == mem[e.pa])
  }

  /** The pages of root r outside [lo, hi) are as before. */
  ghost predicate Kept(mem: Memory, role: Roles, mem': Memory, role': Roles, r: nat, lo: nat, hi: nat) {
    forall a: nat {:trigger AddrKept(mem, role, mem', role', r, a)} :: IsPage(a) && !(lo <= a < hi)
        ==> AddrKept(mem, role, mem', role', r, a)
  }

  /** [lo, hi) covers [a, b). */
  ghost predicate Covers(lo: nat, hi: nat, a: nat, b: nat) { b <= a || (lo <= a && b <= hi) }

  lemma KeptTwice(m0: Memory, r0: Roles, m1: Memory, r1: Roles, m2: Memory, r2: Roles, r: nat, a: nat, b: nat, c: nat,
      d: nat, lo: nat, hi: nat)
    requires Kept(m0, r0, m1, r1, r, a, b) && Kept(m1, r1, m2, r2, r, c, d) && Covers(lo, hi, a, b)
        && Covers(lo, hi, c, d)
    ensures Kept(m0, r0, m2, r2, r, lo, hi)
  {
    forall x: nat | IsPage(x) && !(lo <= x < hi) ensures AddrKept(m0, r0, m2, r2, r, x) {
      assert AddrKept(m0, r0, m1, r1, r, x) && AddrKept(m1, r1, m2, r2, r, x);
    }
  }

  /** What an operation on root r leaves alone carries over to every other root. */
  lemma OtherRoots(mem: Memory, role: Roles, mem': Memory, role': Roles, r: nat, x: nat, s: nat)
    requires Matched(mem, role, NOHOLE) && mem'.Keys == mem.Keys && Frame(mem, role, mem', role', r, x)
    requires Live(role, s) && s != r && (x in role ==> !role[x].At?)
    ensures Live(role', s) && Kept(mem, role, mem', role', s, 0, 0)
  {
    assert FramePage(mem, role, mem', role', r, s);
    forall p | p in role && role[p].At? && Origin(role[p].path) == s ensures mem'[p] == mem[p] && role'[p] == role[p] {
      assert FramePage(mem, role, mem', role', r, p);
    }
    forall a: nat | IsPage(a) ensures AddrKept(mem, role, mem', role', s, a) {
      SameTablesSameEntries(mem, mem', role, s, Px(2, a), Px(1, a), Px(0, a));
    }
  }
}
