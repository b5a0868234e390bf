/** The pages of physical memory, what each one is for, and the three-level page tables
    that they make up (kernel/vm.c). */
module PageTree {
  import opened PageFormat

  newtype byte = x: int | 0 <= x < 256

  /** The contents of a page: a page-table page, data, or a link of the free list. */
  datatype Page = Table(ptes: seq<Pte>) | Bytes(data: seq<byte>) | Run(next: nat)

  /** A place in a page table: the root page, or an entry of the page at another place. */
  datatype Path = Root(root: nat) | Step(up: Path, index: nat)

  /** What a page is for. Held pages belong to whoever called kalloc. */
  datatype Role = Free | Held | At(path: Path, parent: nat)

  type Memory = map<nat, Page>
  type Roles = map<nat, Role>

  function Depth(p: Path): nat {
    if p.Root? then 0 else Depth(p.up) + 1
  }

  function Origin(p: Path): nat {
    if p.Root? then p.root else Origin(p.up)
  }

  const EMPTY := Table(seq(ENTRIES, i => ZERO))

  /** The page that entry i of page p points to, or 0. */
  ghost function Child(mem: Memory, p: nat, i: nat): nat {
    if p in mem && mem[p].Table? && i < |mem[p].ptes| && mem[p].ptes[i].v then mem[p].ptes[i].pa else 0
  }

  /** The entry for a place of depth 3, as the hardware finds it. */
  ghost function EntryAt(mem: Memory, r: nat, i: nat, j: nat, k: nat): Pte {
    var low := Child(mem, Child(mem, r, i), j);
    if low in mem && mem[low].Table? && k < |mem[low].ptes| then mem[low].ptes[k] else ZERO
  }

  /** The entry that translates page va under root r. */
  ghost function Lookup(mem: Memory, r: nat, va: nat): Pte {
    EntryAt(mem, r, Px(2, va), Px(1, va), Px(0, va))
  }

  // ----- the invariant -----

  predicate IsDir(e: Pte) { e.v && !e.r && !e.w && !e.x && !e.u && e.rest == 0 }

  predicate IsLeaf(e: Pte) { e.v && (e.r || e.w || e.x) }

  /** Entry i of the table q at place path. Above the last level it points to the table at
      the next place; the upper half of a root, for addresses from MAXVA on,
          is clear. A leaf may point to a page of its own or to any other page, as those
      for the trampoline and the trapframe do. */
  ghost predicate WordOk(role: Roles, q: nat, path: Path, i: nat, e: Pte) {
    if !e.v then e == ZERO
    else if path.Root? && i >= TOPS then false
    else if Depth(path) < 2 then IsDir(e) && e.pa in role && role[e.pa] == At(Step(path, i), q)
    else IsLeaf(e) && e.pa != 0
  }

  /** The page at place path, whose parent page is parent, is linked from there. */
  ghost predicate Linked(mem: Memory, role: Roles, q: nat, path: Path, parent: nat) {
    match path
    case Root(r) => q == r
    case Step(up, i) =>
      && i < ENTRIES && parent in role && role[parent].At? && role[parent].path == up
      && Child(mem, parent, i) == q
  }

  ghost predicate TableOk(mem: Memory, role: Roles, q: nat, path: Path, hole: (nat, nat)) {
    && q in mem && mem[q].Table? && |mem[q].ptes| == ENTRIES
    && forall i {:trigger mem[q].ptes[i]} :: 0 <= i < ENTRIES && (q, i) != hole
        ==> WordOk(role, q, path, i, mem[q].ptes[i])
  }

  /** The page q serves its purpose. The entry at hole, if any, is exempt. */
  ghost predicate PageOk(mem: Memory, role: Roles, q: nat, hole: (nat, nat)) {
    q in mem && q in role &&
    match role[q]
    case Free => mem[q].Run?
    case Held => mem[q].Bytes? && |mem[q].data| == PGSIZE
    case At(path, parent) =>
      && Depth(path) <= 3 && Linked(mem, role, q, path, parent)
      && if Depth(path) == 3 then mem[q].Bytes? && |mem[q].data| == PGSIZE else TableOk(mem, role, q, path, hole)
  }

  /** The entries of a root for addresses below MAXVA. */
  const TOPS: nat := 256

  const NOHOLE := (0, 0)

  ghost predicate Matched(mem: Memory, role: Roles, hole: (nat, nat)) {
    && mem.Keys == role.Keys && 0 !in role
    && forall q {:trigger PageOk(mem, role, q, hole)} :: q in role ==> PageOk(mem, role, q, hole)
  }

  ghost predicate IsAt(role: Roles, q: nat, path: Path) {
    q in role && role[q].At? && role[q].path == path
  }

  /** Each place is the place of at most one page. */
  lemma {:induction false} PlaceIsUnique(mem: Memory, role: Roles, hole: (nat, nat), p: nat, q: nat)
    requires Matched(mem, role, hole) && p in role && role[p].At? && IsAt(role, q, role[p].path)
    ensures p == q
    decreases Depth(role[p].path)
  {
    assert PageOk(mem, role, p, hole) && PageOk(mem, role, q, hole);
    if role[p].path.Step? {
      PlaceIsUnique(mem, role, hole, role[p].parent, role[q].parent);
    }
  }

  // ----- the steps that change memory -----

  ghost function SetWord(mem: Memory, q: nat, i: nat, e: Pte): Memory
    requires q in mem && mem[q].Table? && i < |mem[q].ptes|
  {
    mem[q := Table(mem[q].ptes[i := e])]
  }

  /** kalloc takes a page off the free list. */
  lemma AllocKeeps(mem: Memory, role: Roles, p: nat, d: seq<byte>)
    requires Matched(mem, role, NOHOLE) && p in role && role[p].Free? && |d| == PGSIZE
    ensures Matched(mem[p := Bytes(d)], role[p := Held], NOHOLE)
  {
    var mem', role' := mem[p := Bytes(d)], role[p := Held];
    forall q | q in role ensures PageOk(mem', role', q, NOHOLE) {
      assert PageOk(mem, role, q, NOHOLE) && PageOk(mem, role, p, NOHOLE);
    }
  }

  /** kfree of a page that is not a table. */
  lemma FreeKeeps(mem: Memory, role: Roles, p: nat, next: nat)
    requires Matched(mem, role, NOHOLE) && p in role && (role[p].At? ==> Depth(role[p].path) == 3)
    ensures Matched(mem[p := Run(next)], role[p := Free], NOHOLE)
  {
    var mem', role' := mem[p := Run(next)], role[p := Free];
    forall q | q in role ensures PageOk(mem', role', q, NOHOLE) {
      assert PageOk(mem, role, q, NOHOLE) && PageOk(mem, role, p, NOHOLE);
    }
  }

  /** Changing the bytes of a page. */
  lemma DataKeeps(mem: Memory, role: Roles, p: nat, d: seq<byte>)
    requires Matched(mem, role, NOHOLE) && p in role && mem[p].Bytes? && |d| == PGSIZE
    ensures Matched(mem[p := Bytes(d)], role, NOHOLE)
  {
    var mem' := mem[p := Bytes(d)];
    forall q | q in role ensures PageOk(mem', role, q, NOHOLE) {
      assert PageOk(mem, role, q, NOHOLE) && PageOk(mem, role, p, NOHOLE);
    }
  }

  /** A zeroed page becomes a root. */
  lemma RootKeeps(mem: Memory, role: Roles, p: nat)
    requires Matched(mem, role, NOHOLE) && p in role && role[p].Held?
    ensures Matched(mem[p := EMPTY], role[p := At(Root(p), 0)], NOHOLE)
  {
    var mem', role' := mem[p := EMPTY], role[p := At(Root(p), 0)];
    forall q | q in role ensures PageOk(mem', role', q, NOHOLE) {
      assert PageOk(mem, role, q, NOHOLE) && PageOk(mem, role, p, NOHOLE);
    }
  }

  /** A zeroed page p becomes the table at entry i of page q. */
  lemma AttachKeeps(mem: Memory, role: Roles, q: nat, i: nat, p: nat)
    requires Matched(mem, role, NOHOLE) && q in role && role[q].At? && Depth(role[q].path) < 2 && i < ENTRIES
    requires p in role && role[p].Held?
    requires PageOk(mem, role, q, NOHOLE) && !mem[q].ptes[i].v && (role[q].path.Root? ==> i < TOPS)
    ensures Matched(SetWord(mem, q, i, ZERO.(v := true, pa := p))[p := EMPTY], role[p := At(Step(role[q].path, i), q)],
        NOHOLE)
  {
    var mem', role' := SetWord(mem, q, i, ZERO.(v := true, pa := p))[p := EMPTY],
        role[p := At(Step(role[q].path, i), q)];
    forall x | x in role ensures PageOk(mem', role', x, NOHOLE) {
      assert PageOk(mem, role, x, NOHOLE) && PageOk(mem, role, p, NOHOLE);
    }
  }

  /** Entry k of the last-level page q is set to a leaf; the page that it points to may
      become its own. */
  lemma MapKeeps(mem: Memory, role: Roles, q: nat, k: nat, e: Pte, own: bool)
    requires Matched(mem, role, NOHOLE) && q in role && role[q].At? && Depth(role[q].path) == 2 && k < ENTRIES
    requires IsLeaf(e) && e.pa != 0 && (own ==> e.pa in role && role[e.pa].Held?)
    requires PageOk(mem, role, q, NOHOLE) && !mem[q].ptes[k].v
    ensures Matched(SetWord(mem, q, k, e), if own then role[e.pa := At(Step(role[q].path, k), q)] else role, NOHOLE)
  {
    var mem', role' := SetWord(mem, q, k, e), if own then role[e.pa := At(Step(role[q].path, k), q)] else role;
    forall x | x in role ensures PageOk(mem', role', x, NOHOLE) {
      assert PageOk(mem, role, x, NOHOLE);
      if own { assert PageOk(mem, role, e.pa, NOHOLE); }
    }
  }

  /** Entry k of the last-level page q owns the page it points to. */
  ghost predicate OwnsAt(mem: Memory, role: Roles, q: nat, k: nat) {
    && q in mem && mem[q].Table? && k < |mem[q].ptes| && mem[q].ptes[k].v && q in role && role[q].At?
    && mem[q].ptes[k].pa in role && role[mem[q].ptes[k].pa] == At(Step(role[q].path, k), q)
  }

  /** Entry k of the last-level page q is cleared; a page of its own becomes held. */
  lemma UnmapKeeps(mem: Memory, role: Roles, q: nat, k: nat)
    requires Matched(mem, role, NOHOLE) && q in role && role[q].At? && Depth(role[q].path) == 2 && k < ENTRIES
    requires PageOk(mem, role, q, NOHOLE)
    ensures Matched(SetWord(mem, q, k, ZERO), if OwnsAt(mem, role, q, k) then role[mem[q].ptes[k].pa := Held]
        else role, NOHOLE)
  {
    var mem', role' := SetWord(mem, q, k, ZERO), if OwnsAt(mem, role, q, k) then role[mem[q].ptes[k].pa := Held]
        else role;
    forall x | x in role ensures PageOk(mem', role', x, NOHOLE) {
      assert PageOk(mem, role, x, NOHOLE);
      if role[x].At? && role[x].path == Step(role[q].path, k) {
        PlaceIsUnique(mem, role, NOHOLE, q, role[x].parent);
      }
      if OwnsAt(mem, role, q, k) { assert PageOk(mem, role, mem[q].ptes[k].pa, NOHOLE); }
    }
  }

  /** The flags of a leaf change. */
  lemma FlagsKeep(mem: Memory, role: Roles, q: nat, k: nat, e: Pte)
    requires Matched(mem, role, NOHOLE) && q in role && role[q].At? && Depth(role[q].path) == 2 && k < ENTRIES
    requires PageOk(mem, role, q, NOHOLE) && mem[q].ptes[k].v && IsLeaf(e) && e.pa == mem[q].ptes[k].pa
    ensures Matched(SetWord(mem, q, k, e), role, NOHOLE)
  {
    var mem' := SetWord(mem, q, k, e);
    forall x | x in role ensures PageOk(mem', role, x, NOHOLE) {
      assert PageOk(mem, role, x, NOHOLE);
    }
  }

  /** Entries of q below n are clear. */
  ghost predicate ClearTo(mem: Memory, q: nat, n: nat) {
    q in mem && mem[q].Table? && n <= |mem[q].ptes| && forall i {:trigger mem[q].ptes[i]} :: 0 <= i < n ==>
        !mem[q].ptes[i].v
  }

  /** The place of the entry that points to page p, left dangling when p is freed. */
  ghost function HoleOf(role: Roles, p: nat): (nat, nat)
    requires p in role && role[p].At?
  {
    if role[p].path.Root? then NOHOLE else (role[p].parent, role[p].path.index)
  }

  /** A table without entries is freed; the entry that points to it is left for the caller. */
  lemma DropKeeps(mem: Memory, role: Roles, p: nat, next: nat)
    requires Matched(mem, role, NOHOLE) && p in role && role[p].At? && Depth(role[p].path) <= 2
        && ClearTo(mem, p, ENTRIES)
    ensures Matched(mem[p := Run(next)], role[p := Free], HoleOf(role, p))
  {
    var mem', role', hole := mem[p := Run(next)], role[p := Free], HoleOf(role, p);
    forall x | x in role ensures PageOk(mem', role', x, hole) {
      assert PageOk(mem, role, x, NOHOLE) && PageOk(mem, role, p, NOHOLE);
    }
  }

  /** Clearing the dangling entry. */
  lemma HoleKeeps(mem: Memory, role: Roles, q: nat, i: nat)
    requires Matched(mem, role, (q, i)) && q in role && role[q].At? && Depth(role[q].path) < 2 && i < ENTRIES
    requires PageOk(mem, role, q, (q, i)) && mem[q].ptes[i].pa in role && role[mem[q].ptes[i].pa].Free?
    ensures Matched(SetWord(mem, q, i, ZERO), role, NOHOLE)
  {
    var mem' := SetWord(mem, q, i, ZERO);
    forall x | x in role ensures PageOk(mem', role, x, NOHOLE) {
      assert PageOk(mem, role, x, (q, i));
    }
  }

  // ----- what translation depends on -----

  ghost predicate Live(role: Roles, r: nat) { IsAt(role, r, Root(r)) }

  /** The place of the last-level table for indices i and j. */
  ghost function LowPath(r: nat, i: nat, j: nat): (p: Path)
    ensures Origin(p) == r && Depth(p) == 2
  {
    assert Depth(Root(r)) == 0 && Origin(Root(r)) == r;
    assert Depth(Step(Root(r), i)) == 1 && Origin(Step(Root(r), i)) == r;
    Step(Step(Root(r), i), j)
  }

  /** The page at a place of depth 2 is the one that translation reaches. */
  lemma LowEntry(mem: Memory, role: Roles, r: nat, i: nat, j: nat, low: nat)
    requires Matched(mem, role, NOHOLE) && IsAt(role, low, LowPath(r, i, j))
    ensures Live(role, r) && i < ENTRIES && j < ENTRIES && low == Child(mem, Child(mem, r, i), j) && low in mem
        && mem[low].Table? && |mem[low].ptes| == ENTRIES
    ensures forall k :: 0 <= k < ENTRIES ==> EntryAt(mem, r, i, j, k) == mem[low].ptes[k]
  {
    assert PageOk(mem, role, low, NOHOLE);
    assert PageOk(mem, role, role[low].parent, NOHOLE);
    assert PageOk(mem, role, role[role[low].parent].parent, NOHOLE);
  }

  /** Translation from a live root goes through the tables at the places on the way. */
  lemma Reaches(mem: Memory, role: Roles, r: nat, i: nat, j: nat)
    requires Matched(mem, role, NOHOLE) && Live(role, r) && i < ENTRIES && j < ENTRIES
    ensures var mid := Child(mem, r, i);
            var low := Child(mem, mid, j);
            && (if mid == 0 then low == 0 else IsAt(role, mid, Step(Root(r), i)))
            && (low != 0 ==>
                IsAt(role, low, LowPath(r, i, j)) && low in mem && mem[low].Table? && |mem[low].ptes| == ENTRIES)
            && (low == 0 ==> forall k: nat :: EntryAt(mem, r, i, j, k) == ZERO)
  {
    assert PageOk(mem, role, r, NOHOLE);
    var mid := Child(mem, r, i);
    if mid != 0 {
      assert PageOk(mem, role, mid, NOHOLE);
      if Child(mem, mid, j) != 0 { assert PageOk(mem, role, Child(mem, mid, j), NOHOLE); }
    }
  }

  /** The tables of root r, other than page x, are the same. */
  ghost predicate SameTables(mem: Memory, mem': Memory, role: Roles, r: nat, x: nat) {
    forall p {:trigger role[p]} ::
        p in role && role[p].At? && Origin(role[p].path) == r && Depth(role[p].path) <= 2 && p != x ==>
        p in mem && p in mem' && mem'[p] == mem[p]
  }

  /** Translation under r depends on the tables of r only. */
  lemma SameTablesSameEntries(mem: Memory, mem': Memory, role: Roles, r: nat, i: nat, j: nat, k: nat)
    requires Matched(mem, role, NOHOLE) && Live(role, r) && i < ENTRIES && j < ENTRIES && k < ENTRIES
    requires SameTables(mem, mem', role, r, 0) && 0 !in mem'
    ensures EntryAt(mem', r, i, j, k) == EntryAt(mem, r, i, j, k)
  {
    Reaches(mem, role, r, i, j);
    assert PageOk(mem, role, r, NOHOLE);
  }

  /** Writing entry n of the table at LowPath(r, a, b) changes that entry and no other. */
  lemma WriteEntry(mem: Memory, mem': Memory, role: Roles, r: nat, a: nat, b: nat, q: nat, n: nat, e: Pte, i: nat,
      j: nat, k: nat)
    requires Matched(mem, role, NOHOLE) && IsAt(role, q, LowPath(r, a, b)) && n < ENTRIES
    requires i < ENTRIES && j < ENTRIES && k < ENTRIES && 0 !in mem'
    requires SameTables(mem, mem', role, r, q) && q in mem && q in mem' && mem[q].Table? && n < |mem[q].ptes|
        && mem'[q] == Table(mem[q].ptes[n := e])
    ensures EntryAt(mem', r, i, j, k) == if (i, j, k) == (a, b, n) then e else EntryAt(mem, r, i, j, k)
  {
    LowEntry(mem, role, r, a, b, q);
    Reaches(mem, role, r, i, j);
    Reaches(mem, role, r, a, b);
    assert PageOk(mem, role, r, NOHOLE);
  }

  /** Attaching an empty table leaves every translation as it was. */
  lemma AttachEntry(mem: Memory, role: Roles, q: nat, n: nat, p: nat, r: nat, i: nat, j: nat, k: nat)
    requires Matched(mem, role, NOHOLE) && q in role && role[q].At? && Depth(role[q].path) < 2 && n < ENTRIES
    requires p in role && role[p].Held? && Live(role, r) && i < ENTRIES && j < ENTRIES && k < ENTRIES
    requires PageOk(mem, role, q, NOHOLE) && !mem[q].ptes[n].v
    ensures EntryAt(SetWord(mem, q, n, ZERO.(v := true, pa := p))[p := EMPTY], r, i, j, k) == EntryAt(mem, r, i, j, k)
  {
    Reaches(mem, role, r, i, j);
    assert PageOk(mem, role, r, NOHOLE) && PageOk(mem, role, p, NOHOLE);
    var mem' := SetWord(mem, q, n, ZERO.(v := true, pa := p))[p := EMPTY];
    var mid := Child(mem, r, i);
    if mid == 0 {
      assert Child(mem', r, i) == (if q == r && n == i then p else 0);
    } else {
      assert Child(mem', r, i) == mid;
      if Child(mem, mid, j) == 0 {
        assert Child(mem', mid, j) == (if q == mid && n == j then p else 0);
      }
    }
  }

  // ----- one path to each page -----

  /** The page that path leads to, following entries from its root. */
  ghost function PageAt(mem: Memory, path: Path): nat {
    if path.Root? then path.root else Child(mem, PageAt(mem, path.up), path.index)
  }

  ghost predicate Indices(path: Path) { path.Step? ==> path.index < ENTRIES && Indices(path.up) }

  /** Following a path from a live root through tables leads to the page at that place. */
  lemma {:induction false} PathLeads(mem: Memory, role: Roles, path: Path)
    requires Matched(mem, role, NOHOLE) && Live(role, Origin(path)) && Depth(path) <= 2 && Indices(path)
        && PageAt(mem, path) != 0
    ensures IsAt(role, PageAt(mem, path), path)
    decreases path
  {
    if path.Step? {
      var q := PageAt(mem, path.up);
      if q != 0 {
        PathLeads(mem, role, path.up);
        assert PageOk(mem, role, q, NOHOLE);
        assert WordOk(role, q, path.up, path.index, mem[q].ptes[path.index]);
      }
    }
  }

  /** Each page-table page is reached by exactly one path from a live root. */
  lemma OnePath(mem: Memory, role: Roles, p: Path, q: Path)
    requires Matched(mem, role, NOHOLE) && Live(role, Origin(p)) && Live(role, Origin(q))
    requires Depth(p) <= 2 && Depth(q) <= 2 && Indices(p) && Indices(q)
    requires PageAt(mem, p) == PageAt(mem, q) != 0
    ensures p == q
  {
    PathLeads(mem, role, p);
    PathLeads(mem, role, q);
  }

  /** Every page that is at a place is reached by that path, so none is lost. */
  lemma {:induction false} Reached(mem: Memory, role: Roles, q: nat)
    requires Matched(mem, role, NOHOLE) && q in role && role[q].At?
    ensures Live(role, Origin(role[q].path)) && PageAt(mem, role[q].path) == q
    decreases Depth(role[q].path)
  {
    assert PageOk(mem, role, q, NOHOLE);
    if role[q].path.Step? { Reached(mem, role, role[q].parent); }
  }
}
