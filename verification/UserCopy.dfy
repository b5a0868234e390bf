/** Copying between the kernel and user memory (kernel/vm.c). */
module UserCopy {
  import opened PageFormat
  import opened PageTree
  import opened PageFrames
  import opened Vm

  // ----- user memory as bytes -----

  /** The entry for the page of va. */
  ghost function EntryOf(mem: Memory, r: nat, va: nat): Pte { Lookup(mem, r, PgRoundDown(va)) }

  ghost predicate Readable(mem: Memory, r: nat, va: nat) {
    va < MAXVA && EntryOf(mem, r, va).v && EntryOf(mem, r, va).u
  }

  ghost predicate Writable(mem: Memory, r: nat, va: nat) {
    Readable(mem, r, va) && EntryOf(mem, r, va).w
  }

  ghost predicate HasData(mem: Memory, p: nat) { p in mem && mem[p].Bytes? && |mem[p].data| == PGSIZE }

  /** The byte at va, for an address that is mapped to data. */
  ghost function UserByte(mem: Memory, r: nat, va: nat): byte {
    var p := EntryOf(mem, r, va).pa;
    if HasData(mem, p) then mem[p].data[va % PGSIZE] else 0
  }

  ghost predicate ByteAt(mem: Memory, r: nat, va: nat, d: seq<byte>, k: nat) {
    k < |d| && Readable(mem, r, va + k) && UserByte(mem, r, va + k) == d[k]
  }

  /** d is what is in memory at va. */
  ghost predicate BytesAt(mem: Memory, r: nat, va: nat, d: seq<byte>) {
    forall k: nat {:trigger ByteAt(mem, r, va, d, k)} :: k < |d| ==> ByteAt(mem, r, va, d, k)
  }

  /** Address va + k is in the page of va. */
  lemma SamePageAs(va: nat, k: nat)
    requires va - PgRoundDown(va) + k < PGSIZE
    ensures PgRoundDown(va + k) == PgRoundDown(va) && (va + k) % PGSIZE == va % PGSIZE + k
  {
    var q, o := va / PGSIZE, va % PGSIZE;
    assert va == q * PGSIZE + o && o + k < PGSIZE;
    assert (q * PGSIZE + (o + k)) / PGSIZE == q;
  }

  /** A page that user mode can read is data, and the page of its address. */
  lemma ReadablePage(mem: Memory, role: Roles, r: nat, n: nat, ext: set<nat>, va: nat)
    requires Matched(mem, role, NOHOLE) && Space(mem, role, r, n, ext) && Readable(mem, r, va)
    ensures IsPage(PgRoundDown(va)) && Owns(mem, role, r, PgRoundDown(va)) && HasData(mem, EntryOf(mem, r, va).pa)
        && EntryOf(mem, r, va).pa != 0
  {
    assert PlaceOk(mem, role, r, n, ext, PgRoundDown(va));
    assert PageOk(mem, role, EntryOf(mem, r, va).pa, NOHOLE);
  }

  // ----- copyin and copyinstr -----

  /** walkaddr */
  method Walkaddr(vm: Vm, r: nat, va: nat, ghost n: nat, ghost ext: set<nat>) returns (pa: nat)
    requires vm.Valid() && Space(vm.mem, vm.role, r, n, ext) && va % PGSIZE == 0
    ensures (pa == 0 <==> !Readable(vm.mem, r, va))
    ensures pa != 0 ==> pa == EntryOf(vm.mem, r, va).pa && HasData(vm.mem, pa)
  {
    if va >= MAXVA {
      return 0;
    }
    assert PgRoundDown(va) == va;
    var pt, k := vm.Walk(r, va, false);
    if pt == 0 {
      return 0;
    }
    LowEntry(vm.mem, vm.role, r, Px(2, va), Px(1, va), pt);
    if !vm.mem[pt].ptes[k].v {
      return 0;
    }
    if !vm.mem[pt].ptes[k].u {
      return 0;
    }
    ReadablePage(vm.mem, vm.role, r, n, ext, va);
    pa := vm.mem[pt].ptes[k].pa;
  }

  /** What is left of the page of va, or m if that is less. */
  function Chunk(va: nat, m: nat): (n: nat)
    ensures va - PgRoundDown(va) + n <= PGSIZE && n <= m && (m > 0 ==> n > 0)
        && (n < m ==> va + n == PgRoundDown(va) + PGSIZE)
  {
    var n := PGSIZE - (va - PgRoundDown(va));
    if n > m then m else n
  }

  lemma ChunkRead(mem: Memory, r: nat, va: nat, n: nat)
    requires va - PgRoundDown(va) + n <= PGSIZE && n > 0 && Readable(mem, r, PgRoundDown(va))
        && HasData(mem, EntryOf(mem, r, va).pa) && va < MAXVA
    ensures va % PGSIZE + n <= PGSIZE
        && BytesAt(mem, r, va, mem[EntryOf(mem, r, va).pa].data[va % PGSIZE..va % PGSIZE + n])
  {
    PageOffset(va);
    var p := EntryOf(mem, r, va).pa;
    RoundTwice(va);
    var d := mem[p].data[va % PGSIZE..va % PGSIZE + n];
    forall k: nat | k < |d| ensures ByteAt(mem, r, va, d, k) {
      SamePageAs(va, k);
      BelowMaxva(va, va + k);
      assert d[k] == mem[p].data[va % PGSIZE + k];
    }
  }

  lemma BytesJoined(mem: Memory, r: nat, va: nat, d: seq<byte>, e: seq<byte>)
    requires BytesAt(mem, r, va, d) && BytesAt(mem, r, va + |d|, e)
    ensures BytesAt(mem, r, va, d + e)
  {
    forall k: nat | k < |d + e| ensures ByteAt(mem, r, va, d + e, k) {
      if k < |d| {
        assert ByteAt(mem, r, va, d, k);
      } else {
        assert ByteAt(mem, r, va + |d|, e, k - |d|);
        assert (va + |d|) + (k - |d|) == va + k;
      }
    }
  }

  /** copyin returns the bytes of user memory; it fails if and only if one of them is not
      readable, at the first page that is not. */
  method Copyin(vm: Vm, r: nat, va: nat, len: nat, ghost n: nat, ghost ext: set<nat>) returns (rc: int, dst: seq<byte>)
    requires vm.Valid() && Space(vm.mem, vm.role, r, n, ext)
    ensures BytesAt(vm.mem, r, va, dst)
    ensures if rc == 0 then |dst| == len else rc == -1 && |dst| < len && !Readable(vm.mem, r, va + |dst|)
  {
    dst := [];
    var srcva, left := va, len;
    while left > 0
      invariant 0 <= left && (left > 0 ==> srcva == va + |dst|) && |dst| + left == len && BytesAt(vm.mem, r, va, dst)
    {
      var va0 := PgRoundDown(srcva);
      var pa0 := Walkaddr(vm, r, va0, n, ext);
      RoundTwice(srcva);
      if pa0 == 0 {
        return -1, dst;
      }
      var m := Chunk(srcva, left);
      PageOffset(srcva);
      ChunkRead(vm.mem, r, srcva, m);
      var d := vm.mem[pa0].data[srcva - va0..srcva - va0 + m];
      BytesJoined(vm.mem, r, va, dst, d);
      dst := dst + d;
      left := left - m;
      srcva := va0 + PGSIZE;
    }
    rc := 0;
  }

  lemma RoundTwice(va: nat)
    ensures PgRoundDown(PgRoundDown(va)) == PgRoundDown(va) && (va < MAXVA <==> PgRoundDown(va) < MAXVA)
  {
  }

  lemma BelowMaxva(a: nat, b: nat)
    requires PgRoundDown(a) == PgRoundDown(b) && a < MAXVA
    ensures b < MAXVA
  {
    RoundTwice(a);
    RoundTwice(b);
  }

  lemma PageOffset(va: nat)
    ensures va - PgRoundDown(va) == va % PGSIZE
  {
  }

  /** The string at va ends within max readable bytes, at byte k. */
  ghost predicate EndsAt(mem: Memory, r: nat, va: nat, k: nat) {
    && Readable(mem, r, va + k) && UserByte(mem, r, va + k) == 0
    && forall j: nat {:trigger Inside(mem, r, va, j)} :: j < k ==> Inside(mem, r, va, j)
  }

  ghost predicate Inside(mem: Memory, r: nat, va: nat, j: nat) {
    Readable(mem, r, va + j)
    && UserByte(mem, r, va + j) != 0
  }

  /** A string has one end. */
  lemma EndIsUnique(mem: Memory, r: nat, va: nat, j: nat, k: nat)
    requires EndsAt(mem, r, va, j) && EndsAt(mem, r, va, k)
    ensures j == k
  {
    assert j < k ==> Inside(mem, r, va, j);
    assert k < j ==> Inside(mem, r, va, k);
  }

  /** The bytes before va + k are readable and not 0. */
  ghost predicate NoEndBefore(mem: Memory, r: nat, va: nat, k: nat) {
    forall j: nat {:trigger Inside(mem, r, va, j)} :: j < k ==> Inside(mem, r, va, j)
  }

  /** The inner loop of copyinstr, over what is left of one page: copy until a 0. */
  method CopyChunk(vm: Vm, r: nat, va: nat, m: nat, pa0: nat) returns (d: seq<byte>, gotNull: bool)
    requires va - PgRoundDown(va) + m <= PGSIZE && m > 0 && va < MAXVA && Readable(vm.mem, r, va)
        && HasData(vm.mem, pa0) && pa0 == EntryOf(vm.mem, r, va).pa
    ensures BytesAt(vm.mem, r, va, d) && |d| <= m && (!gotNull ==> |d| == m)
    ensures if gotNull then |d| > 0 && EndsAt(vm.mem, r, va, |d| - 1) else NoEndBefore(vm.mem, r, va, |d|)
  {
    PageOffset(va);
    ghost var all := vm.mem[pa0].data[va % PGSIZE..va % PGSIZE + m];
    RoundTwice(va);
    ChunkRead(vm.mem, r, va, m);
    d, gotNull := [], false;
    var n, p := m, va - PgRoundDown(va);
    while n > 0
      invariant n <= m && |d| == m - n && p == va % PGSIZE + |d| && d == all[..|d|] && NoEndBefore(vm.mem, r, va, |d|)
    {
      assert ByteAt(vm.mem, r, va, all, |d|);
      var c := vm.mem[pa0].data[p];
      if c == 0 {
        gotNull := true;
        d := d + [c];
        break;
      }
      assert Inside(vm.mem, r, va, |d|);
      d := d + [c];
      n, p := n - 1, p + 1;
    }
    forall k: nat | k < |d| ensures ByteAt(vm.mem, r, va, d, k) {
      assert ByteAt(vm.mem, r, va, all, k) && d == all[..|d|];
    }
  }

  /** copyinstr returns the string at va with its final 0; it succeeds if and only if a 0 is
      within max readable bytes. */
  method Copyinstr(vm: Vm, r: nat, va: nat, max: nat, ghost n: nat, ghost ext: set<nat>)
      returns (rc: int, dst: seq<byte>)
    requires vm.Valid() && Space(vm.mem, vm.role, r, n, ext)
    ensures (rc == 0 || rc == -1)
    ensures rc == 0 <==> exists k: nat :: k < max && EndsAt(vm.mem, r, va, k)
    ensures rc == 0 ==> 0 < |dst| <= max && EndsAt(vm.mem, r, va, |dst| - 1) && BytesAt(vm.mem, r, va, dst)
  {
    dst := [];
    var srcva, left, gotNull := va, max, false;
    while !gotNull && left > 0
      invariant |dst| + left == max && 0 <= left && BytesAt(vm.mem, r, va, dst)
          && (!gotNull && left > 0 ==> srcva == va + |dst|)
      invariant if gotNull then |dst| > 0 && EndsAt(vm.mem, r, va, |dst| - 1) else NoEndBefore(vm.mem, r, va, |dst|)
      decreases !gotNull, left
    {
      var va0 := PgRoundDown(srcva);
      var pa0 := Walkaddr(vm, r, va0, n, ext);
      RoundTwice(srcva);
      if pa0 == 0 {
        NoString(vm.mem, r, va, |dst|, max);
        return -1, dst;
      }
      var d;
      d, gotNull := CopyChunk(vm, r, srcva, Chunk(srcva, left), pa0);
      BytesJoined(vm.mem, r, va, dst, d);
      StringJoined(vm.mem, r, va, |dst|, |d|, gotNull);
      dst := dst + d;
      left := left - |d|;
      srcva := va0 + PGSIZE;
    }
    if gotNull {
      rc := 0;
    } else {
      NoString(vm.mem, r, va, |dst|, max);
      rc := -1;
    }
  }

  lemma NoString(mem: Memory, r: nat, va: nat, k: nat, max: nat)
    requires NoEndBefore(mem, r, va, k) && (k == max || !Readable(mem, r, va + k))
    ensures !exists j: nat :: j < max && EndsAt(mem, r, va, j)
  {
    forall j: nat | j < max ensures !EndsAt(mem, r, va, j) {
      assert j < k ==> Inside(mem, r, va, j);
      assert k < j && EndsAt(mem, r, va, j) ==> Inside(mem, r, va, k);
    }
  }

  lemma StringJoined(mem: Memory, r: nat, va: nat, k: nat, m: nat, end: bool)
    requires NoEndBefore(mem, r, va, k)
    requires if end then m > 0 && EndsAt(mem, r, va + k, m - 1) else NoEndBefore(mem, r, va + k, m)
    ensures if end then EndsAt(mem, r, va, k + m - 1) else NoEndBefore(mem, r, va, k + m)
  {
    forall j: nat | j < (if end then k + m - 1 else k + m) ensures Inside(mem, r, va, j) {
      if j >= k {
        assert Inside(mem, r, va + k, j - k);
        assert va + k + (j - k) == va + j;
      } else {
        assert Inside(mem, r, va, j);
      }
    }
  }

  // ----- copyout -----

  /** Byte va of user memory after src was written at start. */
  ghost predicate Wrote(m0: Memory, mem: Memory, r: nat, start: nat, src: seq<byte>, va: nat) {
    UserByte(mem, r, va) == if start <= va < start + |src| then src[va - start] else UserByte(m0, r, va)
  }

  /** Page q is as before, unless it is user memory of r. */
  ghost predicate NotUser(m0: Memory, mem: Memory, role: Roles, r: nat, q: nat) {
    q in role && q in m0 && q in mem
        && ((role[q].At? && Depth(role[q].path) == 3 && Origin(role[q].path) == r) || mem[q] == m0[q])
  }

  ghost predicate SameEntry(m0: Memory, mem: Memory, r: nat, a: nat) { Lookup(mem, r, a) == Lookup(m0, r, a) }

  /** The page tables are as before, and so are all pages but those of user memory of r,
      whose bytes are those from before with src laid over them at start. */
  ghost predicate Stored(m0: Memory, mem: Memory, role: Roles, r: nat, n: nat, start: nat, src: seq<byte>) {
    && mem.Keys == m0.Keys
    && (forall q {:trigger NotUser(m0, mem, role, r, q)} :: q in role ==> NotUser(m0, mem, role, r, q))
    && (forall a: nat {:trigger SameEntry(m0, mem, r, a)} :: IsPage(a) ==> SameEntry(m0, mem, r, a))
    && (forall va: nat {:trigger Wrote(m0, mem, r, start, src, va)} :: va < n ==> Wrote(m0, mem, r, start, src, va))
  }

  function Overlay(d: seq<byte>, off: nat, src: seq<byte>): (r: seq<byte>)
    requires off + |src| <= |d|
    ensures |r| == |d| && forall i :: 0 <= i < |d| ==> r[i] == if off <= i < off + |src| then src[i - off] else d[i]
  {
    d[..off] + src + d[off + |src|..]
  }

  /** memmove of d into the page of va, which is mapped for user mode. */
  method Poke(vm: Vm, r: nat, va: nat, d: seq<byte>, pa0: nat, ghost n: nat, ghost ext: set<nat>)
    requires vm.Valid() && Space(vm.mem, vm.role, r, n, ext) && va - PgRoundDown(va) + |d| <= PGSIZE
        && Readable(vm.mem, r, va) && pa0 == EntryOf(vm.mem, r, va).pa
    modifies vm`mem
    ensures vm.Valid() && Space(vm.mem, vm.role, r, n, ext) && Stored(old(vm.mem), vm.mem, vm.role, r, n, va, d)
  {
    ReadablePage(vm.mem, vm.role, r, n, ext, va);
    PageOffset(va);
    var x := Overlay(vm.mem[pa0].data, va - PgRoundDown(va), d);
    DataKeeps(vm.mem, vm.role, pa0, x);
    vm.mem := vm.mem[pa0 := Bytes(x)];
    ListedKept(old(vm.mem), vm.role, vm.mem, vm.role, vm.freelist, vm.free);
    PokeMaps(old(vm.mem), vm.mem, vm.role, r, n, ext, pa0, x);
    PokeStores(old(vm.mem), vm.mem, vm.role, r, n, ext, va, d);
  }

  lemma PokeMaps(m0: Memory, mem: Memory, role: Roles, r: nat, n: nat, ext: set<nat>, p: nat, x: seq<byte>)
    requires Matched(m0, role, NOHOLE) && Space(m0, role, r, n, ext) && HasData(m0, p) && mem == m0[p := Bytes(x)]
        && p in role
    ensures forall a: nat {:trigger SameEntry(m0, mem, r, a)} :: IsPage(a) ==> SameEntry(m0, mem, r, a)
    ensures Space(mem, role, r, n, ext)
  {
    assert PageOk(m0, role, p, NOHOLE);
    forall q | q in role && role[q].At? && Depth(role[q].path) <= 2 ensures q != p {
      assert PageOk(m0, role, q, NOHOLE);
    }
    forall a: nat | IsPage(a) ensures SameEntry(m0, mem, r, a) && PlaceOk(mem, role, r, n, ext, a) {
      SameTablesSameEntries(m0, mem, role, r, Px(2, a), Px(1, a), Px(0, a));
      assert PlaceOk(m0, role, r, n, ext, a);
    }
  }

  lemma PokeStores(m0: Memory, mem: Memory, role: Roles, r: nat, n: nat, ext: set<nat>, va: nat, d: seq<byte>)
    requires Matched(m0, role, NOHOLE) && Space(m0, role, r, n, ext) && Readable(m0, r, va)
        && va - PgRoundDown(va) + |d| <= PGSIZE && va % PGSIZE + |d| <= PGSIZE
    requires HasData(m0, EntryOf(m0, r, va).pa)
        && mem == m0[EntryOf(m0, r, va).pa := Bytes(Overlay(m0[EntryOf(m0, r, va).pa].data, va % PGSIZE, d))]
    requires forall a: nat {:trigger SameEntry(m0, mem, r, a)} :: IsPage(a) ==> SameEntry(m0, mem, r, a)
    requires mem.Keys == m0.Keys == role.Keys
    ensures Stored(m0, mem, role, r, n, va, d)
  {
    ReadablePage(m0, role, r, n, ext, va);
    forall q | q in role ensures NotUser(m0, mem, role, r, q) {
    }
    forall b: nat | b < n ensures Wrote(m0, mem, r, va, d, b) {
      InPage(b);
      assert SameEntry(m0, mem, r, PgRoundDown(b));
      assert PlaceOk(m0, role, r, n, ext, PgRoundDown(b)) && PlaceOk(m0, role, r, n, ext, PgRoundDown(va));
      if EntryOf(m0, r, b).pa == EntryOf(m0, r, va).pa {
        OwnsOnce(m0, role, r, PgRoundDown(b), r, PgRoundDown(va));
        PageOffset(b);
        PageOffset(va);
      }
      if va <= b < va + |d| { SamePageAs(va, b - va); }
    }
  }

  lemma InPage(b: nat)
    requires b < TRAPFRAME
    ensures IsPage(PgRoundDown(b)) && PgRoundDown(b) <= b
  {
  }

  lemma StoredTwice(m0: Memory, m1: Memory, m2: Memory, role: Roles, r: nat, n: nat, va: nat, d: seq<byte>,
      e: seq<byte>)
    requires Stored(m0, m1, role, r, n, va, d) && Stored(m1, m2, role, r, n, va + |d|, e) && role.Keys == m0.Keys
    ensures Stored(m0, m2, role, r, n, va, d + e)
  {
    forall q | q in role ensures NotUser(m0, m2, role, r, q) {
      assert NotUser(m0, m1, role, r, q) && NotUser(m1, m2, role, r, q);
    }
    forall a: nat | IsPage(a) ensures SameEntry(m0, m2, r, a) {
      assert SameEntry(m0, m1, r, a) && SameEntry(m1, m2, r, a);
    }
    forall b: nat | b < n ensures Wrote(m0, m2, r, va, d + e, b) {
      assert Wrote(m0, m1, r, va, d, b) && Wrote(m1, m2, r, va + |d|, e, b);
    }
  }

  /** The k bytes at va are writable. */
  ghost predicate WritableTo(mem: Memory, r: nat, va: nat, k: nat) {
    forall j: nat {:trigger WritableFrom(mem, r, va, j)} :: j < k ==> WritableFrom(mem, r, va, j)
  }

  ghost predicate WritableFrom(mem: Memory, r: nat, va: nat, j: nat) { Writable(mem, r, va + j) }

  lemma StillWritable(m0: Memory, mem: Memory, role: Roles, r: nat, n: nat, va: nat, d: seq<byte>, a: nat)
    requires Stored(m0, mem, role, r, n, va, d)
    ensures Writable(mem, r, a) <==> Writable(m0, r, a)
  {
    if a < MAXVA {
      RoundTwice(a);
      assert SameEntry(m0, mem, r, PgRoundDown(a));
    }
  }

  /** The check of copyout that the page of va may be written. */
  method WritablePage(vm: Vm, r: nat, va0: nat, ghost n: nat, ghost ext: set<nat>) returns (pa: nat)
    requires vm.Valid() && Space(vm.mem, vm.role, r, n, ext) && va0 % PGSIZE == 0
    ensures (pa == 0 <==> !Writable(vm.mem, r, va0)) && (pa != 0 ==> pa == EntryOf(vm.mem, r, va0).pa)
  {
    if va0 >= MAXVA {
      return 0;
    }
    assert PgRoundDown(va0) == va0;
    var pt, k := vm.Walk(r, va0, false);
    if pt == 0 {
      return 0;
    }
    LowEntry(vm.mem, vm.role, r, Px(2, va0), Px(1, va0), pt);
    var e := vm.mem[pt].ptes[k];
    if !e.v || !e.u || !e.w {
      return 0;
    }
    ReadablePage(vm.mem, vm.role, r, n, ext, va0);
    pa := e.pa;
  }

  /** The part of copyout that is done: the first k bytes of src. */
  ghost predicate CopiedOut(vm: Vm, m0: Memory, role: Roles, r: nat, n: nat, ext: set<nat>, va: nat, src: seq<byte>,
      k: nat)
    reads vm
  {
    && vm.Valid() && vm.role == role && Space(vm.mem, role, r, n, ext) && k <= |src|
    && Stored(m0, vm.mem, role, r, n, va, src[..k]) && WritableTo(m0, r, va, k)
  }

  /** One round of copyout, for the m bytes that fit in the page. */
  method CopyoutPage(vm: Vm, r: nat, va: nat, src: seq<byte>, k: nat, ghost m0: Memory, ghost n: nat,
      ghost ext: set<nat>) returns (m: nat)
    requires CopiedOut(vm, m0, vm.role, r, n, ext, va, src, k) && k < |src|
    modifies vm
    ensures CopiedOut(vm, m0, old(vm.role), r, n, ext, va, src, k + m)
    ensures if m == 0 then !Writable(m0, r, va + k) else m == Chunk(va + k, |src| - k)
  {
    var va0 := PgRoundDown(va + k);
    WritableRounded(vm.mem, r, va + k);
    var pa0 := WritablePage(vm, r, va0, n, ext);
    StillWritable(m0, vm.mem, vm.role, r, n, va, src[..k], va + k);
    if pa0 == 0 {
      return 0;
    }
    m := Chunk(va + k, |src| - k);
    PokeNext(vm, r, va, src, k, m, pa0, m0, n, ext);
    MoreWritable(m0, r, va, k, m);
  }

  lemma WritableRounded(mem: Memory, r: nat, a: nat)
    ensures Writable(mem, r, PgRoundDown(a)) <==> Writable(mem, r, a)
    ensures EntryOf(mem, r, PgRoundDown(a)) == EntryOf(mem, r, a)
  {
    RoundTwice(a);
  }

  /** The memmove of a round of copyout. */
  method PokeNext(vm: Vm, r: nat, va: nat, src: seq<byte>, k: nat, m: nat, pa0: nat, ghost m0: Memory, ghost n: nat,
      ghost ext: set<nat>)
    requires vm.Valid() && Space(vm.mem, vm.role, r, n, ext) && k + m <= |src|
        && Stored(m0, vm.mem, vm.role, r, n, va, src[..k])
    requires va + k - PgRoundDown(va + k) + m <= PGSIZE && Writable(vm.mem, r, va + k)
        && pa0 == EntryOf(vm.mem, r, va + k).pa
    modifies vm`mem
    ensures vm.Valid() && Space(vm.mem, vm.role, r, n, ext) && Stored(m0, vm.mem, vm.role, r, n, va, src[..k + m])
  {
    Poke(vm, r, va + k, src[k..k + m], pa0, n, ext);
    StoredTwice(m0, old(vm.mem), vm.mem, vm.role, r, n, va, src[..k], src[k..k + m]);
    assert src[..k] + src[k..k + m] == src[..k + m];
  }

  lemma MoreWritable(mem: Memory, r: nat, va: nat, k: nat, m: nat)
    requires WritableTo(mem, r, va, k) && Writable(mem, r, va + k) && va + k - PgRoundDown(va + k) + m <= PGSIZE
    ensures WritableTo(mem, r, va, k + m)
  {
    forall j: nat | j < k + m ensures WritableFrom(mem, r, va, j) {
      if j >= k {
        SamePageAs(va + k, j - k);
        assert va + k + (j - k) == va + j;
        BelowMaxva(va + k, va + j);
      }
    }
  }

  /** copyout stores the first k bytes of src: all of them, or those before the first page
      that user mode may not write. */
  method Copyout(vm: Vm, r: nat, va: nat, src: seq<byte>, ghost n: nat, ghost ext: set<nat>)
      returns (rc: int, ghost k: nat)
    requires vm.Valid() && Space(vm.mem, vm.role, r, n, ext)
    modifies vm
    ensures CopiedOut(vm, old(vm.mem), old(vm.role), r, n, ext, va, src, k)
    ensures if rc == 0 then k == |src| else rc == -1 && k < |src| && !Writable(old(vm.mem), r, va + k)
  {
    var done := 0;
    NothingStored(vm.mem, vm.role, r, n, va);
    assert src[..0] == [];
    while done < |src|
      invariant CopiedOut(vm, old(vm.mem), old(vm.role), r, n, ext, va, src, done)
    {
      var m := CopyoutPage(vm, r, va, src, done, old(vm.mem), n, ext);
      if m == 0 {
        return -1, done;
      }
      done := done + m;
    }
    rc, k := 0, done;
  }

  lemma NothingStored(mem: Memory, role: Roles, r: nat, n: nat, va: nat)
    requires role.Keys == mem.Keys
    ensures Stored(mem, mem, role, r, n, va, [])
  {
  }

  /** What was stored can be read. */
  lemma StoredIsRead(m0: Memory, mem: Memory, role: Roles, r: nat, n: nat, ext: set<nat>, va: nat, src: seq<byte>)
    requires Matched(m0, role, NOHOLE) && Space(m0, role, r, n, ext) && Stored(m0, mem, role, r, n, va, src)
        && WritableTo(m0, r, va, |src|)
    ensures BytesAt(mem, r, va, src)
  {
    forall k: nat | k < |src| ensures ByteAt(mem, r, va, src, k) {
      assert WritableFrom(m0, r, va, k);
      StillWritable(m0, mem, role, r, n, va, src, va + k);
      assert va + k < n by {
        ReadablePage(m0, role, r, n, ext, va + k);
        assert PlaceOk(m0, role, r, n, ext, PgRoundDown(va + k));
        PageEnd(va + k, n);
      }
      assert Wrote(m0, mem, r, va, src, va + k);
    }
  }

  lemma PageEnd(a: nat, n: nat)
    requires PgRoundDown(a) < n && n % PGSIZE == 0
    ensures a < n
  {
  }

  /** A copyout that succeeds, followed by copyin of the same range, gives the bytes back. */
  method CopyRoundTrip(vm: Vm, r: nat, va: nat, src: seq<byte>, ghost n: nat, ghost ext: set<nat>)
      returns (out: int, back: int, dst: seq<byte>)
    requires vm.Valid() && Space(vm.mem, vm.role, r, n, ext)
    modifies vm
    ensures out == 0 ==> back == 0 && dst == src
  {
    ghost var k;
    out, k := Copyout(vm, r, va, src, n, ext);
    back, dst := Copyin(vm, r, va, |src|, n, ext);
    if out == 0 {
      assert src[..k] == src;
      StoredIsRead(old(vm.mem), vm.mem, vm.role, r, n, ext, va, src);
      assert |dst| < |src| ==> ByteAt(vm.mem, r, va, src, |dst|);
      forall i | 0 <= i < |src| ensures dst[i] == src[i] {
        assert ByteAt(vm.mem, r, va, src, i) && ByteAt(vm.mem, r, va, dst, i);
      }
    }
  }
}
