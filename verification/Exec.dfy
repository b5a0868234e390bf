/** exec (kernel/exec.c): a new image is built beside the old one, and replaces it only when
    all of it is in place. */
module Exec {
  import opened Common
  import opened PageFormat
  import opened PageTree
  import opened PageFrames
  import opened Vm
  import opened UserMemory
  import opened UserCopy
  import opened ProcMemory
  import opened ExecStack

  const U32: nat := 0x1_0000_0000
  const ELF_PROG_LOAD: nat := 1

  /** The largest file, in bytes. */
  const MAXSIZE: nat := 268 * 1024

  datatype ProgHdr = ProgHdr(kind: nat, flags: nat, off: nat, vaddr: nat, filesz: nat, memsz: nat)

  /** The file to run: whether it starts with a whole ELF header with the right magic number,
      the program headers (None for one that cannot be read whole), and its bytes. */
  datatype Binary = Binary(header: bool, phs: seq<Option<ProgHdr>>, file: seq<byte>)

  ghost predicate GoodBinary(b: Binary) {
    |b.file| <= MAXSIZE && forall k :: 0 <= k < |b.phs| && b.phs[k].Some? ==>
      b.phs[k].value.off < U64 && b.phs[k].value.vaddr < U64
      && b.phs[k].value.filesz < U64 && b.phs[k].value.memsz < U64
  }

  /** Every user page below n may be used by user mode. */
  ghost predicate AllUser(mem: Memory, r: nat, n: nat) {
    forall a: nat {:trigger IsUser(mem, r, a)} :: IsPage(a) && a < n ==> IsUser(mem, r, a)
  }

  ghost predicate IsUser(mem: Memory, r: nat, a: nat) { Lookup(mem, r, a).v && Lookup(mem, r, a).u }

  /** How many bytes readi gives for n bytes at off of a file of the given size. */
  function ReadCount(size: nat, off: nat, n: nat): nat {
    if off > size || off + n >= U32 then 0 else if off + n > size then size - off else n
  }

  /** The part of loadseg that is done. */
  ghost predicate Loading(vm: Vm, m0: Memory, role: Roles, r: nat, n: nat, va: nat, d: seq<byte>)
    reads vm
  {
    && vm.Valid() && vm.role == role && Space(vm.mem, role, r, n, TOP_PAGES) && Stored(m0, vm.mem, role, r, n, va, d)
  }

  /** One round of loadseg: the page at va + i gets what readi finds, up to m bytes. */
  method LoadPage(vm: Vm, r: nat, va: nat, i: nat, file: seq<byte>, off: nat, m: nat, ghost m0: Memory, ghost n: nat,
      ghost d: seq<byte>)
    returns (ok: bool, got: nat, ghost d': seq<byte>)
    requires Loading(vm, m0, vm.role, r, n, va, d) && |d| == i && va % PGSIZE == 0 && i % PGSIZE == 0 && va + i < n
        && AllUser(vm.mem, r, n) && m <= PGSIZE
    modifies vm`mem
    ensures ok && Loading(vm, m0, old(vm.role), r, n, va, d') && AllUser(vm.mem, r, n)
        && got == ReadCount(|file|, off, m)
    ensures got == m > 0 ==> off + m <= |file| && d' == d + file[off..off + m]
  {
    PageStart(va, i);
    assert IsUser(vm.mem, r, va + i);
    ok, got, d' := false, 0, d;
    var pa := Walkaddr(vm, r, va + i, n, TOP_PAGES);
    if pa == 0 {
      return;
    }
    ok := true;
    got := ReadCount(|file|, off, m);
    var x := if got > 0 then file[off..off + got] else [];
    LoadInto(vm, r, va, i, x, pa, m0, n, d);
    d' := d + x;
  }

  lemma PageStart(va: nat, i: nat)
    requires va % PGSIZE == 0 && i % PGSIZE == 0
    ensures (va + i) % PGSIZE == 0 && PgRoundDown(va + i) == va + i
  {
    assert va + i == 4096 * (va / 4096 + i / 4096);
  }

  /** What readi gives goes into the page at va + i, whose memory is at pa. */
  method LoadInto(vm: Vm, r: nat, va: nat, i: nat, x: seq<byte>, pa: nat, ghost m0: Memory, ghost n: nat,
      ghost d: seq<byte>)
    requires Loading(vm, m0, vm.role, r, n, va, d) && |d| == i && AllUser(vm.mem, r, n) && |x| <= PGSIZE
    requires PgRoundDown(va + i) == va + i && Readable(vm.mem, r, va + i) && pa == EntryOf(vm.mem, r, va + i).pa
    modifies vm`mem
    ensures Loading(vm, m0, old(vm.role), r, n, va, d + x) && AllUser(vm.mem, r, n)
  {
    Poke(vm, r, va + i, x, pa, n, TOP_PAGES);
    StoredTwice(m0, old(vm.mem), vm.mem, vm.role, r, n, va, d, x);
    SameUsers(old(vm.mem), vm.mem, vm.role, r, n, va + i, x);
  }

  lemma SameUsers(m0: Memory, mem: Memory, role: Roles, r: nat, n: nat, va: nat, d: seq<byte>)
    requires Stored(m0, mem, role, r, n, va, d) && AllUser(m0, r, n)
    ensures AllUser(mem, r, n)
  {
    forall a: nat | IsPage(a) && a < n ensures IsUser(mem, r, a) {
      assert IsUser(m0, r, a) && SameEntry(m0, mem, r, a);
    }
  }

  /** loadseg: the bytes of the file from off on, at va; ok is false where the kernel would
      panic. A segment is loaded if and only if the file has all of it. */
  method Loadseg(vm: Vm, r: nat, va: nat, file: seq<byte>, off: nat, sz: nat, ghost n: nat)
      returns (ok: bool, rc: int, ghost d: seq<byte>)
    requires vm.Valid() && Space(vm.mem, vm.role, r, n, TOP_PAGES) && AllUser(vm.mem, r, n) && va % PGSIZE == 0
        && va + sz <= n
    requires |file| <= MAXSIZE && off < U32 && sz < U32
    modifies vm`mem
    ensures ok && Loading(vm, old(vm.mem), old(vm.role), r, n, va, d) && AllUser(vm.mem, r, n)
    ensures rc == if off + sz <= |file| || sz == 0 then 0 else -1
    ensures rc == 0 ==> |d| == sz && (sz > 0 ==> d == file[off..off + sz])
  {
    d := [];
    ok, rc := true, 0;
    NothingStored(vm.mem, vm.role, r, n, va);
    var i := 0;
    while i < sz
      invariant ok && Loading(vm, old(vm.mem), old(vm.role), r, n, va, d) && AllUser(vm.mem, r, n)
      invariant i % PGSIZE == 0 && Loaded(file, off, if i < sz then i else sz, d)
    {
      var m := if sz - i < PGSIZE then sz - i else PGSIZE;
      var got;
      ghost var d0 := d;
      ok, got, d := LoadPage(vm, r, va, i, file, (off + i) % U32, m, old(vm.mem), n, d);
      NextChunk(file, off, sz, i, m, d0);
      if got != m {
        return ok, -1, d;
      }
      i := i + PGSIZE;
    }
  }

  /** The first t bytes of the segment are d. */
  ghost predicate Loaded(file: seq<byte>, off: nat, t: nat, d: seq<byte>) {
    |d| == t && (t > 0 ==> off + t <= |file| && d == file[off..off + t])
  }

  lemma NextChunk(file: seq<byte>, off: nat, sz: nat, i: nat, m: nat, d: seq<byte>)
    requires |file| <= MAXSIZE && off < U32 && sz < U32 && i < sz && m == (if sz - i < PGSIZE then sz - i else PGSIZE)
        && Loaded(file, off, i, d)
    ensures (off + i) % U32 == off + i && (ReadCount(|file|, off + i, m) == m <==> off + i + m <= |file|)
    ensures off + i + m <= |file| ==> Loaded(file, off, i + m, d + file[off + i..off + i + m])
  {
    if off + i + m <= |file| && i > 0 {
      assert file[off..off + i] + file[off + i..off + i + m] == file[off..off + i + m];
    }
  }

  // ----- the new image -----

  /** Writes to user memory of r are within what an operation on r may do. */
  lemma UserOnlyFrame(m0: Memory, mem: Memory, role: Roles, r: nat)
    requires UserOnly(m0, mem, role, r) && m0.Keys == role.Keys
    ensures Frame(m0, role, mem, role, r, 0)
  {
    forall p | p in role ensures FramePage(m0, role, mem, role, r, p) {
      assert NotUser(m0, mem, role, r, p);
    }
  }

  /** Memory when exec starts, and the trapframe of its process. */
  datatype Start = Start(mem: Memory, role: Roles, trapframe: nat)

  /** exec has sz bytes of the new image under root r, all for user mode, and has changed
      nothing else since the start. */
  ghost predicate Building(vm: Vm, st: Start, r: nat, sz: nat)
    reads vm
  {
    && vm.Valid() && Space(vm.mem, vm.role, r, PgRoundUp(sz), TOP_PAGES) && AllUser(vm.mem, r, PgRoundUp(sz))
    && Lookup(vm.mem, r, TRAPFRAME).pa == st.trapframe && Frame(st.mem, st.role, vm.mem, vm.role, r, 0)
  }

  ghost predicate SameEntries(m0: Memory, mem: Memory, r: nat, n: nat) {
    forall a: nat {:trigger SameEntry(m0, mem, r, a)} :: IsPage(a) && a < n ==> SameEntry(m0, mem, r, a)
  }

  /** User memory below n is as before, with its permissions. */
  ghost predicate Untouched(m0: Memory, mem: Memory, r: nat, n: nat) {
    SameBytes(m0, mem, r, n, 0, 0) && SameEntries(m0, mem, r, n)
  }

  lemma UntouchedTwice(m0: Memory, m1: Memory, m2: Memory, r: nat, n: nat)
    requires Untouched(m0, m1, r, n) && Untouched(m1, m2, r, n)
    ensures Untouched(m0, m2, r, n)
  {
    SameTwice(m0, m1, m2, r, n, 0, 0, 0, 0);
    forall a: nat | IsPage(a) && a < n ensures SameEntry(m0, m2, r, a) {
      assert SameEntry(m0, m1, r, a) && SameEntry(m1, m2, r, a);
    }
  }

  lemma UntouchedBelow(m0: Memory, mem: Memory, r: nat, n: nat, n': nat)
    requires Untouched(m0, mem, r, n') && n <= n'
    ensures Untouched(m0, mem, r, n)
  {
  }

  lemma KeptUntouched(m0: Memory, r0: Roles, mem: Memory, role: Roles, r: nat, n0: nat, ext: set<nat>, lo: nat,
      hi: nat, n: nat)
    requires Matched(m0, r0, NOHOLE) && Space(m0, r0, r, n0, ext) && Kept(m0, r0, mem, role, r, lo, hi)
    requires n % PGSIZE == 0 && (hi <= lo || n <= lo)
    ensures Untouched(m0, mem, r, n)
  {
    KeptSame(m0, r0, mem, role, r, n0, ext, lo, hi, n);
    forall a: nat | IsPage(a) && a < n ensures SameEntry(m0, mem, r, a) {
      assert AddrKept(m0, r0, mem, role, r, a);
    }
  }

  /** uvmalloc for exec. */
  method Extend(vm: Vm, r: nat, sz: nat, newsz: nat, w: bool, x: bool, ghost st: Start)
      returns (sz1: nat, ghost grew: bool)
    requires Building(vm, st, r, sz)
    modifies vm
    ensures Building(vm, st, r, if grew then sz1 else sz)
        && sz1 == (if !grew then 0 else if newsz < sz then sz else newsz)
    ensures grew ==> Blank(vm.mem, r, PgRoundUp(sz), PgRoundUp(sz1), Perm(true, w, x, true, 0))
    ensures if grew then |old(vm.free)| <= |vm.free| + 3 * PagesIn(PgRoundUp(sz), PgRoundUp(newsz))
            else |old(vm.free)| < 3 * PagesIn(PgRoundUp(sz), PgRoundUp(newsz))
    ensures Untouched(old(vm.mem), vm.mem, r, PgRoundUp(sz))
  {
    sz1, grew := vm.Uvmalloc(r, sz, newsz, w, x, TOP_PAGES);
    KeptUntouched(old(vm.mem), old(vm.role), vm.mem, vm.role, r, PgRoundUp(sz), TOP_PAGES, PgRoundUp(sz),
        PgRoundUp(if grew then sz1 else sz), PgRoundUp(sz));
    FrameTwice(st.mem, st.role, old(vm.mem), old(vm.role), vm.mem, vm.role, r, 0);
    assert AddrKept(old(vm.mem), old(vm.role), vm.mem, vm.role, r, TRAPFRAME);
    ghost var n := PgRoundUp(if grew then sz1 else sz);
    forall a: nat | IsPage(a) && a < n ensures IsUser(vm.mem, r, a) {
      if a < PgRoundUp(sz) {
        assert IsUser(old(vm.mem), r, a) && AddrKept(old(vm.mem), old(vm.role), vm.mem, vm.role, r, a);
      } else {
        assert IsBlank(vm.mem, r, a, Perm(true, w, x, true, 0));
      }
    }
  }

  /** The pages of [lo, hi) have the permissions perm. */
  ghost predicate Permitted(mem: Memory, r: nat, lo: nat, hi: nat, perm: Perm) {
    forall a: nat {:trigger PermAt(mem, r, a, perm)} :: IsPage(a) && lo <= a < hi ==> PermAt(mem, r, a, perm)
  }

  ghost predicate PermAt(mem: Memory, r: nat, a: nat, perm: Perm) {
    Lookup(mem, r, a) == Leaf(Lookup(mem, r, a).pa, perm)
  }

  /** loadseg for exec: d is what it stored. */
  method LoadFile(vm: Vm, r: nat, ph: ProgHdr, file: seq<byte>, ghost sz: nat, ghost st: Start)
      returns (ok: bool, rc: int, ghost d: seq<byte>)
    requires Building(vm, st, r, sz) && ph.vaddr % PGSIZE == 0 && ph.vaddr + ph.filesz <= sz && |file| <= MAXSIZE
    modifies vm`mem
    ensures ok && Building(vm, st, r, sz) && Stored(old(vm.mem), vm.mem, vm.role, r, PgRoundUp(sz), ph.vaddr, d)
    ensures rc == if ph.off % U32 + ph.filesz % U32 <= |file| || ph.filesz % U32 == 0 then 0 else -1
    ensures rc == 0 ==> Loaded(file, ph.off % U32, ph.filesz % U32, d)
  {
    ok, rc, d := Loadseg(vm, r, ph.vaddr, file, ph.off % U32, ph.filesz % U32, PgRoundUp(sz));
    UserOnlyFrame(old(vm.mem), vm.mem, vm.role, r);
    FrameTwice(st.mem, st.role, old(vm.mem), old(vm.role), vm.mem, vm.role, r, 0);
    assert SameEntry(old(vm.mem), vm.mem, r, TRAPFRAME);
  }

  /** The permissions of a segment: W and X as its flags say. */
  function PermOf(ph: ProgHdr): Perm { Perm(true, ph.flags / 2 % 2 == 1, ph.flags % 2 == 1, true, 0) }

  /** The segment has a byte for address a in the file. */
  ghost predicate InFile(ph: ProgHdr, file: seq<byte>, a: nat) {
    ph.vaddr <= a < ph.vaddr + ph.filesz % U32 && ph.off % U32 + (a - ph.vaddr) < |file|
  }

  ghost function FileByte(ph: ProgHdr, file: seq<byte>, a: nat): byte
    requires InFile(ph, file, a)
  {
    file[ph.off % U32 + (a - ph.vaddr)]
  }

  /** The byte at a after the segment was loaded, with an image of sz bytes in m0 before. */
  ghost predicate SegmentByte(m0: Memory, mem: Memory, r: nat, ph: ProgHdr, file: seq<byte>, sz: nat, a: nat) {
    UserByte(mem, r, a) == if InFile(ph, file, a) then FileByte(ph, file, a)
                           else if a < PgRoundUp(sz) then UserByte(m0, r, a) else 0
  }

  /** The segment is in memory, what it does not cover is as before or 0, and the pages that
      it added have its permissions. */
  ghost predicate Segment(m0: Memory, mem: Memory, r: nat, ph: ProgHdr, file: seq<byte>, sz: nat, sz': nat) {
    && (forall a: nat {:trigger SegmentByte(m0, mem, r, ph, file, sz, a)} :: a < PgRoundUp(sz') ==>
          SegmentByte(m0, mem, r, ph, file, sz, a))
    && SameEntries(m0, mem, r, PgRoundUp(sz)) && Permitted(mem, r, PgRoundUp(sz), PgRoundUp(sz'), PermOf(ph))
  }

  lemma BlankByte(mem: Memory, r: nat, lo: nat, hi: nat, perm: Perm, a: nat)
    requires Blank(mem, r, lo, hi, perm) && lo % PGSIZE == 0 && hi % PGSIZE == 0 && lo <= a < hi <= TRAPFRAME
    ensures UserByte(mem, r, a) == 0
  {
    InPage(a);
    PageFrom(lo, a);
    assert IsBlank(mem, r, PgRoundDown(a), perm);
  }

  lemma PageFrom(lo: nat, a: nat)
    requires lo % PGSIZE == 0 && lo <= a
    ensures lo <= PgRoundDown(a)
  {
  }

  /** uvmalloc from m0 to m1 and loadseg from there to mem add a segment. */
  lemma SegmentMade(m0: Memory, m1: Memory, mem: Memory, role: Roles, r: nat, ph: ProgHdr, file: seq<byte>, sz: nat,
      sz': nat, d: seq<byte>)
    requires AllUser(m0, r, PgRoundUp(sz)) && Untouched(m0, m1, r, PgRoundUp(sz)) && sz <= sz'
    requires Blank(m1, r, PgRoundUp(sz), PgRoundUp(sz'), PermOf(ph)) && PgRoundUp(sz') <= TRAPFRAME
    requires Stored(m1, mem, role, r, PgRoundUp(sz'), ph.vaddr, d) && Loaded(file, ph.off % U32, ph.filesz % U32, d)
    ensures Segment(m0, mem, r, ph, file, sz, sz')
  {
    var n, n' := PgRoundUp(sz), PgRoundUp(sz');
    RoundUpMono(sz, sz');
    forall a: nat | a < n' ensures SegmentByte(m0, mem, r, ph, file, sz, a) {
      assert Wrote(m1, mem, r, ph.vaddr, d, a);
      if a < n {
        InPage(a);
        assert IsUser(m0, r, PgRoundDown(a)) && SameByte(m0, m1, r, a);
      } else {
        BlankByte(m1, r, n, n', PermOf(ph), a);
      }
    }
    forall a: nat | IsPage(a) && a < n ensures SameEntry(m0, mem, r, a) {
      assert SameEntry(m0, m1, r, a) && SameEntry(m1, mem, r, a);
    }
    forall a: nat | IsPage(a) && n <= a < n' ensures PermAt(mem, r, a, PermOf(ph)) {
      assert IsBlank(m1, r, a, PermOf(ph)) && SameEntry(m1, mem, r, a);
    }
  }

  /** The file has the bytes of the segment. */
  ghost predicate HasBytes(ph: ProgHdr, file: seq<byte>) {
    ph.filesz % U32 == 0 || ph.off % U32 + ph.filesz % U32 <= |file|
  }

  /** A segment to load can be loaded, after an image of sz bytes: its sizes and address are
      sane, and the file has its bytes. uvmalloc's 0 for an image without bytes counts as a
      failure. */
  ghost predicate Loadable(ph: ProgHdr, file: seq<byte>, sz: nat) {
    && ph.filesz <= ph.memsz && ph.vaddr + ph.memsz < U64 && ph.vaddr % PGSIZE == 0 && Grown(ph, sz) > 0
    && HasBytes(ph, file)
  }

  /** The free pages that suffice for the segment, after an image of sz bytes: three for each
      of its pages. */
  function Toll(ph: ProgHdr, sz: nat): nat { 3 * PagesIn(PgRoundUp(sz), PgRoundUp(ph.vaddr + ph.memsz)) }

  /** The size of the image with the segment. */
  function Grown(ph: ProgHdr, sz: nat): nat { if ph.vaddr + ph.memsz < sz then sz else ph.vaddr + ph.memsz }

  /** The rest of a round for a segment with sane sizes and address: uvmalloc up to its end, and
      loadseg. */
  method LoadSane(vm: Vm, r: nat, ph: ProgHdr, file: seq<byte>, sz: nat, end: nat, ghost st: Start)
      returns (ok: bool, good: bool, sz': nat)
    requires Building(vm, st, r, sz) && |file| <= MAXSIZE && ph.filesz <= ph.memsz && ph.vaddr % PGSIZE == 0
    requires end == ph.vaddr + ph.memsz
    modifies vm
    ensures ok && Building(vm, st, r, sz')
    ensures good ==> sz' == Grown(ph, sz) && Segment(old(vm.mem), vm.mem, r, ph, file, sz, sz')
    ensures good ==>
        HasBytes(ph, file) && Grown(ph, sz) > 0
        && |old(vm.free)| <= |vm.free| + 3 * PagesIn(PgRoundUp(sz), PgRoundUp(end))
    ensures !good && HasBytes(ph, file) && Grown(ph, sz) > 0 ==>
        |old(vm.free)| < 3 * PagesIn(PgRoundUp(sz), PgRoundUp(end))
  {
    ok, good, sz' := true, false, sz;
    var sz1;
    ghost var grew;
    sz1, grew := Extend(vm, r, sz, end, ph.flags / 2 % 2 == 1, ph.flags % 2 == 1, st);
    if sz1 == 0 {
      return;
    }
    sz' := sz1;
    var rc;
    ghost var m1, d := vm.mem, [];
    ok, rc, d := LoadFile(vm, r, ph, file, sz1, st);
    good := rc == 0;
    if good { SegmentMade(old(vm.mem), m1, vm.mem, vm.role, r, ph, file, sz, sz1, d); }
  }

  /** One round of the loop over program headers; ok is false where the kernel would panic. */
  method LoadSegment(vm: Vm, r: nat, ph: ProgHdr, file: seq<byte>, sz: nat, ghost st: Start)
      returns (ok: bool, good: bool, sz': nat)
    requires Building(vm, st, r, sz) && |file| <= MAXSIZE && ph.off < U64 && ph.vaddr < U64 && ph.filesz < U64
        && ph.memsz < U64
    modifies vm
    ensures ok && Building(vm, st, r, sz')
    ensures good && ph.kind == ELF_PROG_LOAD ==> Segment(old(vm.mem), vm.mem, r, ph, file, sz, sz')
    ensures ph.kind != ELF_PROG_LOAD ==> good && sz' == sz && unchanged(vm)
    ensures ph.kind == ELF_PROG_LOAD && good ==>
        Loadable(ph, file, sz) && sz' == Grown(ph, sz) && |old(vm.free)| <= |vm.free| + Toll(ph, sz)
    ensures ph.kind == ELF_PROG_LOAD && !good && Loadable(ph, file, sz) ==> |old(vm.free)| < Toll(ph, sz)
  {
    ok, good, sz' := true, false, sz;
    if ph.kind != ELF_PROG_LOAD {
      return true, true, sz;
    }
    if ph.memsz < ph.filesz || (ph.vaddr + ph.memsz) % U64 < ph.vaddr || ph.vaddr % PGSIZE != 0 {
      return;
    }
    NoWrap(ph.vaddr, ph.memsz);
    ok, good, sz' := LoadSane(vm, r, ph, file, sz, (ph.vaddr + ph.memsz) % U64, st);
  }

  /** The test for a wrap is exact. */
  lemma NoWrap(a: nat, n: nat)
    requires a < U64 && n < U64
    ensures (a + n) % U64 >= a <==> a + n < U64
    ensures a + n < U64 ==> (a + n) % U64 == a + n
  {
  }

  lemma RoundUpMono(a: nat, b: nat)
    requires a <= b
    ensures PgRoundUp(a) <= PgRoundUp(b)
  {
  }

  /** The size of the image after the first i headers. */
  function ImageSize(bin: Binary, i: nat): nat {
    if i == 0 then 0
    else if i <= |bin.phs| && bin.phs[i - 1].Some? && bin.phs[i - 1].value.kind == ELF_PROG_LOAD
      then Grown(bin.phs[i - 1].value, ImageSize(bin, i - 1))
    else ImageSize(bin, i - 1)
  }

  lemma {:induction false} ImageGrows(bin: Binary, i: nat, j: nat)
    requires i <= j
    ensures ImageSize(bin, i) <= ImageSize(bin, j)
  {
    if i < j { ImageGrows(bin, i, j - 1); }
  }

  /** Header i can be read and its segment, if it has one to load, can be loaded. */
  ghost predicate HeaderOk(bin: Binary, i: nat) {
    i < |bin.phs| ==>
      bin.phs[i].Some?
      && (bin.phs[i].value.kind == ELF_PROG_LOAD ==> Loadable(bin.phs[i].value, bin.file, ImageSize(bin, i)))
  }

  ghost predicate HeadersTo(bin: Binary, i: nat) {
    forall j: nat {:trigger HeaderOk(bin, j)} :: j < i ==> HeaderOk(bin, j)
  }

  ghost predicate HeadersOk(bin: Binary) { HeadersTo(bin, |bin.phs|) }

  lemma HeadersMore(bin: Binary, i: nat)
    requires HeadersTo(bin, i) && HeaderOk(bin, i)
    ensures HeadersTo(bin, i + 1)
  {
  }

  /** Header j asks for a segment to be loaded. */
  ghost predicate Loads(bin: Binary, j: nat) {
    j < |bin.phs| && bin.phs[j].Some? && bin.phs[j].value.kind == ELF_PROG_LOAD
  }

  /** The byte at a that the first i headers ask for: that of the last segment that has one
      there, or else 0. */
  ghost function ByteOf(bin: Binary, i: nat, a: nat): byte {
    if i == 0 then 0
    else if Loads(bin, i - 1) && InFile(bin.phs[i - 1].value, bin.file, a)
      then FileByte(bin.phs[i - 1].value, bin.file, a)
    else ByteOf(bin, i - 1, a)
  }

  ghost predicate ImageByte(mem: Memory, r: nat, bin: Binary, i: nat, a: nat) {
    Readable(mem, r, a) && UserByte(mem, r, a) == ByteOf(bin, i, a)
  }

  /** The pages that segment j added have its permissions. */
  ghost predicate PermsAt(mem: Memory, r: nat, bin: Binary, j: nat) {
    Loads(bin, j) ==>
      Permitted(mem, r, PgRoundUp(ImageSize(bin, j)), PgRoundUp(ImageSize(bin, j + 1)), PermOf(bin.phs[j].value))
  }

  /** All that the first i headers ask for is in memory. */
  ghost predicate Image(mem: Memory, r: nat, bin: Binary, i: nat) {
    && (forall a: nat {:trigger ImageByte(mem, r, bin, i, a)} :: a < PgRoundUp(ImageSize(bin, i)) ==>
          ImageByte(mem, r, bin, i, a))
    && (forall j: nat {:trigger PermsAt(mem, r, bin, j)} :: j < i ==> PermsAt(mem, r, bin, j))
  }

  lemma PermsStay(m0: Memory, mem: Memory, r: nat, bin: Binary, i: nat, j: nat)
    requires PermsAt(m0, r, bin, j) && j < i && SameEntries(m0, mem, r, PgRoundUp(ImageSize(bin, i)))
    ensures PermsAt(mem, r, bin, j)
  {
    if Loads(bin, j) {
      ImageGrows(bin, j + 1, i);
      RoundUpMono(ImageSize(bin, j + 1), ImageSize(bin, i));
      var lo, hi, perm := PgRoundUp(ImageSize(bin, j)), PgRoundUp(ImageSize(bin, j + 1)), PermOf(bin.phs[j].value);
      forall a: nat | IsPage(a) && lo <= a < hi ensures PermAt(mem, r, a, perm) {
        assert PermAt(m0, r, a, perm) && SameEntry(m0, mem, r, a);
      }
    }
  }

  /** An image that is not touched stays. */
  lemma ImageStays(m0: Memory, mem: Memory, r: nat, bin: Binary, i: nat)
    requires Image(m0, r, bin, i) && Untouched(m0, mem, r, PgRoundUp(ImageSize(bin, i)))
    ensures Image(mem, r, bin, i)
  {
    forall a: nat | a < PgRoundUp(ImageSize(bin, i)) ensures ImageByte(mem, r, bin, i, a) {
      assert ImageByte(m0, r, bin, i, a) && SameByte(m0, mem, r, a);
    }
    forall j: nat | j < i ensures PermsAt(mem, r, bin, j) { PermsStay(m0, mem, r, bin, i, j); }
  }

  /** Segments have no bytes beyond the image. */
  lemma {:induction false} NoneBeyond(bin: Binary, i: nat, a: nat)
    requires HeadersTo(bin, i) && a >= ImageSize(bin, i)
    ensures ByteOf(bin, i, a) == 0
  {
    if i > 0 {
      assert HeaderOk(bin, i - 1);
      ImageGrows(bin, i - 1, i);
      NoneBeyond(bin, i - 1, a);
    }
  }

  /** One more segment. */
  lemma ImageNext(m0: Memory, mem: Memory, r: nat, bin: Binary, i: nat)
    requires Image(m0, r, bin, i) && Loads(bin, i) && HeadersTo(bin, i)
    requires Segment(m0, mem, r, bin.phs[i].value, bin.file, ImageSize(bin, i), ImageSize(bin, i + 1))
    requires AllUser(mem, r, PgRoundUp(ImageSize(bin, i + 1))) && PgRoundUp(ImageSize(bin, i + 1)) <= TRAPFRAME
    ensures Image(mem, r, bin, i + 1)
  {
    var k := i + 1;
    forall a: nat | a < PgRoundUp(ImageSize(bin, k)) ensures ImageByte(mem, r, bin, k, a) {
      InPage(a);
      assert IsUser(mem, r, PgRoundDown(a));
      assert SegmentByte(m0, mem, r, bin.phs[i].value, bin.file, ImageSize(bin, i), a);
      if a < PgRoundUp(ImageSize(bin, i)) {
        assert ImageByte(m0, r, bin, i, a);
      } else {
        RoundsUp(ImageSize(bin, i));
        NoneBeyond(bin, i, a);
      }
    }
    forall j: nat | j <= i ensures PermsAt(mem, r, bin, j) {
      if j < i {
        assert PermsAt(m0, r, bin, j);
        PermsStay(m0, mem, r, bin, i, j);
      }
    }
  }

  lemma RoundsUp(a: nat)
    ensures a <= PgRoundUp(a)
  {
  }

  lemma NoImage(mem: Memory, r: nat, bin: Binary)
    ensures Image(mem, r, bin, 0) && HeadersTo(bin, 0)
  {
    RoundedIs(0);
  }

  /** A header with nothing to load changes nothing. */
  lemma ImageSkips(mem: Memory, r: nat, bin: Binary, i: nat)
    requires Image(mem, r, bin, i) && !Loads(bin, i)
    ensures Image(mem, r, bin, i + 1)
  {
    var k := i + 1;
    forall a: nat | a < PgRoundUp(ImageSize(bin, k)) ensures ImageByte(mem, r, bin, k, a) {
      assert ImageByte(mem, r, bin, i, a);
    }
    forall j: nat | j <= i ensures PermsAt(mem, r, bin, j) {
      if j < i { assert PermsAt(mem, r, bin, j); }
    }
  }

  /** How many free pages suffice for an image of sz bytes: three for each of its pages. */
  function Enough(sz: nat): nat { 3 * PagesIn(0, PgRoundUp(sz)) }

  lemma EnoughMore(sz: nat, sz': nat)
    requires sz <= sz'
    ensures Enough(sz) <= Enough(sz')
  {
    RoundUpMono(sz, sz');
    PagesAdd(0, PgRoundUp(sz), PgRoundUp(sz'));
  }

  lemma TollIs(ph: ProgHdr, sz: nat)
    ensures Enough(sz) + Toll(ph, sz) == Enough(Grown(ph, sz))
  {
    RoundUpMono(sz, Grown(ph, sz));
    if ph.vaddr + ph.memsz < sz { RoundUpMono(ph.vaddr + ph.memsz, sz); }
    PagesAdd(0, PgRoundUp(sz), PgRoundUp(Grown(ph, sz)));
  }

  /** The loop over program headers. It fails only if a header is bad or memory runs out. */
  method LoadSegments(vm: Vm, r: nat, bin: Binary, ghost st: Start) returns (ok: bool, good: bool, sz: nat)
    requires GoodBinary(bin) && Building(vm, st, r, 0)
    modifies vm
    ensures ok && Building(vm, st, r, sz) && (good ==> Image(vm.mem, r, bin, |bin.phs|))
    ensures good ==> HeadersOk(bin) && sz == ImageSize(bin, |bin.phs|) && |old(vm.free)| <= |vm.free| + Enough(sz)
    ensures !good && HeadersOk(bin) ==> |old(vm.free)| < Enough(ImageSize(bin, |bin.phs|))
  {
    ok, good, sz := true, true, 0;
    NoImage(vm.mem, r, bin);
    var i := 0;
    while i < |bin.phs|
      invariant i <= |bin.phs| && ok && Building(vm, st, r, sz) && good && Image(vm.mem, r, bin, i)
      invariant sz == ImageSize(bin, i) && |old(vm.free)| <= |vm.free| + Enough(sz)
      invariant HeadersTo(bin, i)
    {
      assert HeadersOk(bin) ==> HeaderOk(bin, i);
      if bin.phs[i].None? {
        return ok, false, sz;
      }
      ImageGrows(bin, i + 1, |bin.phs|);
      EnoughMore(ImageSize(bin, i + 1), ImageSize(bin, |bin.phs|));
      ok, good, sz := LoadNext(vm, r, bin, i, sz, st);
      if !ok || !good {
        return;
      }
      HeadersMore(bin, i);
      i := i + 1;
    }
  }

  /** A round of the loop, and what it leaves of the segments before. */
  method LoadNext(vm: Vm, r: nat, bin: Binary, i: nat, sz: nat, ghost st: Start)
      returns (ok: bool, good: bool, sz': nat)
    requires GoodBinary(bin) && Building(vm, st, r, sz) && i < |bin.phs| && bin.phs[i].Some?
    requires Image(vm.mem, r, bin, i) && sz == ImageSize(bin, i) && HeadersTo(bin, i)
    modifies vm
    ensures ok && Building(vm, st, r, sz') && (good ==> Image(vm.mem, r, bin, i + 1))
    ensures good ==>
        HeaderOk(bin, i) && sz' == ImageSize(bin, i + 1) && |old(vm.free)| + Enough(sz) <= |vm.free| + Enough(sz')
    ensures !good && HeaderOk(bin, i) ==> |old(vm.free)| + Enough(sz) < Enough(ImageSize(bin, i + 1))
  {
    var ph := bin.phs[i].value;
    TollIs(ph, sz);
    ok, good, sz' := LoadSegment(vm, r, ph, bin.file, sz, st);
    if good {
      if ph.kind == ELF_PROG_LOAD {
        ImageNext(old(vm.mem), vm.mem, r, bin, i);
      } else {
        ImageSkips(vm.mem, r, bin, i);
      }
    }
  }

  // ----- the stack and the switch -----

  /** uvmclear: the page at va is no longer for user mode. */
  method Uvmclear(vm: Vm, r: nat, va: nat, ghost n: nat) returns (ok: bool)
    requires vm.Valid() && Space(vm.mem, vm.role, r, n, TOP_PAGES) && IsPage(va) && va < n && Lookup(vm.mem, r, va).r
    modifies vm`mem
    ensures ok && vm.Valid() && vm.role == old(vm.role) && Space(vm.mem, vm.role, r, n, TOP_PAGES)
    ensures Lookup(vm.mem, r, va) == old(Lookup(vm.mem, r, va)).(u := false)
    ensures Kept(old(vm.mem), old(vm.role), vm.mem, vm.role, r, va, va + 1)
        && Frame(old(vm.mem), old(vm.role), vm.mem, vm.role, r, 0)
  {
    assert PlaceOk(vm.mem, vm.role, r, n, TOP_PAGES, va);
    var pt, k := vm.Walk(r, va, false);
    if pt == 0 {
      return false;
    }
    LeafEntry(vm.mem, vm.role, r, va, pt);
    assert PageOk(vm.mem, vm.role, pt, NOHOLE);
    var e := vm.mem[pt].ptes[k].(u := false);
    FlagsKeep(vm.mem, vm.role, pt, k, e);
    vm.mem := vm.mem[pt := Table(vm.mem[pt].ptes[k := e])];
    ListedKept(old(vm.mem), vm.role, vm.mem, vm.role, vm.freelist, vm.free);
    SetLeafKeeps(old(vm.mem), vm.role, vm.mem, vm.role, r, va, pt, e, false);
    assert PlaceOk(vm.mem, vm.role, r, n, TOP_PAGES, va);
    KeptSpace(old(vm.mem), vm.role, vm.mem, vm.role, r, n, n, TOP_PAGES, va, va + 1);
    ok := true;
  }

  /** Below sz is the stack page, for user mode to read and write, and below that the guard
      page, which is not for user mode. */
  ghost predicate StackPages(mem: Memory, r: nat, sz: nat) {
    sz >= 2 * PGSIZE && Stack(mem, r, sz - PGSIZE) && PermAt(mem, r, sz - PGSIZE, PERM_RWU)
        && PermAt(mem, r, sz - 2 * PGSIZE, PERM_RWU.(u := false))
  }

  /** The guard page and the stack page at the end of the image. */
  ghost predicate StackReady(vm: Vm, st: Start, r: nat, sz: nat)
    reads vm
  {
    && vm.Valid() && sz % PGSIZE == 0 && sz >= 2 * PGSIZE && Space(vm.mem, vm.role, r, sz, TOP_PAGES)
        && Frame(st.mem, st.role, vm.mem, vm.role, r, 0)
    && Lookup(vm.mem, r, TRAPFRAME).pa == st.trapframe && StackPages(vm.mem, r, sz)
  }

  /** Two more pages, the first of which becomes the guard page. */
  method MakeStack(vm: Vm, r: nat, sz0: nat, ghost st: Start) returns (ok: bool, sz: nat)
    requires Building(vm, st, r, sz0)
    modifies vm
    ensures if ok then StackReady(vm, st, r, sz) && sz == PgRoundUp(sz0) + 2 * PGSIZE else Building(vm, st, r, sz)
    ensures ok ==> Untouched(old(vm.mem), vm.mem, r, PgRoundUp(sz0))
    ensures !ok ==> |old(vm.free)| < 6
  {
    sz := PgRoundUp(sz0);
    RoundedIs(sz);
    RoundedIs(sz + 2 * PGSIZE);
    var sz1;
    ghost var grew;
    sz1, grew := Extend(vm, r, sz, sz + 2 * PGSIZE, true, false, st);
    if sz1 == 0 {
      return false, sz;
    }
    RoundedIs(sz1);
    sz := sz1;
    ghost var m1 := vm.mem;
    ok := MakeGuard(vm, r, sz, st);
    UntouchedTwice(old(vm.mem), m1, vm.mem, r, PgRoundUp(sz0));
  }

  const PERM_RWU := Perm(true, true, false, true, 0)

  lemma LastPages(sz: nat)
    requires sz % PGSIZE == 0 && 2 * PGSIZE <= sz <= TRAPFRAME
    ensures IsPage(sz - 2 * PGSIZE) && IsPage(sz - PGSIZE) && IsPage(TRAPFRAME)
  {
  }

  /** uvmclear of the last page but one. */
  method MakeGuard(vm: Vm, r: nat, sz: nat, ghost st: Start) returns (ok: bool)
    requires Building(vm, st, r, sz) && sz >= 2 * PGSIZE && PgRoundUp(sz) == sz
        && Blank(vm.mem, r, sz - 2 * PGSIZE, sz, PERM_RWU)
    modifies vm`mem
    ensures ok && StackReady(vm, st, r, sz) && Untouched(old(vm.mem), vm.mem, r, sz - 2 * PGSIZE)
  {
    LastPages(sz);
    assert IsBlank(vm.mem, r, sz - 2 * PGSIZE, PERM_RWU) && IsBlank(vm.mem, r, sz - PGSIZE, PERM_RWU);
    ok := Uvmclear(vm, r, sz - 2 * PGSIZE, sz);
    KeptUntouched(old(vm.mem), old(vm.role), vm.mem, vm.role, r, sz, TOP_PAGES, sz - 2 * PGSIZE, sz - 2 * PGSIZE + 1,
        sz - 2 * PGSIZE);
    FrameTwice(st.mem, st.role, old(vm.mem), old(vm.role), vm.mem, vm.role, r, 0);
    assert AddrKept(old(vm.mem), old(vm.role), vm.mem, vm.role, r, sz - PGSIZE);
    assert AddrKept(old(vm.mem), old(vm.role), vm.mem, vm.role, r, TRAPFRAME);
  }

  /** The end of the stack page of the new image. */
  function StackTop(bin: Binary): nat { PgRoundUp(ImageSize(bin, |bin.phs|)) + 2 * PGSIZE }

  lemma StackNeeds(bin: Binary)
    ensures Enough(StackTop(bin)) == Enough(ImageSize(bin, |bin.phs|)) + 6 && PgRoundUp(StackTop(bin)) == StackTop(bin)
  {
    var n := PgRoundUp(ImageSize(bin, |bin.phs|));
    RoundedIs(n + 2 * PGSIZE);
    PagesAdd(0, n, n + 2 * PGSIZE);
  }

  /** The strings and the pointers fit in the stack page, and there are not too many. */
  ghost predicate ArgsFit(argv: seq<seq<byte>>, top: nat) {
    |argv| < MAXARG && FinalSp(argv, top) >= top - PGSIZE
  }

  /** All of the new image under root r: ok, or the size to free and a reason to give up.
      Only a binary that cannot be loaded, memory or stack space can be that reason. */
  method BuildImage(vm: Vm, r: nat, bin: Binary, argv: seq<seq<byte>>, ghost st: Start)
      returns (ok: bool, over: bool, sz: nat, sp: int)
    requires GoodBinary(bin) && Building(vm, st, r, 0) && forall k :: 0 <= k < |argv| ==> |argv[k]| < PGSIZE
    modifies vm
    ensures vm.Valid() && Space(vm.mem, vm.role, r, PgRoundUp(sz), TOP_PAGES)
        && Frame(st.mem, st.role, vm.mem, vm.role, r, 0)
    ensures ok ==> StackReady(vm, st, r, sz) && sp == FinalSp(argv, sz) >= sz - PGSIZE && ArgStack(vm.mem, r, argv, sz)
    ensures ok ==> Image(vm.mem, r, bin, |bin.phs|)
    ensures over ==> !ok && |argv| == MAXARG && Sp(argv, sz, |argv|) >= sz - PGSIZE
    ensures ok ==> HeadersOk(bin) && sz == StackTop(bin) && ArgsFit(argv, sz)
    ensures !ok && HeadersOk(bin) && ArgsFit(argv, StackTop(bin)) ==> |old(vm.free)| < Enough(StackTop(bin))
  {
    over, sp := false, 0;
    var fine, good;
    fine, good, sz := LoadSegments(vm, r, bin, st);
    if !good {
      return false, over, sz, sp;
    }
    StackNeeds(bin);
    ok, over, sz, sp := AddStack(vm, r, bin, argv, sz, st);
  }

  /** The stack of the new image, with the arguments. */
  method AddStack(vm: Vm, r: nat, bin: Binary, argv: seq<seq<byte>>, sz0: nat, ghost st: Start)
      returns (ok: bool, over: bool, sz: nat, sp: int)
    requires Building(vm, st, r, sz0) && Image(vm.mem, r, bin, |bin.phs|) && sz0 == ImageSize(bin, |bin.phs|)
    requires forall k :: 0 <= k < |argv| ==> |argv[k]| < PGSIZE
    modifies vm
    ensures vm.Valid() && Space(vm.mem, vm.role, r, PgRoundUp(sz), TOP_PAGES)
        && Frame(st.mem, st.role, vm.mem, vm.role, r, 0)
    ensures ok ==> StackReady(vm, st, r, sz) && sp == FinalSp(argv, sz) >= sz - PGSIZE && ArgStack(vm.mem, r, argv, sz)
    ensures ok ==> Image(vm.mem, r, bin, |bin.phs|)
    ensures ok ==> sz == PgRoundUp(sz0) + 2 * PGSIZE && ArgsFit(argv, sz)
    ensures over ==> !ok && |argv| == MAXARG && Sp(argv, sz, |argv|) >= sz - PGSIZE
    ensures !ok && ArgsFit(argv, PgRoundUp(sz0) + 2 * PGSIZE) ==> |old(vm.free)| < 6
  {
    over, sp := false, 0;
    ghost var m1 := vm.mem;
    ok, sz := MakeStack(vm, r, sz0, st);
    if !ok {
      return;
    }
    ImageStays(m1, vm.mem, r, bin, |bin.phs|);
    RoundedIs(sz);
    ghost var m2 := vm.mem;
    ok, over, sp := FillStack(vm, r, argv, sz, st);
    ImageStays(m2, vm.mem, r, bin, |bin.phs|);
  }

  method FillStack(vm: Vm, r: nat, argv: seq<seq<byte>>, sz: nat, ghost st: Start)
      returns (ok: bool, over: bool, sp: int)
    requires StackReady(vm, st, r, sz) && forall k :: 0 <= k < |argv| ==> |argv[k]| < PGSIZE
    modifies vm
    ensures StackReady(vm, st, r, sz) && (ok <==> |argv| < MAXARG && FinalSp(argv, sz) >= sz - PGSIZE)
    ensures ok ==> sp == FinalSp(argv, sz) && ArgStack(vm.mem, r, argv, sz)
    ensures over <==> |argv| == MAXARG && Sp(argv, sz, |argv|) >= sz - PGSIZE
    ensures Untouched(old(vm.mem), vm.mem, r, sz - 2 * PGSIZE)
  {
    LastPages(sz);
    ok, over, sp := PushArgs(vm, r, argv, sz, sz, TOP_PAGES);
    UserOnlyFrame(old(vm.mem), vm.mem, vm.role, r);
    FrameTwice(st.mem, st.role, old(vm.mem), vm.role, vm.mem, vm.role, r, 0);
    UserOnlyStack(old(vm.mem), vm.mem, vm.role, r, sz);
  }

  /** Writes to user memory leave the entries of all pages alone. */
  lemma UserOnlyStack(m0: Memory, mem: Memory, role: Roles, r: nat, sz: nat)
    requires UserOnly(m0, mem, role, r) && StackPages(m0, r, sz) && sz % PGSIZE == 0 && sz <= TRAPFRAME
    ensures StackPages(mem, r, sz) && SameEntry(m0, mem, r, TRAPFRAME) && SameEntries(m0, mem, r, sz - 2 * PGSIZE)
  {
    LastPages(sz);
    assert SameEntry(m0, mem, r, sz - PGSIZE) && SameEntry(m0, mem, r, sz - 2 * PGSIZE);
    assert SameEntry(m0, mem, r, TRAPFRAME);
  }

  /** The pages of the old root are free or in the new tree, and pages that were neither free
      nor the old root's are as before. */
  ghost predicate ReplacedPage(m0: Memory, r0: Roles, mem: Memory, role: Roles, from: nat, to: nat, q: nat) {
    && q in r0 && q in role && q in m0 && q in mem
    && if Mine(r0[q], from) then Mine(role[q], to) else role[q] == r0[q] && mem[q] == m0[q]
  }

  ghost predicate Replaced(m0: Memory, r0: Roles, mem: Memory, role: Roles, from: nat, to: nat) {
    && role.Keys == r0.Keys
    && forall q {:trigger ReplacedPage(m0, r0, mem, role, from, to, q)} :: q in r0
        ==> ReplacedPage(m0, r0, mem, role, from, to, q)
  }

  lemma ReplacedByBoth(m0: Memory, r0: Roles, m1: Memory, r1: Roles, m2: Memory, r2: Roles, from: nat, to: nat)
    requires Frame(m0, r0, m1, r1, to, 0) && Unknown(r0, to) && 0 !in r0 && from != to && Freed(m1, r1, m2, r2, from)
    ensures Replaced(m0, r0, m2, r2, from, to)
  {
    forall q | q in r0 ensures ReplacedPage(m0, r0, m2, r2, from, to, q) {
      assert FramePage(m0, r0, m1, r1, to, q) && FreedPage(m1, r1, m2, r2, from, q);
    }
  }

  lemma FreedIsFrame(m0: Memory, r0: Roles, mem: Memory, role: Roles, r: nat)
    requires Freed(m0, r0, mem, role, r)
    ensures Frame(m0, r0, mem, role, r, 0)
  {
    forall q | q in r0 ensures FramePage(m0, r0, mem, role, r, q) {
      assert FreedPage(m0, r0, mem, role, r, q);
    }
  }

  /** Bytes of a space that is left alone are still there. */
  lemma BytesKept(mem: Memory, role: Roles, mem': Memory, role': Roles, r: nat, n: nat, ext: set<nat>, va: nat,
      d: seq<byte>)
    requires Matched(mem, role, NOHOLE) && Space(mem, role, r, n, ext) && Kept(mem, role, mem', role', r, 0, 0)
        && BytesAt(mem, r, va, d)
    ensures BytesAt(mem', r, va, d)
  {
    forall k: nat | k < |d| ensures ByteAt(mem', r, va, d, k) {
      assert ByteAt(mem, r, va, d, k);
      ReadablePage(mem, role, r, n, ext, va + k);
      assert AddrKept(mem, role, mem', role', r, PgRoundDown(va + k));
    }
  }

  lemma {:induction false} ArgStackKept(mem: Memory, role: Roles, mem': Memory, role': Roles, r: nat, n: nat,
      ext: set<nat>, argv: seq<seq<byte>>, top: nat)
    requires Matched(mem, role, NOHOLE) && Space(mem, role, r, n, ext) && Kept(mem, role, mem', role', r, 0, 0)
        && ArgStack(mem, r, argv, top)
    ensures ArgStack(mem', r, argv, top)
  {
    forall j: nat | j < |argv| ensures ArgAt(mem', r, argv, top, j) {
      assert ArgAt(mem, r, argv, top, j);
      BytesKept(mem, role, mem', role', r, n, ext, Sp(argv, top, j + 1), argv[j] + [0]);
    }
    forall k: nat | k <= |argv| ensures PointerAt(mem', r, argv, top, k) {
      assert PointerAt(mem, r, argv, top, k);
      BytesKept(mem, role, mem', role', r, n, ext, FinalSp(argv, top) + 8 * k,
          Le(if k < |argv| then Sp(argv, top, k + 1) else 0, 8));
    }
  }

  lemma StackStays(m0: Memory, mem: Memory, r: nat, sz: nat)
    requires StackPages(m0, r, sz) && sz % PGSIZE == 0 && sz <= TRAPFRAME && Untouched(m0, mem, r, sz)
    ensures StackPages(mem, r, sz)
  {
    LastPages(sz);
    assert SameEntry(m0, mem, r, sz - PGSIZE) && SameEntry(m0, mem, r, sz - 2 * PGSIZE);
  }

  /** The commit of exec: the process gets the new root, and the old one is freed. */
  method Switch(vm: Vm, p: Proc, r: nat, sz: nat, argv: seq<seq<byte>>, ghost m0: Memory, ghost r0: Roles)
      returns (p': Proc)
    requires Matched(m0, r0, NOHOLE) && ProcOk(m0, r0, p) && Unknown(r0, r) && vm.Valid() && m0.Keys == vm.mem.Keys
    requires StackReady(vm, Start(m0, r0, p.trapframe), r, sz) && ArgStack(vm.mem, r, argv, sz)
    modifies vm
    ensures Untouched(old(vm.mem), vm.mem, r, sz) && StackPages(vm.mem, r, sz)
    ensures vm.Valid() && ProcOk(vm.mem, vm.role, p') && p' == Proc(r, sz, p.trapframe) && ArgStack(vm.mem, r, argv, sz)
    ensures Replaced(m0, r0, vm.mem, vm.role, p.pagetable, r)
  {
    ghost var m1, r1 := vm.mem, vm.role;
    RoundedIs(sz);
    assert Live(r0, p.pagetable) && r0[p.pagetable].At?;
    OtherSpace(m0, r0, m1, r1, r, p.pagetable, PgRoundUp(p.sz), TOP_PAGES);
    assert FramePage(m0, r0, m1, r1, r, p.trapframe);
    p' := Proc(r, sz, p.trapframe);
    SpaceIsLoose(m1, r1, p.pagetable, PgRoundUp(p.sz), TOP_PAGES);
    var ok := ProcFreepagetable(vm, p.pagetable, p.sz);
    ReplacedByBoth(m0, r0, m1, r1, vm.mem, vm.role, p.pagetable, r);
    FreedIsFrame(m1, r1, vm.mem, vm.role, p.pagetable);
    OtherSpace(m1, r1, vm.mem, vm.role, p.pagetable, r, sz, TOP_PAGES);
    ArgStackKept(m1, r1, vm.mem, vm.role, r, sz, TOP_PAGES, argv, sz);
    KeptUntouched(m1, r1, vm.mem, vm.role, r, sz, TOP_PAGES, 0, 0, sz);
    StackStays(m1, vm.mem, r, sz);
    assert FreedPage(m1, r1, vm.mem, vm.role, p.pagetable, p.trapframe);
    assert AddrKept(m1, r1, vm.mem, vm.role, r, TRAPFRAME);
  }

  /** exec. On success the process has the new image, with the arguments on its stack at sp,
      and the old image is freed. On failure the process and its image are as before, and no
      page is lost. It fails only if the binary cannot be loaded, the arguments do not fit or
      there is not enough memory. over says that the kernel would write past the end of its array of
      pointers, which takes exactly MAXARG strings; the model then fails. */
  method Exec(vm: Vm, trampoline: nat, p: Proc, bin: Binary, argv: seq<seq<byte>>)
      returns (rc: int, over: bool, p': Proc, sp: int)
    requires vm.Valid() && ProcOk(vm.mem, vm.role, p) && trampoline != 0 && trampoline !in vm.role && GoodBinary(bin)
    requires forall k :: 0 <= k < |argv| ==> |argv[k]| < PGSIZE
    modifies vm
    ensures over ==> rc == -1 && |argv| == MAXARG
    ensures vm.Valid() && ProcOk(vm.mem, vm.role, p') && p'.trapframe == p.trapframe && (rc == -1 || rc == |argv|)
    ensures rc == -1 ==> p' == p && Restored(old(vm.mem), old(vm.role), vm.mem, vm.role)
    ensures rc != -1 ==>
        p'.pagetable != p.pagetable
        && Replaced(old(vm.mem), old(vm.role), vm.mem, vm.role, p.pagetable, p'.pagetable)
    ensures rc != -1 ==> ArgStack(vm.mem, p'.pagetable, argv, p'.sz) && sp == FinalSp(argv, p'.sz) >= p'.sz - PGSIZE
    ensures rc != -1 ==> Image(vm.mem, p'.pagetable, bin, |bin.phs|) && StackPages(vm.mem, p'.pagetable, p'.sz)
    ensures rc != -1 ==> bin.header && HeadersOk(bin) && p'.sz == StackTop(bin) && ArgsFit(argv, p'.sz)
    ensures rc == -1 && bin.header && HeadersOk(bin) && ArgsFit(argv, StackTop(bin)) ==>
        |old(vm.free)| < 5 + Enough(StackTop(bin))
  {
    rc, over, p', sp := -1, false, p, 0;
    NothingAdded(vm.mem, vm.role);
    if !bin.header {
      return;
    }
    var r := ProcPagetable(vm, trampoline, p.trapframe);
    if r == 0 {
      RestoredProc(old(vm.mem), old(vm.role), vm.mem, vm.role, p);
      return;
    }
    rc, over, p', sp := ExecImage(vm, p, r, bin, argv, old(vm.mem), old(vm.role));
  }

  /** exec once it has a page table: build the image, and then switch to it or free it. */
  method ExecImage(vm: Vm, p: Proc, r: nat, bin: Binary, argv: seq<seq<byte>>, ghost m0: Memory, ghost r0: Roles)
      returns (rc: int, over: bool, p': Proc, sp: int)
    requires Matched(m0, r0, NOHOLE) && ProcOk(m0, r0, p) && Unknown(r0, r) && vm.Valid() && m0.Keys == vm.mem.Keys
        && GoodBinary(bin)
    requires Space(vm.mem, vm.role, r, 0, TOP_PAGES) && Frame(m0, r0, vm.mem, vm.role, r, 0)
        && Lookup(vm.mem, r, TRAPFRAME).pa == p.trapframe
    requires forall k :: 0 <= k < |argv| ==> |argv[k]| < PGSIZE
    modifies vm
    ensures over ==> rc == -1 && |argv| == MAXARG
    ensures vm.Valid() && ProcOk(vm.mem, vm.role, p') && p'.trapframe == p.trapframe && (rc == -1 || rc == |argv|)
    ensures rc == -1 ==> p' == p && Restored(m0, r0, vm.mem, vm.role)
    ensures rc != -1 ==> p'.pagetable != p.pagetable && Replaced(m0, r0, vm.mem, vm.role, p.pagetable, p'.pagetable)
    ensures rc != -1 ==> ArgStack(vm.mem, p'.pagetable, argv, p'.sz) && sp == FinalSp(argv, p'.sz) >= p'.sz - PGSIZE
    ensures rc != -1 ==> Image(vm.mem, p'.pagetable, bin, |bin.phs|) && StackPages(vm.mem, p'.pagetable, p'.sz)
    ensures rc != -1 ==> HeadersOk(bin) && p'.sz == StackTop(bin) && ArgsFit(argv, p'.sz)
    ensures rc == -1 && HeadersOk(bin) && ArgsFit(argv, StackTop(bin)) ==> |old(vm.free)| < Enough(StackTop(bin))
  {
    RoundedIs(0);
    assert AllUser(vm.mem, r, 0);
    assert Live(r0, p.pagetable) && r0[p.pagetable].At?;
    var ok, sz;
    ok, over, sz, sp := BuildImage(vm, r, bin, argv, Start(m0, r0, p.trapframe));
    if ok {
      ghost var m1 := vm.mem;
      p' := Switch(vm, p, r, sz, argv, m0, r0);
      UntouchedBelow(m1, vm.mem, r, PgRoundUp(ImageSize(bin, |bin.phs|)), sz);
      ImageStays(m1, vm.mem, r, bin, |bin.phs|);
      rc := |argv|;
    } else {
      ghost var m1, r1 := vm.mem, vm.role;
      SpaceIsLoose(m1, r1, r, PgRoundUp(sz), TOP_PAGES);
      var freed := ProcFreepagetable(vm, r, sz);
      RestoredByFree(m0, r0, m1, r1, vm.mem, vm.role, r);
      RestoredProc(m0, r0, vm.mem, vm.role, p);
      rc, p' := -1, p;
    }
  }

  /** A process is left alone if all pages in use are. */
  lemma RestoredProc(m0: Memory, r0: Roles, mem: Memory, role: Roles, p: Proc)
    requires Matched(m0, r0, NOHOLE) && Matched(mem, role, NOHOLE) && ProcOk(m0, r0, p) && Restored(m0, r0, mem, role)
    ensures ProcOk(mem, role, p)
  {
    forall q | q in r0 ensures FramePage(m0, r0, mem, role, 0, q) {
      assert RestoredPage(m0, r0, mem, role, q);
    }
    assert !Live(r0, 0);
    OtherSpace(m0, r0, mem, role, 0, p.pagetable, PgRoundUp(p.sz), TOP_PAGES);
    assert RestoredPage(m0, r0, mem, role, p.trapframe) && AddrKept(m0, r0, mem, role, p.pagetable, TRAPFRAME);
  }
}
