/** The argument stack that exec builds in a new image (kernel/exec.c). */
module ExecStack {
  import opened PageFormat
  import opened PageTree
  import opened PageFrames
  import opened Vm
  import opened UserCopy

  const MAXARG: nat := 32

  function Align16(x: int): (r: int)
    ensures x - 16 < r <= x && r % 16 == 0
  {
    x - x % 16
  }

  /** The stack pointer after the first k strings were pushed below top. */
  function Sp(argv: seq<seq<byte>>, top: int, k: nat): (r: int)
    requires k <= |argv|
    ensures r <= top
  {
    if k == 0 then top else Align16(Sp(argv, top, k - 1) - (|argv[k - 1]| + 1))
  }

  /** The stack pointer below the array of pointers to the strings. */
  function FinalSp(argv: seq<seq<byte>>, top: int): (r: int)
    ensures r % 16 == 0 && r + 8 * (|argv| + 1) <= Sp(argv, top, |argv|)
  {
    Align16(Sp(argv, top, |argv|) - 8 * (|argv| + 1))
  }

  /** Pushing more moves the stack pointer down. */
  lemma {:induction false} SpFalls(argv: seq<seq<byte>>, top: int, j: nat, k: nat)
    requires j <= k <= |argv|
    ensures Sp(argv, top, k) <= Sp(argv, top, j)
    ensures j < k ==> Sp(argv, top, k) + |argv[k - 1]| + 1 <= Sp(argv, top, j) && Sp(argv, top, k) % 16 == 0
  {
    if j < k - 1 { SpFalls(argv, top, j, k - 1); }
  }

  /** If all fits above base, each string is aligned, inside the page and above the array of
      pointers. */
  lemma {:induction false} StringInside(argv: seq<seq<byte>>, top: int, base: int, j: nat)
    requires FinalSp(argv, top) >= base && j < |argv|
    ensures Sp(argv, top, j + 1) % 16 == 0 && Sp(argv, top, j + 1) + |argv[j]| + 1 <= top
    ensures base + 8 * (|argv| + 1) <= FinalSp(argv, top) + 8 * (|argv| + 1) <= Sp(argv, top, j + 1)
  {
    SpFalls(argv, top, 0, j + 1);
    SpFalls(argv, top, j + 1, |argv|);
  }

  /** The strings are one below the other. */
  lemma {:induction false} StringsApart(argv: seq<seq<byte>>, top: int, j: nat, k: nat)
    requires j < k < |argv|
    ensures Sp(argv, top, k + 1) + |argv[k]| + 1 <= Sp(argv, top, j + 1)
  {
    SpFalls(argv, top, j + 1, k + 1);
  }

  /** A 64-bit word in memory, lowest byte first. */
  function Le(x: nat, n: nat): (r: seq<byte>)
    ensures |r| == n
  {
    if n == 0 then [] else [(x % 256) as byte] + Le(x / 256, n - 1)
  }

  function FromLe(d: seq<byte>): nat {
    if d == [] then 0 else d[0] as nat + 256 * FromLe(d[1..])
  }

  function Pow256(n: nat): nat { if n == 0 then 1 else 256 * Pow256(n - 1) }

  lemma {:induction false} LeRoundTrip(x: nat, n: nat)
    requires x < Pow256(n)
    ensures FromLe(Le(x, n)) == x
  {
    if n > 0 { LeRoundTrip(x / 256, n - 1); }
  }

  /** An array of 64-bit words. */
  function Words(ws: seq<nat>): (r: seq<byte>)
    ensures |r| == 8 * |ws|
  {
    if ws == [] then [] else Words(ws[..|ws| - 1]) + Le(ws[|ws| - 1], 8)
  }

  lemma {:induction false} WordAt(ws: seq<nat>, k: nat)
    requires k < |ws|
    ensures Words(ws)[8 * k..8 * k + 8] == Le(ws[k], 8)
  {
    var front := ws[..|ws| - 1];
    if k < |front| {
      WordAt(front, k);
      assert Words(ws)[8 * k..8 * k + 8] == Words(front)[8 * k..8 * k + 8];
    }
  }

  /** The pointers to the first k strings. */
  function Pointers(argv: seq<seq<byte>>, top: int, k: nat): (r: seq<int>)
    requires k <= |argv|
    ensures |r| == k && forall j :: 0 <= j < k ==> r[j] == Sp(argv, top, j + 1)
  {
    if k == 0 then [] else Pointers(argv, top, k - 1) + [Sp(argv, top, k)]
  }

  // ----- writing to the stack page -----

  /** All of the stack page [base, base + PGSIZE) may be written by user mode. */
  ghost predicate Stack(mem: Memory, r: nat, base: nat) {
    base % PGSIZE == 0 && base < MAXVA && Lookup(mem, r, base).v && Lookup(mem, r, base).u && Lookup(mem, r, base).w
  }

  lemma PageOf(base: nat, a: nat)
    requires base % PGSIZE == 0 && base <= a < base + PGSIZE
    ensures PgRoundDown(a) == base && (base < MAXVA ==> a < MAXVA)
  {
  }

  lemma StackWritable(mem: Memory, r: nat, base: nat, a: nat)
    requires Stack(mem, r, base) && base <= a < base + PGSIZE
    ensures Writable(mem, r, a)
  {
    PageOf(base, a);
  }

  /** What was there before and is not overwritten is still there. */
  lemma StoredKeeps(m0: Memory, mem: Memory, role: Roles, r: nat, n: nat, ext: set<nat>, va: nat, d: seq<byte>, a: nat,
      e: seq<byte>)
    requires Matched(m0, role, NOHOLE) && Space(m0, role, r, n, ext) && Stored(m0, mem, role, r, n, va, d)
        && BytesAt(m0, r, a, e)
    requires a + |e| <= va || va + |d| <= a
    ensures BytesAt(mem, r, a, e)
  {
    forall k: nat | k < |e| ensures ByteAt(mem, r, a, e, k) {
      assert ByteAt(m0, r, a, e, k);
      ReadablePage(m0, role, r, n, ext, a + k);
      assert PlaceOk(m0, role, r, n, ext, PgRoundDown(a + k));
      PageEnd(a + k, n);
      assert SameEntry(m0, mem, r, PgRoundDown(a + k)) && Wrote(m0, mem, r, va, d, a + k);
    }
  }

  /** The byte at a, if it can be read, is still there. */
  ghost predicate SameByte(m0: Memory, mem: Memory, r: nat, a: nat) {
    Readable(m0, r, a) ==> Readable(mem, r, a) && UserByte(mem, r, a) == UserByte(m0, r, a)
  }

  /** Below n, bytes outside [lo, hi) are still there. */
  ghost predicate SameBytes(m0: Memory, mem: Memory, r: nat, n: nat, lo: nat, hi: nat) {
    forall a: nat {:trigger SameByte(m0, mem, r, a)} :: a < n && !(lo <= a < hi) ==> SameByte(m0, mem, r, a)
  }

  lemma BytesSame(m0: Memory, mem: Memory, r: nat, n: nat, lo: nat, hi: nat, va: nat, d: seq<byte>)
    requires SameBytes(m0, mem, r, n, lo, hi) && BytesAt(m0, r, va, d) && va + |d| <= n && (va + |d| <= lo || hi <= va)
    ensures BytesAt(mem, r, va, d)
  {
    forall k: nat | k < |d| ensures ByteAt(mem, r, va, d, k) {
      assert ByteAt(m0, r, va, d, k) && SameByte(m0, mem, r, va + k);
    }
  }

  /** Two changes, the first of which keeps all or is to the same range. */
  lemma SameTwice(m0: Memory, m1: Memory, m2: Memory, r: nat, n: nat, lo1: nat, hi1: nat, lo: nat, hi: nat)
    requires SameBytes(m0, m1, r, n, lo1, hi1) && SameBytes(m1, m2, r, n, lo, hi)
        && (hi1 <= lo1 || (lo <= lo1 && hi1 <= hi))
    ensures SameBytes(m0, m2, r, n, lo, hi)
  {
    forall a: nat | a < n && !(lo <= a < hi) ensures SameByte(m0, m2, r, a) {
      assert SameByte(m0, m1, r, a) && SameByte(m1, m2, r, a);
    }
  }

  lemma StoredSame(m0: Memory, mem: Memory, role: Roles, r: nat, n: nat, start: nat, src: seq<byte>, lo: nat, hi: nat)
    requires Stored(m0, mem, role, r, n, start, src) && (src == [] || (lo <= start && start + |src| <= hi))
    ensures SameBytes(m0, mem, r, n, lo, hi)
  {
    forall a: nat | a < n && !(lo <= a < hi) ensures SameByte(m0, mem, r, a) {
      assert Wrote(m0, mem, r, start, src, a);
      if a < MAXVA {
        RoundTwice(a);
        assert SameEntry(m0, mem, r, PgRoundDown(a));
      }
    }
  }

  /** Pages that are kept keep their bytes. */
  lemma KeptSame(m0: Memory, r0: Roles, mem: Memory, role: Roles, r: nat, n0: nat, ext: set<nat>, lo: nat, hi: nat,
      n: nat)
    requires Matched(m0, r0, NOHOLE) && Space(m0, r0, r, n0, ext) && Kept(m0, r0, mem, role, r, lo, hi)
    requires n % PGSIZE == 0 && (hi <= lo || n <= lo)
    ensures SameBytes(m0, mem, r, n, 0, 0)
  {
    forall a: nat | a < n ensures SameByte(m0, mem, r, a) {
      if Readable(m0, r, a) {
        ReadablePage(m0, r0, r, n0, ext, a);
        assert AddrKept(m0, r0, mem, role, r, PgRoundDown(a));
      }
    }
  }

  /** copyout to the stack page, which succeeds. */
  method PushBytes(vm: Vm, r: nat, va: nat, d: seq<byte>, ghost base: nat, ghost n: nat, ghost ext: set<nat>)
      returns (rc: int)
    requires vm.Valid() && Space(vm.mem, vm.role, r, n, ext) && Stack(vm.mem, r, base) && base <= va
        && va + |d| <= base + PGSIZE
    modifies vm
    ensures rc == 0 && vm.Valid() && vm.role == old(vm.role) && Space(vm.mem, vm.role, r, n, ext)
        && Stack(vm.mem, r, base)
    ensures Stored(old(vm.mem), vm.mem, vm.role, r, n, va, d) && BytesAt(vm.mem, r, va, d)
  {
    ghost var k;
    rc, k := Copyout(vm, r, va, d, n, ext);
    if rc != 0 { StackWritable(old(vm.mem), r, base, va + k); }
    assert d[..k] == d;
    StoredIsRead(old(vm.mem), vm.mem, vm.role, r, n, ext, va, d);
    assert SameEntry(old(vm.mem), vm.mem, r, base);
  }

  /** String j is on the stack. */
  ghost predicate ArgAt(mem: Memory, r: nat, argv: seq<seq<byte>>, top: nat, j: nat) {
    j < |argv| && Sp(argv, top, j + 1) >= 0 && BytesAt(mem, r, Sp(argv, top, j + 1), argv[j] + [0])
  }

  ghost predicate ArgsAt(mem: Memory, r: nat, argv: seq<seq<byte>>, top: nat, k: nat) {
    forall j: nat {:trigger ArgAt(mem, r, argv, top, j)} :: j < k ==> ArgAt(mem, r, argv, top, j)
  }

  /** Bytes stored below all strings leave them alone. */
  lemma {:induction false} ArgsKept(m0: Memory, mem: Memory, role: Roles, r: nat, n: nat, ext: set<nat>, va: nat,
      d: seq<byte>, argv: seq<seq<byte>>, top: nat, k: nat)
    requires Matched(m0, role, NOHOLE) && Space(m0, role, r, n, ext) && Stored(m0, mem, role, r, n, va, d)
    requires k <= |argv| && va + |d| <= Sp(argv, top, k) && ArgsAt(m0, r, argv, top, k)
    ensures ArgsAt(mem, r, argv, top, k)
  {
    forall j: nat | j < k ensures ArgAt(mem, r, argv, top, j) {
      assert ArgAt(m0, r, argv, top, j);
      SpFalls(argv, top, j + 1, k);
      StoredKeeps(m0, mem, role, r, n, ext, va, d, Sp(argv, top, j + 1), argv[j] + [0]);
    }
  }

  /** copyout of string k, at the stack pointer. */
  method PushString(vm: Vm, r: nat, argv: seq<seq<byte>>, k: nat, sp: nat, ghost m0: Memory, ghost top: nat,
      ghost n: nat, ghost ext: set<nat>) returns (rc: int)
    requires k < |argv| && Pushing(vm, m0, vm.role, r, argv, top, k, n, ext)
        && sp == Sp(argv, top, k + 1) >= top - PGSIZE
    modifies vm
    ensures rc == 0 && Pushing(vm, m0, old(vm.role), r, argv, top, k + 1, n, ext)
  {
    SpFalls(argv, top, k, k + 1);
    var s := argv[k] + [0];
    rc := PushBytes(vm, r, sp, s, top - PGSIZE, n, ext);
    ArgsKept(old(vm.mem), vm.mem, vm.role, r, n, ext, sp, s, argv, top, k);
    OnlyUserTwice(m0, old(vm.mem), vm.mem, vm.role, r);
    StoredSame(old(vm.mem), vm.mem, vm.role, r, n, sp, s, top - PGSIZE, top);
    SameTwice(m0, old(vm.mem), vm.mem, r, n, top - PGSIZE, top, top - PGSIZE, top);
    assert ArgAt(vm.mem, r, argv, top, k);
  }

  /** The argument loop of exec: ok if and only if there are not too many strings and they fit in
      the page below top. */
  method PushStrings(vm: Vm, r: nat, argv: seq<seq<byte>>, top: nat, ghost n: nat, ghost ext: set<nat>)
      returns (ok: bool, sp: int, ustack: seq<int>)
    requires vm.Valid() && Space(vm.mem, vm.role, r, n, ext) && top >= 2 * PGSIZE && Stack(vm.mem, r, top - PGSIZE)
    requires forall k :: 0 <= k < |argv| ==> |argv[k]| < PGSIZE
    modifies vm
    ensures Pushing(vm, old(vm.mem), old(vm.role), r, argv, top, if ok then |argv| else 0, n, ext)
    ensures ok <==> |argv| <= MAXARG && Sp(argv, top, |argv|) >= top - PGSIZE
    ensures ok ==> sp == Sp(argv, top, |argv|) && ustack == Pointers(argv, top, |argv|)
  {
    sp, ustack := top, [];
    var argc := 0;
    OnlyUser(vm.mem, vm.role, r);
    while argc < |argv|
      invariant argc <= |argv| && Pushing(vm, old(vm.mem), old(vm.role), r, argv, top, argc, n, ext)
      invariant sp == Sp(argv, top, argc) >= top - PGSIZE && ustack == Pointers(argv, top, argc) && argc <= MAXARG
    {
      if argc >= MAXARG {
        return false, sp, ustack;
      }
      sp := NextSp(argv, top, argc, sp);
      if sp < top - PGSIZE {
        SpFalls(argv, top, argc + 1, |argv|);
        return false, sp, ustack;
      }
      var rc := PushString(vm, r, argv, argc, sp, old(vm.mem), top, n, ext);
      if rc < 0 {
        return false, sp, ustack;
      }
      ustack := ustack + [sp];
      argc := argc + 1;
    }
    ok := true;
  }

  /** Room for string k and its 0, and alignment; nothing wraps below 0. */
  method NextSp(argv: seq<seq<byte>>, ghost top: nat, k: nat, sp: int) returns (sp': int)
    requires k < |argv| && |argv[k]| < PGSIZE && sp == Sp(argv, top, k) >= PGSIZE
    ensures sp' == Sp(argv, top, k + 1) >= 0
  {
    sp' := sp - (|argv[k]| + 1);
    sp' := sp' - sp' % 16;
  }

  /** exec has pushed k strings. */
  ghost predicate Pushing(vm: Vm, m0: Memory, role: Roles, r: nat, argv: seq<seq<byte>>, top: nat, k: nat, n: nat,
      ext: set<nat>)
    reads vm
  {
    && vm.Valid() && vm.role == role && Space(vm.mem, role, r, n, ext) && top >= 2 * PGSIZE
        && Stack(vm.mem, r, top - PGSIZE)
    && UserOnly(m0, vm.mem, role, r) && ArgsAt(vm.mem, r, argv, top, k)
        && SameBytes(m0, vm.mem, r, n, top - PGSIZE, top)
  }

  lemma OnlyUser(mem: Memory, role: Roles, r: nat)
    requires mem.Keys == role.Keys
    ensures UserOnly(mem, mem, role, r)
  {
  }

  lemma OnlyUserTwice(m0: Memory, m1: Memory, m2: Memory, role: Roles, r: nat)
    requires UserOnly(m0, m1, role, r) && UserOnly(m1, m2, role, r)
    ensures UserOnly(m0, m2, role, r)
  {
    forall q | q in role ensures NotUser(m0, m2, role, r, q) {
      assert NotUser(m0, m1, role, r, q) && NotUser(m1, m2, role, r, q);
    }
    forall a: nat | IsPage(a) ensures SameEntry(m0, m2, r, a) {
      assert SameEntry(m0, m1, r, a) && SameEntry(m1, m2, r, a);
    }
  }

  /** The stack of a new image, for main(argc, argv): at the stack pointer there is an array
      of argc pointers and a 0, and each pointer leads to its string. */
  ghost predicate ArgStack(mem: Memory, r: nat, argv: seq<seq<byte>>, top: nat) {
    && ArgsAt(mem, r, argv, top, |argv|) && FinalSp(argv, top) >= 0
    && forall k: nat {:trigger PointerAt(mem, r, argv, top, k)} :: k <= |argv| ==> PointerAt(mem, r, argv, top, k)
  }

  ghost predicate PointerAt(mem: Memory, r: nat, argv: seq<seq<byte>>, top: nat, k: nat) {
    && FinalSp(argv, top) >= 0 && k <= |argv| && (k < |argv| ==> Sp(argv, top, k + 1) >= 0)
    && BytesAt(mem, r, FinalSp(argv, top) + 8 * k, Le(if k < |argv| then Sp(argv, top, k + 1) else 0, 8))
  }

  /** The whole argument stack of exec: ok if and only if there are fewer than MAXARG strings,
      and the strings and the pointers fit in the page below top. With exactly MAXARG strings
      that fit, the kernel stores the final 0 past the end of its array: over says so, and the
      method stops there. */
  method PushArgs(vm: Vm, r: nat, argv: seq<seq<byte>>, top: nat, ghost n: nat, ghost ext: set<nat>)
      returns (ok: bool, over: bool, sp: int)
    requires vm.Valid() && Space(vm.mem, vm.role, r, n, ext) && top >= 2 * PGSIZE && Stack(vm.mem, r, top - PGSIZE)
    requires forall k :: 0 <= k < |argv| ==> |argv[k]| < PGSIZE
    modifies vm
    ensures Pushing(vm, old(vm.mem), old(vm.role), r, argv, top, 0, n, ext)
    ensures over <==> |argv| == MAXARG && Sp(argv, top, |argv|) >= top - PGSIZE
    ensures ok <==> |argv| < MAXARG && FinalSp(argv, top) >= top - PGSIZE
    ensures ok ==> sp == FinalSp(argv, top) && ArgStack(vm.mem, r, argv, top)
  {
    var ustack;
    over := false;
    ok, sp, ustack := PushStrings(vm, r, argv, top, n, ext);
    if !ok {
      return;
    }
    if |argv| == MAXARG {
      return false, true, sp;
    }
    sp := sp - (|argv| + 1) * 8;
    sp := sp - sp % 16;
    if sp < top - PGSIZE {
      return false, false, sp;
    }
    var rc := PushPointers(vm, r, argv, ustack, sp, old(vm.mem), top, n, ext);
    ok := rc == 0;
  }

  /** copyout of the pointers. */
  method PushPointers(vm: Vm, r: nat, argv: seq<seq<byte>>, ustack: seq<int>, sp: nat, ghost m0: Memory,
      ghost top: nat, ghost n: nat, ghost ext: set<nat>) returns (rc: int)
    requires Pushing(vm, m0, vm.role, r, argv, top, |argv|, n, ext) && ustack == Pointers(argv, top, |argv|)
        && sp == FinalSp(argv, top) >= top - PGSIZE
    modifies vm
    ensures rc == 0 && Pushing(vm, m0, old(vm.role), r, argv, top, |argv|, n, ext) && ArgStack(vm.mem, r, argv, top)
  {
    var words := ustack + [0];
    forall j | 0 <= j < |words| ensures words[j] >= 0 {
      if j < |argv| { assert ArgAt(vm.mem, r, argv, top, j); }
    }
    SpFalls(argv, top, 0, |argv|);
    rc := PushBytes(vm, r, sp, Words(words), top - PGSIZE, n, ext);
    ArgsKept(old(vm.mem), vm.mem, vm.role, r, n, ext, sp, Words(words), argv, top, |argv|);
    OnlyUserTwice(m0, old(vm.mem), vm.mem, vm.role, r);
    StoredSame(old(vm.mem), vm.mem, vm.role, r, n, sp, Words(words), top - PGSIZE, top);
    SameTwice(m0, old(vm.mem), vm.mem, r, n, top - PGSIZE, top, top - PGSIZE, top);
    PointersRead(vm.mem, r, argv, top, words);
  }

  lemma {:induction false} PointersRead(mem: Memory, r: nat, argv: seq<seq<byte>>, top: nat, words: seq<nat>)
    requires FinalSp(argv, top) >= 0 && |words| == |argv| + 1 && words[|argv|] == 0
        && (forall j :: 0 <= j < |argv| ==> words[j] == Sp(argv, top, j + 1))
    requires BytesAt(mem, r, FinalSp(argv, top), Words(words))
    ensures forall k: nat {:trigger PointerAt(mem, r, argv, top, k)} :: k <= |argv| ==> PointerAt(mem, r, argv, top, k)
  {
    forall k: nat | k <= |argv| ensures PointerAt(mem, r, argv, top, k) {
      WordIsAt(mem, r, FinalSp(argv, top), words, k);
    }
  }

  lemma {:induction false} WordIsAt(mem: Memory, r: nat, va: nat, words: seq<nat>, k: nat)
    requires BytesAt(mem, r, va, Words(words)) && k < |words|
    ensures BytesAt(mem, r, va + 8 * k, Le(words[k], 8))
  {
    WordAt(words, k);
    PartAt(mem, r, va, Words(words), 8 * k, 8 * k + 8);
  }

  lemma PartAt(mem: Memory, r: nat, va: nat, d: seq<byte>, i: nat, j: nat)
    requires BytesAt(mem, r, va, d) && i <= j <= |d|
    ensures BytesAt(mem, r, va + i, d[i..j])
  {
    var a, e := va + i, d[i..j];
    forall k: nat | k < |e| ensures ByteAt(mem, r, a, e, k) {
      assert ByteAt(mem, r, va, d, i + k);
      assert va + i + k == va + (i + k);
    }
  }

  /** Only user memory of r has changed. */
  ghost predicate UserOnly(m0: Memory, mem: Memory, role: Roles, r: nat) {
    && mem.Keys == m0.Keys
    && (forall q {:trigger NotUser(m0, mem, role, r, q)} :: q in role ==> NotUser(m0, mem, role, r, q))
    && (forall a: nat {:trigger SameEntry(m0, mem, r, a)} :: IsPage(a) ==> SameEntry(m0, mem, r, a))
  }
}
