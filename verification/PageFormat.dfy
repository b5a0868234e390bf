/** Addresses and page-table entries of the Sv39 scheme (kernel/riscv.h). */
module PageFormat {
  const PGSIZE: nat := 4096
  const ENTRIES: nat := 512
  const MAXVA: nat := 0x40_0000_0000
  const U64: nat := 0x1_0000_0000_0000_0000
  const TRAMPOLINE: nat := MAXVA - PGSIZE
  const TRAPFRAME: nat := TRAMPOLINE - PGSIZE

  function PgRoundUp(a: nat): (r: nat)
    ensures a <= r < a + PGSIZE && r % PGSIZE == 0
  {
    (a + PGSIZE - 1) / PGSIZE * PGSIZE
  }

  function PgRoundDown(a: nat): (r: nat)
    ensures r <= a < r + PGSIZE && r % PGSIZE == 0
  {
    a / PGSIZE * PGSIZE
  }

  /** How many pages there are from lo to hi. */
  function PagesIn(lo: nat, hi: nat): nat { if hi <= lo then 0 else (hi - lo) / 4096 }

  lemma PagesAdd(lo: nat, mid: nat, hi: nat)
    requires lo % PGSIZE == 0 && mid % PGSIZE == 0 && lo <= mid <= hi
    ensures PagesIn(lo, mid) + PagesIn(mid, hi) == PagesIn(lo, hi)
  {
  }

  /** There is a page more up to sz than up to a. */
  lemma PagesReach(lo: nat, a: nat, sz: nat, j: nat)
    requires lo % PGSIZE == 0 && a == lo + 4096 * j && a < sz
    ensures PagesIn(lo, PgRoundUp(sz)) >= j + 1
  {
    assert PgRoundUp(sz) >= a + PGSIZE by { assert a % PGSIZE == 0; }
  }

  /** 512 to the power of level. */
  function Span(level: nat): nat
    requires level <= 2
  {
    if level == 0 then 1 else if level == 1 then 512 else 262144
  }

  /** The index of va in the page-table page at the given level. */
  function Px(level: nat, va: nat): (r: nat)
    requires level <= 2
    ensures r < ENTRIES
  {
    va / PGSIZE / Span(level) % ENTRIES
  }

  /** The three indices tell apart any two pages below 2^39, in particular below MAXVA. */
  lemma PxInjective(a: nat, b: nat)
    requires a % PGSIZE == 0 && b % PGSIZE == 0 && a < 2 * MAXVA && b < 2 * MAXVA
    requires Px(2, a) == Px(2, b) && Px(1, a) == Px(1, b) && Px(0, a) == Px(0, b)
    ensures a == b
  {
    Joined(a);
    Joined(b);
  }

  lemma Joined(a: nat)
    requires a % PGSIZE == 0 && a < 2 * MAXVA
    ensures a == ((Px(2, a) * 512 + Px(1, a)) * 512 + Px(0, a)) * PGSIZE
  {
    var v := a / PGSIZE;
    assert v < 512 * 512 * 512;
    assert v / 512 / 512 == v / 262144;
  }

  lemma Unjoined(i: nat, j: nat, k: nat)
    requires i < 256 && j < 512 && k < 512
    ensures var a := ((i * 512 + j) * 512 + k) * PGSIZE;
            a < MAXVA && a % PGSIZE == 0 && Px(2, a) == i && Px(1, a) == j && Px(0, a) == k
  {
    var v := (i * 512 + j) * 512 + k;
    assert v * PGSIZE / PGSIZE == v;
    assert v / 512 == i * 512 + j && v / 262144 == i;
  }

  lemma TopIndex(va: nat)
    requires va < MAXVA
    ensures Px(2, va) < 256
  {
  }

  /** The fields of a page-table entry: the flag bits that the kernel uses, the other five
      flag bits, and the physical address it points to. */
  datatype Pte = Pte(v: bool, r: bool, w: bool, x: bool, u: bool, rest: nat, pa: nat)

  const ZERO := Pte(false, false, false, false, false, 0, 0)

  /** PTE_FLAGS, without the valid bit. */
  datatype Perm = Perm(r: bool, w: bool, x: bool, u: bool, rest: nat)

  predicate GoodPte(e: Pte) {
    e.rest < 32 && e.pa % PGSIZE == 0
  }

  /** The number with the given low bits, from the lowest, above which is n. */
  function WithBits(bits: seq<bool>, n: nat): nat {
    if bits == [] then n else 2 * WithBits(bits[1..], n) + if bits[0] then 1 else 0
  }

  /** Bit k of w, and w shifted right by k. */
  function Shifted(w: nat, k: nat): nat {
    if k == 0 then w else Shifted(w / 2, k - 1)
  }

  predicate Bit(w: nat, k: nat) { Shifted(w, k) % 2 == 1 }

  lemma {:induction false} BitsRead(bits: seq<bool>, n: nat, k: nat)
    requires k < |bits|
    ensures Bit(WithBits(bits, n), k) == bits[k]
  {
    var rest := WithBits(bits[1..], n);
    assert WithBits(bits, n) / 2 == rest;
    if k > 0 { BitsRead(bits[1..], n, k - 1); }
  }

  lemma {:induction false} AboveBits(bits: seq<bool>, n: nat)
    ensures Shifted(WithBits(bits, n), |bits|) == n
  {
    if bits != [] {
      assert WithBits(bits, n) / 2 == WithBits(bits[1..], n);
      AboveBits(bits[1..], n);
    }
  }

  lemma {:induction false} BitsOf(w: nat, bits: seq<bool>)
    requires forall k :: 0 <= k < |bits| ==> bits[k] == Bit(w, k)
    ensures WithBits(bits, Shifted(w, |bits|)) == w
  {
    if bits != [] {
      assert forall k :: 0 <= k < |bits[1..]| ==> bits[1..][k] == bits[k + 1] == Bit(w, k + 1) == Bit(w / 2, k);
      BitsOf(w / 2, bits[1..]);
      assert bits[0] == Bit(w, 0);
    }
  }

  /** The 64-bit word of an entry: bits V, R, W, X and U from the lowest, five more flag bits,
      then the page number. */
  function Word(e: Pte): nat
    requires GoodPte(e)
  {
    WithBits([e.v, e.r, e.w, e.x, e.u], e.rest + e.pa / PGSIZE * 32)
  }

  /** The fields of a word, by shifts and masks. */
  function Fields(w: nat): Pte {
    Pte(Bit(w, 0), Bit(w, 1), Bit(w, 2), Bit(w, 3), Bit(w, 4), Shifted(w, 5) % 32, Shifted(w, 5) / 32 * PGSIZE)
  }

  lemma LowBits(rest: nat, q: nat)
    requires rest < 32
    ensures (rest + q * 32) / 32 == q && (rest + q * 32) % 32 == rest
  {
  }

  /** Storing an entry and reading it back gives the same fields: PA2PTE and PTE2PA are
      inverse on page addresses, and keep clear of the flags. */
  lemma PteRoundTrip(e: Pte)
    requires GoodPte(e)
    ensures Fields(Word(e)) == e
  {
    var bits, n := [e.v, e.r, e.w, e.x, e.u], e.rest + e.pa / PGSIZE * 32;
    LowBits(e.rest, e.pa / PGSIZE);
    AboveBits(bits, n);
    BitsRead(bits, n, 0);
    BitsRead(bits, n, 1);
    BitsRead(bits, n, 2);
    BitsRead(bits, n, 3);
    BitsRead(bits, n, 4);
  }

  lemma PageNumber(n: nat)
    ensures n % 32 + n / 32 * PGSIZE / PGSIZE * 32 == n && n / 32 * PGSIZE % PGSIZE == 0
  {
    var q := n / 32;
    assert q * PGSIZE / PGSIZE == q;
  }

  /** Every word is the word of its fields. */
  lemma WordRoundTrip(w: nat)
    ensures GoodPte(Fields(w)) && Word(Fields(w)) == w
  {
    PageNumber(Shifted(w, 5));
    BitsOf(w, [Bit(w, 0), Bit(w, 1), Bit(w, 2), Bit(w, 3), Bit(w, 4)]);
  }
}
