/** The buffer cache's doubly linked list and its bookkeeping (kernel/bio.c), under
    bcache.lock. Buffers are numbered 0..NBUF-1 and the list head is number NBUF. */
module BufferCache {
  import opened Common
  import opened BufferSlots

  const HEAD := NBUF

  /** next and prev link the members of ring into a circle, in that order. */
  ghost predicate Linked(next: seq<nat>, prev: seq<nat>, ring: seq<nat>) {
    && |ring| > 0 && (forall k :: 0 <= k < |ring| ==> ring[k] < |next| && ring[k] < |prev|)
    && (forall k {:trigger next[ring[k]]} :: 0 <= k < |ring| - 1 ==> next[ring[k]] == ring[k + 1])
    && (forall k {:trigger prev[ring[k]]} :: 0 < k < |ring| ==> prev[ring[k]] == ring[k - 1])
    && next[ring[|ring| - 1]] == ring[0] && prev[ring[0]] == ring[|ring| - 1]
  }

  /** Every buffer is in the list exactly once. */
  ghost predicate Permutation(order: seq<nat>) {
    && |order| == NBUF && Distinct(order)
    && (forall k :: 0 <= k < NBUF ==> order[k] < NBUF)
    && (forall b :: 0 <= b < NBUF ==> b in order)
  }

  ghost function Without(order: seq<nat>, k: nat): seq<nat>
    requires k < |order|
  { order[..k] + order[k + 1..] }

  lemma Unlink(next: seq<nat>, prev: seq<nat>, ring: seq<nat>, k: nat)
    requires Linked(next, prev, ring) && Distinct(ring) && 0 < k < |ring|
    ensures var b := ring[k];
            prev[b] < |next| && next[b] < |prev|
                && Linked(next[prev[b] := next[b]], prev[next[b] := prev[b]], Without(ring, k))
  {
    AllDiffer(ring);
    var b, ring' := ring[k], Without(ring, k);
    assert prev[b] == ring[k - 1];
    assert next[b] == if k + 1 < |ring| then ring[k + 1] else ring[0];
    var next', prev' := next[prev[b] := next[b]], prev[next[b] := prev[b]];
    forall j | 0 <= j < |ring'| - 1 ensures next'[ring'[j]] == ring'[j + 1] {
      assert ring'[j] == if j < k then ring[j] else ring[j + 1];
      assert ring'[j + 1] == if j + 1 < k then ring[j + 1] else ring[j + 2];
    }
    forall j | 0 < j < |ring'| ensures prev'[ring'[j]] == ring'[j - 1] {
      assert ring'[j] == if j < k then ring[j] else ring[j + 1];
      assert ring'[j - 1] == if j - 1 < k then ring[j - 1] else ring[j];
    }
  }

  lemma LinkFront(next: seq<nat>, prev: seq<nat>, ring: seq<nat>, b: nat)
    requires Linked(next, prev, ring) && Distinct(ring) && b !in ring && b < |next| && b < |prev|
    ensures next[ring[0]] < |prev|
    ensures var h := ring[0];
            Linked(next[b := next[h]][h := b], prev[b := h][next[h] := b], [h, b] + ring[1..])
  {
    AllDiffer(ring);
    var h, ring' := ring[0], [ring[0], b] + ring[1..];
    assert next[h] == if |ring| > 1 then ring[1] else h;
    var next', prev' := next[b := next[h]][h := b], prev[b := h][next[h] := b];
    forall j | 0 <= j < |ring'| - 1 ensures next'[ring'[j]] == ring'[j + 1] {
      assert j > 1 ==> ring'[j] == ring[j - 1] && ring'[j + 1] == ring[j];
      assert j == 1 && |ring'| > 2 ==> ring'[2] == ring[1];
    }
    forall j | 0 < j < |ring'| ensures prev'[ring'[j]] == ring'[j - 1] {
      assert j > 1 ==> ring'[j] == ring[j - 1];
      assert j > 2 ==> ring'[j - 1] == ring[j - 2];
    }
    assert ring'[|ring'| - 1] == if |ring| > 1 then ring[|ring| - 1] else b;
  }

  lemma WithoutDistinct(order: seq<nat>, k: nat)
    requires Distinct(order) && k < |order|
    ensures Distinct(Without(order, k)) && order[k] !in Without(order, k)
  {
    AllDiffer(order);
    var rest := Without(order, k);
    forall j | 0 <= j < |rest| ensures rest[j] == order[if j < k then j else j + 1] {}
  }

  /** Moving a buffer to the front leaves a permutation. */
  lemma MovedIsPermutation(order: seq<nat>, k: nat)
    requires Permutation(order) && k < |order|
    ensures Permutation([order[k]] + Without(order, k))
  {
    var order' := [order[k]] + Without(order, k);
    WithoutDistinct(order, k);
    DistinctMore(Without(order, k), order[k]);
    forall b | 0 <= b < NBUF ensures b in order' {
      assert b in order;
      var j :| 0 <= j < |order| && order[j] == b;
      assert j < k ==> order'[j + 1] == b;
      assert j > k ==> order'[j] == b;
    }
  }

  /** Following the links walks the list. */
  lemma Follow(next: seq<nat>, prev: seq<nat>, order: seq<nat>, k: nat)
    requires Linked(next, prev, [HEAD] + order) && k < |order|
    ensures next[HEAD] == order[0] && prev[HEAD] == order[|order| - 1]
    ensures order[k] < |next| && next[order[k]] == if k + 1 < |order| then order[k + 1] else HEAD
    ensures order[k] < |prev| && prev[order[k]] == if k > 0 then order[k - 1] else HEAD
  {
    var ring := [HEAD] + order;
    assert ring[0] == HEAD && ring[1] == order[0] && ring[k] == if k > 0 then order[k - 1] else HEAD;
    assert ring[k + 1] == order[k] && ring[|order|] == order[|order| - 1];
    assert k + 1 < |order| ==> ring[k + 2] == order[k + 1];
  }

  lemma Position(order: seq<nat>, b: nat) returns (k: nat)
    requires Permutation(order) && b < NBUF
    ensures k < NBUF && order[k] == b
  {
    assert b in order;
    k :| 0 <= k < |order| && order[k] == b;
  }

  predicate Has(t: Slot, dev: nat, blockno: nat) { t.dev == dev && t.blockno == blockno }

  ghost predicate IsCached(slots: seq<Slot>, dev: nat, blockno: nat) {
    exists b :: 0 <= b < |slots| && Has(slots[b], dev, blockno)
  }

  /** No buffer before position k of the list holds the block. */
  ghost predicate NoneHas(slots: seq<Slot>, order: seq<nat>, k: nat, dev: nat, blockno: nat) {
    forall j :: 0 <= j < k && j < |order| && order[j] < |slots| ==> !Has(slots[order[j]], dev, blockno)
  }

  /** Every buffer from position k of the list on is referenced. */
  ghost predicate AllReferenced(slots: seq<Slot>, order: seq<nat>, k: nat) {
    forall j :: k <= j < |order| && order[j] < |slots| ==> slots[order[j]].refcnt != 0
  }

  lemma ScannedAll(slots: seq<Slot>, order: seq<nat>, dev: nat, blockno: nat)
    requires Permutation(order) && |slots| == NBUF && NoneHas(slots, order, NBUF, dev, blockno)
    ensures !IsCached(slots, dev, blockno)
  {
    forall b | 0 <= b < NBUF ensures !Has(slots[b], dev, blockno) {
      var k := Position(order, b);
    }
  }

  /** Scanning backwards, the first unreferenced buffer is the least recently moved one. */
  lemma OldestUnreferenced(slots: seq<Slot>, order: seq<nat>, moved: seq<nat>, clock: nat, k: nat)
    requires Permutation(order) && |slots| == |moved| == NBUF && Recent(order, moved, clock)
    requires k <= NBUF && AllReferenced(slots, order, k)
    ensures forall b :: 0 <= b < NBUF && slots[b].refcnt == 0 ==> k > 0 && moved[order[k - 1]] <= moved[b]
  {
    forall b | 0 <= b < NBUF && slots[b].refcnt == 0 ensures k > 0 && moved[order[k - 1]] <= moved[b] {
      var j := Position(order, b);
    }
  }

  /** The list is sorted by the time of the last move to the front, latest first. */
  ghost predicate Recent(order: seq<nat>, moved: seq<nat>, clock: nat)
    requires Permutation(order) && |moved| == NBUF
  {
    && (forall b :: 0 <= b < NBUF ==> moved[b] < clock)
    && (forall i, j :: 0 <= i < j < NBUF ==> moved[order[i]] > moved[order[j]])
  }

  lemma MovedIsRecent(order: seq<nat>, k: nat, moved: seq<nat>, clock: nat)
    requires Permutation(order) && k < NBUF && |moved| == NBUF && Recent(order, moved, clock)
    ensures Permutation([order[k]] + Without(order, k))
    ensures Recent([order[k]] + Without(order, k), moved[order[k] := clock], clock + 1)
  {
    MovedIsPermutation(order, k);
    var order', moved' := [order[k]] + Without(order, k), moved[order[k] := clock];
    forall i, j | 0 <= i < j < NBUF ensures moved'[order'[i]] > moved'[order'[j]] {
      var j0 := if j <= k then j - 1 else j;
      assert order'[j] == order[j0] && j0 != k;
      if i > 0 {
        var i0 := if i <= k then i - 1 else i;
        assert order'[i] == order[i0] && i0 < j0 && i0 != k;
      }
    }
  }

  /** b - 1 down to 0. */
  ghost function Descending(b: nat): seq<nat> { seq(b, k requires 0 <= k < b => b - 1 - k) }

  lemma DescendingIsRecent()
    ensures Permutation(Descending(NBUF)) && Recent(Descending(NBUF), seq(NBUF, k => k), NBUF)
  {
    forall b | 0 <= b < NBUF ensures b in Descending(NBUF) {
      assert Descending(NBUF)[NBUF - 1 - b] == b;
    }
  }

  /** The six assignments with which brelse moves buffer order[k] to the front. */
  lemma MoveLinks(next: seq<nat>, prev: seq<nat>, order: seq<nat>, k: nat)
    requires |next| == NBUF + 1 && |prev| == NBUF + 1 && Permutation(order) && k < NBUF
    requires Linked(next, prev, [HEAD] + order)
    ensures var b := order[k];
            && next[b] <= NBUF && prev[b] <= NBUF
            && var n1, p1 := next[prev[b] := next[b]], prev[next[b] := prev[b]];
            && n1[HEAD] <= NBUF
            && Linked(n1[b := n1[HEAD]][HEAD := b], p1[b := HEAD][n1[HEAD] := b], [HEAD, b] + Without(order, k))
  {
    var ring, b := [HEAD] + order, order[k];
    DistinctMore(order, HEAD);
    WithoutDistinct(order, k);
    DistinctMore(Without(order, k), HEAD);
    Unlink(next, prev, ring, k + 1);
    var ring' := Without(ring, k + 1);
    assert ring' == [HEAD] + Without(order, k);
    assert b !in ring';
    assert ring[k + 1] == b;
    LinkFront(next[prev[b] := next[b]], prev[next[b] := prev[b]], ring', b);
    assert ring'[1..] == Without(order, k);
  }

  /** One round of binit's loop. */
  lemma LinkNext(next: seq<nat>, prev: seq<nat>, b: nat)
    requires |next| == NBUF + 1 && |prev| == NBUF + 1 && b < NBUF && Linked(next, prev, [HEAD] + Descending(b))
    ensures next[HEAD] <= NBUF
    ensures Linked(next[b := next[HEAD]][HEAD := b], prev[b := HEAD][next[HEAD] := b], [HEAD] + Descending(b + 1))
  {
    var ring := [HEAD] + Descending(b);
    LinkFront(next, prev, ring, b);
    assert [HEAD, b] + ring[1..] == [HEAD] + Descending(b + 1);
  }

  // ----- references -----

  /** Who refers to each buffer: processes that have it from bget, and the log for a pin. */
  type Holders = seq<multiset<nat>>

  /** A call on the cache by p: bget that found or recycled buffer b, bpin, and brelse or bunpin
      of a reference that p has. */
  datatype Call = Get(p: nat, b: nat, dev: nat, blockno: nat) | Pin(p: nat, b: nat) | Drop(p: nat, b: nat)

  ghost predicate Does(s: seq<Slot>, h: Holders, c: Call, s': seq<Slot>, h': Holders) {
    && |s| == |s'| == |h| == NBUF && c.b < NBUF
    && match c
       case Get(p, b, dev, blockno) =>
         && s' == s[b := s'[b]] && h' == h[b := h[b] + multiset{p}]
         && if Has(s[b], dev, blockno) then s'[b] == Ref(s[b]) else s[b].refcnt == 0 && s'[b] == Recycle(dev, blockno)
       case Pin(p, b) => s' == s[b := Ref(s[b])] && h' == h[b := h[b] + multiset{p}]
       case Drop(p, b) => p in h[b] && s[b].refcnt > 0 && s' == s[b := Unref(s[b])] && h' == h[b := h[b] - multiset{p}]
  }

  /** refcnt counts the references. */
  ghost predicate Counted(s: seq<Slot>, h: Holders) {
    |s| == |h| == NBUF && forall b :: 0 <= b < NBUF ==> s[b].refcnt == |h[b]|
  }

  ghost predicate CallAt(ss: seq<seq<Slot>>, hs: seq<Holders>, cs: seq<Call>, k: nat) {
    k + 1 < |ss| && k + 1 < |hs| && k < |cs| && Does(ss[k], hs[k], cs[k], ss[k + 1], hs[k + 1])
  }

  ghost predicate Calls(ss: seq<seq<Slot>>, hs: seq<Holders>, cs: seq<Call>) {
    && |ss| == |hs| == |cs| + 1 && Counted(ss[0], hs[0])
    && forall k: nat {:trigger CallAt(ss, hs, cs, k)} :: k < |cs| ==> CallAt(ss, hs, cs, k)
  }

  lemma {:induction false} CallsCount(ss: seq<seq<Slot>>, hs: seq<Holders>, cs: seq<Call>, k: nat)
    requires Calls(ss, hs, cs) && k < |ss|
    ensures Counted(ss[k], hs[k])
  {
    if k > 0 {
      CallsCount(ss, hs, cs, k - 1);
      assert CallAt(ss, hs, cs, k - 1);
    }
  }

  /** From a bpin, or a bget, until the bunpin or brelse that drops the reference, the buffer is
      that of the same block, whatever others call. */
  lemma {:induction false} HolderKeepsBlock(ss: seq<seq<Slot>>, hs: seq<Holders>, cs: seq<Call>, i: nat, j: nat, b: nat,
      p: nat)
    requires Calls(ss, hs, cs) && i <= j < |ss| && b < NBUF
    requires forall k :: i <= k <= j ==> b < |hs[k]| && p in hs[k][b]
    ensures b < |ss[i]| && b < |ss[j]| && Has(ss[j][b], ss[i][b].dev, ss[i][b].blockno) && ss[j][b].refcnt > 0
  {
    CallsCount(ss, hs, cs, i);
    CallsCount(ss, hs, cs, j);
    if i < j {
      HolderKeepsBlock(ss, hs, cs, i, j - 1, b, p);
      assert CallAt(ss, hs, cs, j - 1);
    }
  }

  class Bcache {
    var slots: seq<Slot>
    var next: seq<nat>
    var prev: seq<nat>
    ghost var order: seq<nat>      // the list from head.next to head.prev
    ghost var moved: seq<nat>      // when each buffer was last moved to the front
    ghost var clock: nat

    ghost predicate Valid()
      reads this
    {
      && |slots| == NBUF && |next| == NBUF + 1 && |prev| == NBUF + 1 && |moved| == NBUF
      && Permutation(order) && Linked(next, prev, [HEAD] + order)
      && Recent(order, moved, clock)
    }

    /** binit: buffer NBUF-1 ends up at the front. */
    constructor ()
      ensures Valid() && fresh(this)
      ensures slots == seq(NBUF, b => Slot(false, 0, 0, 0)) && order == Descending(NBUF)
    {
      var nx: seq<nat>, pv: seq<nat> := seq(NBUF + 1, k => 0), seq(NBUF + 1, k => 0);
      nx, pv := nx[HEAD := HEAD], pv[HEAD := HEAD];
      var b := 0;
      while b < NBUF
        invariant b <= NBUF && |nx| == NBUF + 1 && |pv| == NBUF + 1
        invariant Linked(nx, pv, [HEAD] + Descending(b))
      {
        LinkNext(nx, pv, b);
        nx := nx[b := nx[HEAD]];
        pv := pv[b := HEAD];
        pv := pv[nx[HEAD] := b];
        nx := nx[HEAD := b];
        b := b + 1;
      }
      slots := seq(NBUF, k => Slot(false, 0, 0, 0));
      next, prev := nx, pv;
      order, moved, clock := Descending(NBUF), seq(NBUF, k => k), NBUF;
      new;
      DescendingIsRecent();
    }

    /** bget up to the release of bcache.lock. A cached block is found wherever it is;
        otherwise the least recently released buffer that nobody references is recycled;
        otherwise the kernel panics. */
    method Bget(dev: nat, blockno: nat) returns (r: Option<nat>)
      requires Valid()
      modifies this`slots
      ensures Valid() && (r.Some? ==> r.value < NBUF)
      ensures IsCached(old(slots), dev, blockno) ==>
                r.Some? && Has(old(slots)[r.value], dev, blockno)
                    && slots == old(slots)[r.value := Ref(old(slots)[r.value])]
      ensures !IsCached(old(slots), dev, blockno) && r.Some? ==>
                && old(slots)[r.value].refcnt == 0 && slots == old(slots)[r.value := Recycle(dev, blockno)]
                && forall b :: 0 <= b < NBUF && old(slots)[b].refcnt == 0 ==> moved[r.value] <= moved[b]
      ensures r.None? ==> slots == old(slots) && forall b :: 0 <= b < NBUF ==> slots[b].refcnt > 0
    {
      Follow(next, prev, order, 0);
      var b := next[HEAD];
      ghost var k := 0;
      while b != HEAD
        invariant 0 <= k <= NBUF && b == (if k < NBUF then order[k] else HEAD)
        invariant slots == old(slots) && NoneHas(slots, order, k, dev, blockno)
        decreases NBUF - k
      {
        if Has(slots[b], dev, blockno) {
          slots := slots[b := Ref(slots[b])];
          return Some(b);
        }
        Follow(next, prev, order, k);
        b := next[b];
        k := k + 1;
      }
      ScannedAll(slots, order, dev, blockno);
      b := prev[HEAD];
      k := NBUF;
      while b != HEAD
        invariant 0 <= k <= NBUF && b == (if k > 0 then order[k - 1] else HEAD)
        invariant slots == old(slots) && AllReferenced(slots, order, k)
        decreases k
      {
        if slots[b].refcnt == 0 {
          OldestUnreferenced(slots, order, moved, clock, k);
          slots := slots[b := Recycle(dev, blockno)];
          return Some(b);
        }
        Follow(next, prev, order, k - 1);
        b := prev[b];
        k := k - 1;
      }
      OldestUnreferenced(slots, order, moved, clock, 0);
      r := None;
    }

    /** brelse after releasesleep: the last reference moves the buffer to the front. */
    method Brelse(b: nat)
      requires Valid() && b < NBUF && slots[b].refcnt > 0
      modifies this
      ensures Valid() && slots == old(slots)[b := Unref(old(slots)[b])]
      ensures slots[b].refcnt > 0 ==> order == old(order) && moved == old(moved)
      ensures slots[b].refcnt == 0 ==> order[0] == b && moved == old(moved)[b := old(clock)]
      ensures slots[b].refcnt == 0 ==>
                exists k: nat :: k < |old(order)| && old(order)[k] == b && order == [b] + Without(old(order), k)
    {
      slots := slots[b := Unref(slots[b])];
      if slots[b].refcnt == 0 {
        ghost var k := Position(order, b);
        MoveLinks(next, prev, order, k);
        MovedIsRecent(order, k, moved, clock);
        prev := prev[next[b] := prev[b]];
        next := next[prev[b] := next[b]];
        next := next[b := next[HEAD]];
        prev := prev[b := HEAD];
        prev := prev[next[HEAD] := b];
        next := next[HEAD := b];
        order, moved, clock := [b] + Without(order, k), moved[b := clock], clock + 1;
        assert [HEAD] + order == [HEAD, b] + Without(old(order), k);
      }
    }

    method Bpin(b: nat)
      requires Valid() && b < NBUF
      modifies this`slots
      ensures Valid() && slots == old(slots)[b := Ref(old(slots)[b])]
    {
      slots := slots[b := Ref(slots[b])];
    }

    method Bunpin(b: nat)
      requires Valid() && b < NBUF && slots[b].refcnt > 0
      modifies this`slots
      ensures Valid() && slots == old(slots)[b := Unref(old(slots)[b])]
    {
      slots := slots[b := Unref(slots[b])];
    }
  }
}
