/** The user memory allocator (user/umalloc.c). Addresses and sizes are in units of one
    header; the static header base lies below all of the heap. */
module Umalloc {
  import opened Common

  const BASE: nat := 1
  const UNIT: nat := 16
  const MORE: nat := 4096

  /** The header after ring[k] in the circular list. */
  function Next(ring: seq<nat>, k: nat): nat
    requires k < |ring|
  {
    if k + 1 < |ring| then ring[k + 1] else ring[0]
  }

  ghost predicate Less(ring: seq<nat>, i: nat, j: nat) { i < |ring| && j < |ring| && ring[i] < ring[j] }

  ghost predicate LinkOk(ptr: map<nat, nat>, ring: seq<nat>, k: nat) {
    k < |ring| && ring[k] in ptr && ptr[ring[k]] == Next(ring, k)
  }

  /** The list from base is circular, in order of address, and links the headers in ring. */
  ghost predicate Ring(ptr: map<nat, nat>, ring: seq<nat>) {
    && |ring| > 0 && ring[0] == BASE
    && (forall i: nat, j: nat {:trigger Less(ring, i, j)} :: i < j < |ring| ==> Less(ring, i, j))
    && (forall k: nat {:trigger LinkOk(ptr, ring, k)} :: k < |ring| ==> LinkOk(ptr, ring, k))
  }

  /** Unit u of the heap belongs to the block that starts at owner[u]. */
  type Owner = map<nat, nat>

  ghost predicate UnitOk(size: map<nat, nat>, owner: Owner, blocks: set<nat>, u: nat) {
    u in owner && owner[u] in blocks && owner[u] in size && owner[u] <= u < owner[u] + size[owner[u]]
  }

  ghost predicate Has(owner: Owner, b: nat, u: nat) { u in owner && owner[u] == b }

  ghost predicate BlockOk(size: map<nat, nat>, owner: Owner, b: nat) {
    && BASE < b && b in size && size[b] > 0
    && forall u: nat {:trigger Has(owner, b, u)} :: b <= u < b + size[b] ==> Has(owner, b, u)
  }

  /** The blocks split the heap: every unit is in exactly one of them. */
  ghost predicate Partition(size: map<nat, nat>, owner: Owner, blocks: set<nat>) {
    && (forall b {:trigger BlockOk(size, owner, b)} :: b in blocks ==> BlockOk(size, owner, b))
    && (forall u {:trigger UnitOk(size, owner, blocks, u)} :: u in owner ==> UnitOk(size, owner, blocks, u))
  }

  /** The blocks on the free list. */
  ghost function FreeBlocks(ring: seq<nat>): set<nat> { set k: nat | 0 < k < |ring| :: ring[k] }

  /** No free block ends where the next one starts. */
  ghost predicate Apart(size: map<nat, nat>, ring: seq<nat>, k: nat) {
    0 < k && k + 1 < |ring| && ring[k] in size && ring[k] + size[ring[k]] < ring[k + 1]
  }

  ghost predicate Coalesced(size: map<nat, nat>, ring: seq<nat>) {
    forall k: nat {:trigger Apart(size, ring, k)} :: 0 < k && k + 1 < |ring| ==> Apart(size, ring, k)
  }

  /** The position in the list after which address b belongs. */
  ghost predicate Gap(ring: seq<nat>, t: nat, b: nat) {
    t < |ring| && ring[t] < b && (t + 1 < |ring| ==> b < ring[t + 1])
  }

  /** There is such a position, for a block that is not on the list. */
  lemma {:induction false} FindGap(ptr: map<nat, nat>, ring: seq<nat>, b: nat, k: nat) returns (t: nat)
    requires Ring(ptr, ring) && k < |ring| && ring[k] < b && b !in ring
    ensures Gap(ring, t, b)
    decreases |ring| - k
  {
    if k + 1 < |ring| && ring[k + 1] < b {
      t := FindGap(ptr, ring, b, k + 1);
    } else {
      t := k;
    }
  }

  // ----- joining and splitting blocks -----

  ghost function Reown(owner: Owner, lo: nat, hi: nat, b: nat): (r: Owner)
    ensures r.Keys == owner.Keys
  {
    map u | u in owner :: if lo <= u < hi then b else owner[u]
  }

  /** Block y, where x ends, becomes part of x. */
  lemma JoinKeeps(size: map<nat, nat>, owner: Owner, blocks: set<nat>, x: nat, y: nat)
    requires Partition(size, owner, blocks) && x in blocks && y in blocks && x in size && y in size && x + size[x] == y
    ensures Partition(size[x := size[x] + size[y]], Reown(owner, y, y + size[y], x), blocks - {y})
  {
    var size', owner', blocks' := size[x := size[x] + size[y]], Reown(owner, y, y + size[y], x), blocks - {y};
    assert BlockOk(size, owner, x) && BlockOk(size, owner, y);
    forall b | b in blocks' ensures BlockOk(size', owner', b) {
      assert BlockOk(size, owner, b);
      forall u: nat | b <= u < b + size'[b] ensures Has(owner', b, u) {
        if y <= u < y + size[y] { assert Has(owner, y, u); }
        if u < b + size[b] { assert Has(owner, b, u); }
      }
    }
    forall u | u in owner' ensures UnitOk(size', owner', blocks', u) {
      assert UnitOk(size, owner, blocks, u);
      if owner[u] == y { assert Has(owner', x, u); }
    }
  }

  /** The last n units of x become a block of their own. */
  lemma SplitKeeps(size: map<nat, nat>, owner: Owner, blocks: set<nat>, x: nat, n: nat)
    requires Partition(size, owner, blocks) && x in blocks && x in size && 0 < n < size[x]
    ensures var y := x + size[x] - n;
            y !in blocks && Partition(size[x := size[x] - n][y := n], Reown(owner, y, y + n, y), blocks + {y})
  {
    var y := x + size[x] - n;
    var size', owner', blocks' := size[x := size[x] - n][y := n], Reown(owner, y, y + n, y), blocks + {y};
    assert BlockOk(size, owner, x) && Has(owner, x, y);
    assert y in blocks ==> BlockOk(size, owner, y) && Has(owner, y, y);
    forall b | b in blocks' ensures BlockOk(size', owner', b) {
      if b != y { assert BlockOk(size, owner, b); }
      forall u: nat | b <= u < b + size'[b] ensures Has(owner', b, u) {
        assert Has(owner, if b == y then x else b, u);
        if y <= u < y + n { assert Has(owner, x, u); }
      }
    }
    forall u | u in owner' ensures UnitOk(size', owner', blocks', u) {
      assert UnitOk(size, owner, blocks, u);
      if y <= u < y + n { assert Has(owner, x, u); }
    }
  }

  /** The n units from lo on belong to b. */
  ghost function Fresh(b: nat, lo: nat, n: nat): (r: Owner)
    ensures forall u :: u in r <==> lo <= u < lo + n
    ensures forall u :: u in r ==> r[u] == b
  {
    if n == 0 then map[] else Fresh(b, lo, n - 1)[lo + n - 1 := b]
  }

  /** A block from sbrk joins the heap. */
  lemma GrowKeeps(size: map<nat, nat>, owner: Owner, blocks: set<nat>, b: nat, n: nat)
    requires Partition(size, owner, blocks) && BASE < b && n > 0 && forall u :: u in owner ==> u < b
    ensures b !in blocks && Partition(size[b := n], owner + Fresh(b, b, n), blocks + {b})
  {
    var size', owner', blocks' := size[b := n], owner + Fresh(b, b, n), blocks + {b};
    assert b in blocks ==> BlockOk(size, owner, b) && Has(owner, b, b);
    forall c | c in blocks' ensures BlockOk(size', owner', c) {
      if c != b { assert BlockOk(size, owner, c); }
      forall u: nat | c <= u < c + size'[c] ensures Has(owner', c, u) {
        if c != b { assert Has(owner, c, u); }
      }
    }
    forall u | u in owner' ensures UnitOk(size', owner', blocks', u) {
      if u in owner { assert UnitOk(size, owner, blocks, u); }
    }
  }

  // ----- the list -----

  /** The list after b was put after position t, joined with its neighbours as told. */
  ghost function Inserted(ring: seq<nat>, t: nat, b: nat, joinNext: bool, joinPrev: bool): seq<nat>
    requires t < |ring| && (joinNext ==> t + 1 < |ring|)
  {
    ring[..t + 1] + (if joinPrev then [] else [b]) + ring[if joinNext then t + 2 else t + 1..]
  }

  lemma InsertedOrder(ptr: map<nat, nat>, ring: seq<nat>, t: nat, b: nat, joinNext: bool, joinPrev: bool, i: nat,
      j: nat)
    requires Ring(ptr, ring) && Gap(ring, t, b) && (joinNext ==> t + 1 < |ring|) && (joinPrev ==> t > 0)
    requires i < j < |Inserted(ring, t, b, joinNext, joinPrev)|
    ensures Less(Inserted(ring, t, b, joinNext, joinPrev), i, j)
  {
    var i', j' := Origin(ring, t, joinNext, joinPrev, i), Origin(ring, t, joinNext, joinPrev, j);
    assert i' < j' && i' < |ring| && j' < |ring| ==> Less(ring, i', j');
    assert i' < t ==> Less(ring, i', t);
    assert t + 1 < j' < |ring| ==> Less(ring, t + 1, j');
  }

  /** Where the header at position i came from. */
  ghost function Origin(ring: seq<nat>, t: nat, joinNext: bool, joinPrev: bool, i: nat): nat {
    if i <= t then i else i + (if joinPrev then 1 else 0) - 1 + (if joinNext then 1 else 0)
  }

  /** What free does to the links. */
  lemma InsertedLinks(ptr: map<nat, nat>, ptr': map<nat, nat>, ring: seq<nat>, t: nat, b: nat, joinNext: bool,
      joinPrev: bool, k: nat)
    requires Ring(ptr, ring) && Gap(ring, t, b) && (joinNext ==> t + 1 < |ring|) && (joinPrev ==> t > 0)
    requires ring[t] in ptr && (joinNext ==> ring[t + 1] in ptr)
    requires var x := if joinNext then ptr[ring[t + 1]] else ptr[ring[t]];
             ptr' == if joinPrev then ptr[b := x][ring[t] := x] else ptr[b := x][ring[t] := b]
    requires k < |Inserted(ring, t, b, joinNext, joinPrev)|
    ensures LinkOk(ptr', Inserted(ring, t, b, joinNext, joinPrev), k)
  {
    var k' := Origin(ring, t, joinNext, joinPrev, k);
    assert LinkOk(ptr, ring, t) && (joinNext ==> LinkOk(ptr, ring, t + 1));
    assert k' < |ring| ==> LinkOk(ptr, ring, k');
    assert k' < t ==> Less(ring, k', t);
    assert t < k' < |ring| ==> Less(ring, t, k');
    assert t + 1 < k' < |ring| ==> Less(ring, t + 1, k');
  }

  lemma InsertedRing(ptr: map<nat, nat>, ptr': map<nat, nat>, ring: seq<nat>, t: nat, b: nat, joinNext: bool,
      joinPrev: bool)
    requires Ring(ptr, ring) && Gap(ring, t, b) && (joinNext ==> t + 1 < |ring|) && (joinPrev ==> t > 0)
    requires ring[t] in ptr && (joinNext ==> ring[t + 1] in ptr)
    requires var x := if joinNext then ptr[ring[t + 1]] else ptr[ring[t]];
             ptr' == if joinPrev then ptr[b := x][ring[t] := x] else ptr[b := x][ring[t] := b]
    ensures Ring(ptr', Inserted(ring, t, b, joinNext, joinPrev))
  {
    var ring' := Inserted(ring, t, b, joinNext, joinPrev);
    forall i: nat, j: nat | i < j < |ring'| ensures Less(ring', i, j) {
      InsertedOrder(ptr, ring, t, b, joinNext, joinPrev, i, j);
    }
    forall k: nat | k < |ring'| ensures LinkOk(ptr', ring', k) {
      InsertedLinks(ptr, ptr', ring, t, b, joinNext, joinPrev, k);
    }
  }

  lemma NotInGap(ptr: map<nat, nat>, ring: seq<nat>, t: nat, b: nat, k: nat)
    requires Ring(ptr, ring) && Gap(ring, t, b) && k < |ring|
    ensures ring[k] != b
  {
    assert k < t ==> Less(ring, k, t);
    assert t + 1 < k ==> Less(ring, t + 1, k);
  }

  /** The free blocks after free. */
  lemma InsertedBlocks(ptr: map<nat, nat>, ring: seq<nat>, t: nat, b: nat, joinNext: bool, joinPrev: bool)
    requires Ring(ptr, ring) && Gap(ring, t, b) && (joinNext ==> t + 1 < |ring|) && (joinPrev ==> t > 0)
    ensures FreeBlocks(Inserted(ring, t, b, joinNext, joinPrev))
            == FreeBlocks(ring) - (if joinNext then {ring[t + 1]} else {}) + (if joinPrev then {} else {b})
  {
    var ring' := Inserted(ring, t, b, joinNext, joinPrev);
    forall x | x in FreeBlocks(ring) && !(joinNext && x == ring[t + 1]) ensures x in FreeBlocks(ring') {
      var k: nat :| 0 < k < |ring| && ring[k] == x;
      var k' := if k <= t then k else k + 1 - (if joinPrev then 1 else 0) - (if joinNext then 1 else 0);
      assert ring'[k'] == x;
    }
    forall x | x in FreeBlocks(ring') ensures x == b || (x in FreeBlocks(ring) && !(joinNext && x == ring[t + 1])) {
      var k: nat :| 0 < k < |ring'| && ring'[k] == x;
      var k' := Origin(ring, t, joinNext, joinPrev, k);
      if k == t + 1 && !joinPrev {
        assert x == b;
      } else {
        assert ring[k'] == x;
        assert k' < t + 1 < |ring| ==> Less(ring, k', t + 1);
        assert t + 1 < k' ==> Less(ring, t + 1, k');
      }
    }
    if !joinPrev { assert ring'[t + 1] == b; }
    if joinPrev {
      forall x | x in FreeBlocks(ring') ensures x != b {
        var k: nat :| 0 < k < |ring'| && ring'[k] == x;
        assert ring[Origin(ring, t, joinNext, joinPrev, k)] == x;
        NotInGap(ptr, ring, t, b, Origin(ring, t, joinNext, joinPrev, k));
      }
    }
  }

  // ----- the heap -----

  /** The free list and the live blocks split the units that sbrk has given, all below brk. */
  ghost predicate Heap(ptr: map<nat, nat>, size: map<nat, nat>, ring: seq<nat>, owner: Owner, live: set<nat>,
      brk: nat) {
    && Ring(ptr, ring) && Coalesced(size, ring) && BASE in size && size[BASE] == 0
    && live !! FreeBlocks(ring) && Partition(size, owner, live + FreeBlocks(ring))
    && forall u {:trigger u in owner} :: u in owner ==> u < brk
  }

  /** Blocks do not overlap. */
  lemma Below(size: map<nat, nat>, owner: Owner, blocks: set<nat>, x: nat, y: nat)
    requires Partition(size, owner, blocks) && x in blocks && y in blocks && x < y
    ensures x in size && y in size && x + size[x] <= y
  {
    assert BlockOk(size, owner, x) && BlockOk(size, owner, y) && Has(owner, y, y);
    assert y < x + size[x] ==> Has(owner, x, y);
  }

  lemma FreeBlock(ring: seq<nat>, k: nat)
    requires 0 < k < |ring|
    ensures ring[k] in FreeBlocks(ring)
  {
  }

  /** The sizes after free, with the block joined to its neighbours as told. */
  ghost function FreedSize(size: map<nat, nat>, ring: seq<nat>, t: nat, b: nat, joinNext: bool,
      joinPrev: bool): map<nat, nat>
    requires t < |ring| && b in size && ring[t] in size && (joinNext ==> t + 1 < |ring| && ring[t + 1] in size)
  {
    var size1 := if joinNext then size[b := size[b] + size[ring[t + 1]]] else size;
    if joinPrev then size1[ring[t] := size1[ring[t]] + size1[b]] else size1
  }

  ghost function FreedOwner(size: map<nat, nat>, owner: Owner, ring: seq<nat>, t: nat, b: nat, joinNext: bool,
      joinPrev: bool): (r: Owner)
    requires t < |ring| && b in size && (joinNext ==> t + 1 < |ring| && ring[t + 1] in size)
    ensures r.Keys == owner.Keys
  {
    var owner1 := if joinNext then Reown(owner, ring[t + 1], ring[t + 1] + size[ring[t + 1]], b) else owner;
    var end := if joinNext then b + size[b] + size[ring[t + 1]] else b + size[b];
    if joinPrev then Reown(owner1, b, end, ring[t]) else owner1
  }

  /** The block b is to be freed at position t, and joined exactly where it touches. */
  ghost predicate Freeing(ptr: map<nat, nat>, size: map<nat, nat>, ring: seq<nat>, owner: Owner, live: set<nat>,
      brk: nat, t: nat, b: nat, joinNext: bool, joinPrev: bool) {
    && Heap(ptr, size, ring, owner, live, brk) && b in live && Gap(ring, t, b) && b in size && ring[t] in size
    && (joinNext <==> t + 1 < |ring| && b + size[b] == ring[t + 1]) && (joinPrev <==> ring[t] + size[ring[t]] == b)
    && (t + 1 < |ring| ==> ring[t + 1] in size)
  }

  lemma FreeingAtBase(ptr: map<nat, nat>, size: map<nat, nat>, ring: seq<nat>, owner: Owner, live: set<nat>, brk: nat,
      t: nat, b: nat, joinNext: bool, joinPrev: bool)
    requires Freeing(ptr, size, ring, owner, live, brk, t, b, joinNext, joinPrev)
    ensures joinPrev ==> t > 0
  {
    assert BlockOk(size, owner, b);
  }

  /** The headers before and after b, and whether b touches their blocks. */
  lemma Neighbours(ptr: map<nat, nat>, size: map<nat, nat>, ring: seq<nat>, owner: Owner, live: set<nat>, brk: nat,
      t: nat, b: nat) returns (joinNext: bool, joinPrev: bool)
    requires Heap(ptr, size, ring, owner, live, brk) && b in live && Gap(ring, t, b)
    ensures Freeing(ptr, size, ring, owner, live, brk, t, b, joinNext, joinPrev) && (joinPrev ==> t > 0)
    ensures ring[t] in ptr && ptr[ring[t]] in ptr && ptr[ring[t]] in size && ring[t] != b && ptr[ring[t]] != b
    ensures ring[t] >= BASE && (joinNext <==> b + size[b] == ptr[ring[t]])
    ensures joinNext ==> ptr[ring[t]] == ring[t + 1] && ring[t + 1] != ring[t]
  {
    InList(ptr, size, ring, owner, live, brk, t);
    InList(ptr, size, ring, owner, live, brk, if t + 1 < |ring| then t + 1 else 0);
    assert BlockOk(size, owner, b) && LinkOk(ptr, ring, t);
    assert t + 1 < |ring| ==> Less(ring, t, t + 1);
    joinNext, joinPrev := t + 1 < |ring| && b + size[b] == ring[t + 1], ring[t] + size[ring[t]] == b;
  }

  /** The blocks once b is joined with the free block after it, if they touch. */
  lemma NextJoined(ptr: map<nat, nat>, size: map<nat, nat>, ring: seq<nat>, owner: Owner, live: set<nat>, brk: nat,
      t: nat, b: nat, joinNext: bool, joinPrev: bool)
    requires Freeing(ptr, size, ring, owner, live, brk, t, b, joinNext, joinPrev)
    ensures Partition(FreedSize(size, ring, t, b, joinNext, false),
                      FreedOwner(size, owner, ring, t, b, joinNext, false),
                      live + FreeBlocks(ring) - (if joinNext then {ring[t + 1]} else {}))
  {
    if joinNext {
      FreeBlock(ring, t + 1);
      JoinKeeps(size, owner, live + FreeBlocks(ring), b, ring[t + 1]);
    } else {
      assert live + FreeBlocks(ring) - {} == live + FreeBlocks(ring);
    }
  }

  lemma FreedBlocks(ptr: map<nat, nat>, ring: seq<nat>, live: set<nat>, t: nat, b: nat, joinNext: bool, joinPrev: bool)
    requires Ring(ptr, ring) && Gap(ring, t, b) && (joinNext ==> t + 1 < |ring|) && (joinPrev ==> t > 0)
    requires live !! FreeBlocks(ring) && b in live
    ensures live - {b} + FreeBlocks(Inserted(ring, t, b, joinNext, joinPrev))
            == live + FreeBlocks(ring) - (if joinNext then {ring[t + 1]} else {}) - (if joinPrev then {b} else {})
  {
    InsertedBlocks(ptr, ring, t, b, joinNext, joinPrev);
    if joinNext { FreeBlock(ring, t + 1); }
  }

  lemma FreeKeepsPartition(ptr: map<nat, nat>, size: map<nat, nat>, ring: seq<nat>, owner: Owner, live: set<nat>,
      brk: nat, t: nat, b: nat, joinNext: bool, joinPrev: bool)
    requires Freeing(ptr, size, ring, owner, live, brk, t, b, joinNext, joinPrev)
    ensures Partition(FreedSize(size, ring, t, b, joinNext, joinPrev),
                      FreedOwner(size, owner, ring, t, b, joinNext, joinPrev),
                      live - {b} + FreeBlocks(Inserted(ring, t, b, joinNext, joinPrev)))
  {
    FreeingAtBase(ptr, size, ring, owner, live, brk, t, b, joinNext, joinPrev);
    NextJoined(ptr, size, ring, owner, live, brk, t, b, joinNext, joinPrev);
    FreedBlocks(ptr, ring, live, t, b, joinNext, joinPrev);
    var blocks1 := live + FreeBlocks(ring) - (if joinNext then {ring[t + 1]} else {});
    if joinPrev {
      FreeBlock(ring, t);
      assert Less(ring, t, t + 1) || t + 1 == |ring|;
      JoinKeeps(FreedSize(size, ring, t, b, joinNext, false), FreedOwner(size, owner, ring, t, b, joinNext, false),
          blocks1, ring[t], b);
    } else {
      assert blocks1 - {} == blocks1;
    }
  }

  lemma FreeKeepsApart(ptr: map<nat, nat>, size: map<nat, nat>, ring: seq<nat>, owner: Owner, live: set<nat>, brk: nat,
      t: nat, b: nat, joinNext: bool, joinPrev: bool, k: nat)
    requires Freeing(ptr, size, ring, owner, live, brk, t, b, joinNext, joinPrev)
    requires 0 < k && k + 1 < |Inserted(ring, t, b, joinNext, joinPrev)|
    ensures Apart(FreedSize(size, ring, t, b, joinNext, joinPrev), Inserted(ring, t, b, joinNext, joinPrev), k)
  {
    FreeingAtBase(ptr, size, ring, owner, live, brk, t, b, joinNext, joinPrev);
    var blocks := live + FreeBlocks(ring);
    var k' := Origin(ring, t, joinNext, joinPrev, k);
    if 0 < t {
      FreeBlock(ring, t);
      Below(size, owner, blocks, ring[t], b);
      if t + 1 < |ring| { assert Apart(size, ring, t); }
    }
    if t + 1 < |ring| {
      FreeBlock(ring, t + 1);
      Below(size, owner, blocks, b, ring[t + 1]);
      if t + 2 < |ring| { assert Apart(size, ring, t + 1); }
    }
    if 0 < k' && k' + 1 < |ring| { assert Apart(size, ring, k'); }
    assert k' < t ==> Less(ring, k', t);
    assert t < k' < |ring| ==> Less(ring, t, k');
    assert t + 1 < k' < |ring| ==> Less(ring, t + 1, k');
  }

  /** free keeps the heap, and the other live blocks as they are. */
  lemma FreeKeeps(ptr: map<nat, nat>, ptr': map<nat, nat>, size: map<nat, nat>, ring: seq<nat>, owner: Owner,
      live: set<nat>, brk: nat, t: nat, b: nat, joinNext: bool, joinPrev: bool)
    requires Freeing(ptr, size, ring, owner, live, brk, t, b, joinNext, joinPrev)
    requires ring[t] in ptr && (joinNext ==> ring[t + 1] in ptr)
    requires var x := if joinNext then ptr[ring[t + 1]] else ptr[ring[t]];
             ptr' == if joinPrev then ptr[b := x][ring[t] := x] else ptr[b := x][ring[t] := b]
    ensures Heap(ptr', FreedSize(size, ring, t, b, joinNext, joinPrev), Inserted(ring, t, b, joinNext, joinPrev),
                 FreedOwner(size, owner, ring, t, b, joinNext, joinPrev), live - {b}, brk)
    ensures forall x :: x in live && x != b ==>
        x in size && FreedSize(size, ring, t, b, joinNext, joinPrev)[x] == size[x]
  {
    FreeingAtBase(ptr, size, ring, owner, live, brk, t, b, joinNext, joinPrev);
    var ring', size' := Inserted(ring, t, b, joinNext, joinPrev), FreedSize(size, ring, t, b, joinNext, joinPrev);
    InsertedRing(ptr, ptr', ring, t, b, joinNext, joinPrev);
    FreeKeepsPartition(ptr, size, ring, owner, live, brk, t, b, joinNext, joinPrev);
    InsertedBlocks(ptr, ring, t, b, joinNext, joinPrev);
    forall k: nat | 0 < k && k + 1 < |ring'| ensures Apart(size', ring', k) {
      FreeKeepsApart(ptr, size, ring, owner, live, brk, t, b, joinNext, joinPrev, k);
    }
    if t > 0 { FreeBlock(ring, t); }
    assert BlockOk(size, owner, b);
    forall x | x in live && x != b ensures x in size && size'[x] == size[x] {
      assert BlockOk(size, owner, x);
    }
  }

  class Allocator {
    var ptr: map<nat, nat>
    var size: map<nat, nat>
    var freep: nat
    ghost var ring: seq<nat>
    ghost var owner: Owner
    ghost var live: set<nat>
    ghost var brk: nat

    /** Before the first call freep is 0 and there is no heap. */
    ghost predicate Valid()
      reads this
    {
      if freep == 0 then owner == map[] && live == {} else Heap(ptr, size, ring, owner, live, brk) && freep in ring
    }

    constructor ()
      ensures Valid() && live == {} && owner == map[]
    {
      ptr, size, freep := map[], map[], 0;
      ring, owner, live, brk := [], map[], {}, 2;
    }

    /** The search of free, from freep around the list, for the place of bp. */
    method Search(bp: nat) returns (p: nat, ghost t: nat)
      requires Valid() && freep != 0 && BASE < bp && bp !in ring
      ensures Gap(ring, t, bp) && p == ring[t]
    {
      t := FindGap(ptr, ring, bp, 0);
      p := freep;
      ghost var k: nat :| k < |ring| && ring[k] == freep;
      assert LinkOk(ptr, ring, k);
      while !(bp > p && bp < ptr[p])
        invariant k < |ring| && p == ring[k] && p in ptr && LinkOk(ptr, ring, k)
        decreases if k <= t then t - k else |ring| - k + t
      {
        AtGap(ptr, ring, t, bp, k);
        if p >= ptr[p] && (bp > p || bp < ptr[p]) {
          break;
        }
        p := ptr[p];
        k := if k + 1 < |ring| then k + 1 else 0;
        assert LinkOk(ptr, ring, k);
      }
      AtGap(ptr, ring, t, bp, k);
    }

    /** free: the block goes back, joined with the free blocks that it touches. */
    method Free(ap: nat) returns (ghost k: nat)
      requires Valid() && ap > 0 && ap - 1 in live
      modifies this
      ensures Valid() && freep != 0 && live == old(live) - {ap - 1} && owner.Keys == old(owner).Keys && brk == old(brk)
      ensures SameLive(old(size), size, live)
      ensures ap - 1 in old(size) && 0 < k < |ring| && ring[k] in size && size[ring[k]] >= old(size)[ap - 1]
    {
      var bp := ap - 1;
      assert BlockOk(size, owner, bp);
      NotListed(ring, live, bp);
      var p;
      ghost var t;
      p, t := Search(bp);
      k := Insert(bp, p, t);
    }

    /** free's changes to the headers of bp, of p before it and of the one after p. */
    method Link(bp: nat, p: nat, ghost joinNext: bool, ghost joinPrev: bool)
      requires bp in size && p in ptr && p in size && ptr[p] in ptr && ptr[p] in size && p != bp && ptr[p] != bp
          && (joinNext ==> ptr[p] != p)
      requires (joinNext <==> bp + size[bp] == ptr[p]) && (joinPrev <==> p + size[p] == bp)
      modifies this`ptr, this`size, this`freep
      ensures freep == p
      ensures var x := if joinNext then old(ptr)[old(ptr)[p]] else old(ptr)[p];
              ptr == if joinPrev then old(ptr)[bp := x][p := x] else old(ptr)[bp := x][p := bp]
      ensures var size1 := if joinNext then old(size)[bp := old(size)[bp] + old(size)[old(ptr)[p]]] else old(size);
              size == if joinPrev then size1[p := size1[p] + size1[bp]] else size1
    {
      if bp + size[bp] == ptr[p] {
        size := size[bp := size[bp] + size[ptr[p]]];
        ptr := ptr[bp := ptr[ptr[p]]];
      } else {
        ptr := ptr[bp := ptr[p]];
      }
      if p + size[p] == bp {
        size := size[p := size[p] + size[bp]];
        ptr := ptr[p := ptr[bp]];
      } else {
        ptr := ptr[p := bp];
      }
      freep := p;
    }

    /** The rest of free, once p is the header before bp. */
    method Insert(bp: nat, p: nat, ghost t: nat) returns (ghost k: nat)
      requires Valid() && freep != 0 && bp in live && Gap(ring, t, bp) && p == ring[t]
      modifies this
      ensures Valid() && freep != 0 && live == old(live) - {bp} && owner.Keys == old(owner).Keys && brk == old(brk)
      ensures SameLive(old(size), size, live)
      ensures bp in old(size) && 0 < k < |ring| && ring[k] in size && size[ring[k]] >= old(size)[bp]
    {
      ghost var joinNext, joinPrev := Neighbours(ptr, size, ring, owner, live, brk, t, bp);
      Link(bp, p, joinNext, joinPrev);
      FreeKeeps(old(ptr), ptr, old(size), old(ring), old(owner), old(live), old(brk), t, bp, joinNext, joinPrev);
      ring := Inserted(old(ring), t, bp, joinNext, joinPrev);
      owner := FreedOwner(old(size), old(owner), old(ring), t, bp, joinNext, joinPrev);
      live := live - {bp};
      assert size == FreedSize(old(size), old(ring), t, bp, joinNext, joinPrev);
      assert ring[t] == p;
      k := if joinPrev then t else t + 1;
    }

    /** morecore: at least nu units from sbrk, which gives fresh memory above all of the heap
        or fails, go to the free list. Returns the new freep, or 0. */
    method Morecore(nu: nat, grant: Option<nat>) returns (r: nat, ghost k: nat)
      requires Valid() && freep != 0 && nu > 0 && (grant.Some? ==> grant.value >= brk && grant.value > BASE)
      modifies this
      ensures Valid() && freep != 0 && live == old(live) && SameLive(old(size), size, live)
      ensures if grant.None? then r == 0 && unchanged(this) else r == freep
      ensures grant.Some? ==> brk == grant.value + Request(nu) && Granted(old(owner), owner, grant.value, Request(nu))
      ensures grant.Some? ==> 0 < k < |ring| && ring[k] in size && size[ring[k]] >= nu
    {
      if grant.None? {
        LiveSizes(ptr, size, ring, owner, live, brk);
        return 0, 0;
      }
      var hp := grant.value;
      var n := Request(nu);
      GrowKeeps(size, owner, live + FreeBlocks(ring), hp, n);
      size := size[hp := n];
      owner := owner + Fresh(hp, hp, n);
      live := live + {hp};
      brk := hp + n;
      assert live + FreeBlocks(ring) == old(live) + FreeBlocks(ring) + {hp};
      GrownHeap(ptr, old(size), size, ring, old(owner), owner, old(live), hp, n, old(brk));
      k := Free(hp + 1);
      LiveSizes(old(ptr), old(size), old(ring), old(owner), old(live), old(brk));
      r := freep;
    }

    /** The first call of malloc makes the list with base alone. */
    method Init()
      requires Valid() && freep == 0
      modifies this
      ensures Valid() && freep != 0 && live == old(live) && owner == old(owner) && brk == old(brk)
    {
      ptr := ptr[BASE := BASE];
      freep := BASE;
      size := size[BASE := 0];
      ring := [BASE];
      assert LinkOk(ptr, ring, 0);
    }

    /** The block at p, after prevp on the list, has room: n units of it are taken. */
    method Take(prevp: nat, p0: nat, n: nat, ghost k: nat) returns (p: nat)
      requires Valid() && freep != 0 && 0 < k < |ring| && p0 == ring[k] && prevp == ring[k - 1] && p0 in size
          && size[p0] >= n > 0
      modifies this
      ensures Valid() && freep != 0 && p !in old(live) && live == old(live) + {p} && owner.Keys == old(owner).Keys
          && brk == old(brk)
      ensures p in size && size[p] == n && SameLive(old(size), size, old(live))
    {
      InList(ptr, size, ring, owner, live, brk, k);
      InList(ptr, size, ring, owner, live, brk, k - 1);
      LiveSizes(ptr, size, ring, owner, live, brk);
      p := p0;
      if size[p] == n {
        TakeKeeps(ptr, size, ring, owner, live, brk, k);
        ptr := ptr[prevp := ptr[p]];
        ring := ring[..k] + ring[k + 1..];
        live := live + {p};
        assert ring[k - 1] == prevp;
      } else {
        CutKeeps(ptr, size, ring, owner, live, brk, k, n);
        size := size[p := size[p] - n];
        p := p + size[p];
        size := size[p := n];
        owner := Reown(owner, p, p + n, p);
        live := live + {p};
        LiveApart(old(ring), old(live), k);
      }
      freep := prevp;
    }

    /** The search of malloc, once around the list from the header after freep. */
    method Scan(n: nat) returns (found: bool, prevp: nat, p: nat, ghost k: nat)
      requires Valid() && freep != 0 && n > 0
      ensures found ==> 0 < k < |ring| && p == ring[k] && prevp == ring[k - 1] && p in size && size[p] >= n
      ensures !found ==>
          forall j: nat {:trigger Small(size, ring, n, j)} :: j < |ring| ==> Small(size, ring, n, j)
    {
      prevp := freep;
      ghost var f: nat :| f < |ring| && ring[f] == freep;
      InList(ptr, size, ring, owner, live, brk, f);
      p := ptr[prevp];
      ghost var v: int := 0;
      while true
        invariant 0 <= v < |ring| && p == ring[Pos(|ring|, f, v)]
        invariant prevp == ring[if v == 0 then f else Pos(|ring|, f, v - 1)]
        invariant forall w: nat {:trigger Pos(|ring|, f, w)} :: w < v ==> Small(size, ring, n, Pos(|ring|, f, w))
        decreases |ring| - v
      {
        k := Pos(|ring|, f, v);
        InList(ptr, size, ring, owner, live, brk, k);
        if size[p] >= n {
          return true, prevp, p, k;
        }
        if p == freep {
          AtFreep(ptr, ring, f, v);
          AllSmall(size, ring, n, f);
          return false, prevp, p, k;
        }
        v := v + 1;
        prevp := p;
        p := ptr[p];
      }
    }

    /** malloc, for a request that fits an int of bytes, where grant is what sbrk will give.
        The result is a live block of its own with room for nbytes. There is none only if no
        free block is large enough and sbrk fails. After morecore the search goes on from the
        new freep, and finds what morecore has put on the list. */
    method Malloc(nbytes: nat, grant: Option<nat>) returns (ap: nat)
      requires Valid() && nbytes < 0x8000_0000 - 2 * UNIT && (grant.Some? ==> grant.value >= brk && grant.value > BASE)
      modifies this
      ensures Valid() && SameLive(old(size), size, old(live))
      ensures ap == 0 ==> grant.None? && live == old(live) && owner.Keys == old(owner).Keys
      ensures ap == 0 ==> forall k: nat {:trigger Small(size, ring, Units(nbytes), k)} :: k < |ring| ==>
          Small(size, ring, Units(nbytes), k)
      ensures ap != 0 ==> ap - 1 !in old(live) && live == old(live) + {ap - 1} && ap - 1 in size
                          && size[ap - 1] == Units(nbytes)
      ensures ap != 0 ==> (size[ap - 1] - 1) * UNIT >= nbytes
      ensures owner.Keys == old(owner).Keys
          || (grant.Some? && Granted(old(owner), owner, grant.value, Request(Units(nbytes))))
    {
      var nunits := Units(nbytes);
      if freep == 0 {
        Init();
      }
      LiveSizes(ptr, size, ring, owner, live, brk);
      var found, prevp, p;
      ghost var k;
      found, prevp, p, k := Scan(nunits);
      if !found {
        ghost var m;
        p, m := Morecore(nunits, grant);
        if p == 0 {
          return 0;
        }
        found, prevp, p, k := Scan(nunits);
        assert found || Small(size, ring, nunits, m);
      }
      p := Take(prevp, p, nunits, k);
      UnitsFit(nbytes);
      ap := p + 1;
    }
  }

  /** The position of the header that malloc looks at after v others. */
  ghost function Pos(n: nat, f: nat, v: nat): (r: nat)
    requires f < n && v < n
    ensures r < n
  {
    if f + 1 + v < n then f + 1 + v else f + 1 + v - n
  }

  lemma AtFreep(ptr: map<nat, nat>, ring: seq<nat>, f: nat, v: nat)
    requires Ring(ptr, ring) && f < |ring| && v < |ring| && ring[Pos(|ring|, f, v)] == ring[f]
    ensures v == |ring| - 1
  {
    var k := Pos(|ring|, f, v);
    assert k < f ==> Less(ring, k, f);
    assert f < k ==> Less(ring, f, k);
  }

  /** After a whole round, all are too small. */
  lemma AllSmall(size: map<nat, nat>, ring: seq<nat>, n: nat, f: nat)
    requires f < |ring| && forall w: nat {:trigger Pos(|ring|, f, w)} :: w < |ring| ==>
        Small(size, ring, n, Pos(|ring|, f, w))
    ensures forall k: nat {:trigger Small(size, ring, n, k)} :: k < |ring| ==> Small(size, ring, n, k)
  {
    forall k: nat | k < |ring| ensures Small(size, ring, n, k) {
      var w := if k > f then k - f - 1 else k + |ring| - f - 1;
      assert Pos(|ring|, f, w) == k;
    }
  }

  /** The units for nbytes and a header of UNIT bytes. */
  function Units(nbytes: nat): (n: nat)
    ensures n > 1 || nbytes == 0
  {
    (nbytes + 15) / 16 + 1
  }

  /** They have room for nbytes, and one unit less has not. */
  lemma UnitsFit(nbytes: nat)
    ensures (Units(nbytes) - 2) * UNIT < nbytes <= (Units(nbytes) - 1) * UNIT
  {
  }

  ghost predicate Small(size: map<nat, nat>, ring: seq<nat>, n: nat, k: nat) {
    k < |ring| ==> ring[k] in size && size[ring[k]] < n
  }

  /** The heap gained the n units from a on. */
  ghost predicate Granted(owner: Owner, owner': Owner, a: nat, n: nat) {
    forall u: nat {:trigger u in owner'} :: u in owner' <==> u in owner || a <= u < a + n
  }

  /** sbrk is asked for at least MORE units. */
  function Request(nu: nat): nat { if nu < MORE then MORE else nu }

  lemma LiveSizes(ptr: map<nat, nat>, size: map<nat, nat>, ring: seq<nat>, owner: Owner, live: set<nat>, brk: nat)
    requires Heap(ptr, size, ring, owner, live, brk)
    ensures forall b {:trigger b in live} :: b in live ==> b in size && size[b] > 0 && b > BASE
  {
    forall b | b in live ensures b in size && size[b] > 0 && b > BASE {
      assert BlockOk(size, owner, b);
    }
  }

  lemma LiveApart(ring: seq<nat>, live: set<nat>, k: nat)
    requires live !! FreeBlocks(ring) && 0 < k < |ring|
    ensures ring[k] !in live
  {
    FreeBlock(ring, k);
  }

  lemma GrownHeap(ptr: map<nat, nat>, size: map<nat, nat>, size': map<nat, nat>, ring: seq<nat>, owner: Owner,
      owner': Owner, live: set<nat>, hp: nat, n: nat, brk: nat)
    requires Heap(ptr, size, ring, owner, live, brk) && hp >= brk && hp > BASE && n > 0
    requires size' == size[hp := n] && owner' == owner + Fresh(hp, hp, n)
    ensures hp !in live && Heap(ptr, size', ring, owner', live + {hp}, hp + n)
  {
    GrowKeeps(size, owner, live + FreeBlocks(ring), hp, n);
    assert live + FreeBlocks(ring) + {hp} == live + {hp} + FreeBlocks(ring);
    forall k: nat | 0 < k && k + 1 < |ring| ensures Apart(size', ring, k) {
      assert Apart(size, ring, k);
      FreeBlock(ring, k);
    }
  }

  /** Two heaps hold the same live blocks. */
  ghost predicate SameLive(size: map<nat, nat>, size': map<nat, nat>, live: set<nat>) {
    forall b {:trigger b in live} :: b in live ==> b in size && b in size' && size'[b] == size[b]
  }

  lemma NotListed(ring: seq<nat>, live: set<nat>, b: nat)
    requires live !! FreeBlocks(ring) && b in live && BASE < b && |ring| > 0 && ring[0] == BASE
    ensures b !in ring
  {
    forall k | 0 <= k < |ring| ensures ring[k] != b {
      if k > 0 { FreeBlock(ring, k); }
    }
  }

  /** The headers on the list have a size and a link. */
  lemma InList(ptr: map<nat, nat>, size: map<nat, nat>, ring: seq<nat>, owner: Owner, live: set<nat>, brk: nat, k: nat)
    requires Heap(ptr, size, ring, owner, live, brk) && k < |ring|
    ensures ring[k] in ptr && ptr[ring[k]] == Next(ring, k) && ring[k] in size && (k > 0 ==> size[ring[k]] > 0)
        && ring[k] >= BASE
  {
    assert LinkOk(ptr, ring, k);
    assert k > 0 ==> Less(ring, 0, k);
    if k > 0 {
      FreeBlock(ring, k);
      assert BlockOk(size, owner, ring[k]);
    }
  }

  /** A free block of exactly the right size is taken off the list. */
  lemma TakeKeeps(ptr: map<nat, nat>, size: map<nat, nat>, ring: seq<nat>, owner: Owner, live: set<nat>, brk: nat,
      k: nat)
    requires Heap(ptr, size, ring, owner, live, brk) && 0 < k < |ring| && ring[k] in ptr
    ensures Heap(ptr[ring[k - 1] := ptr[ring[k]]], size, ring[..k] + ring[k + 1..], owner, live + {ring[k]}, brk)
        && ring[k] !in live
  {
    var ring', ptr' := ring[..k] + ring[k + 1..], ptr[ring[k - 1] := ptr[ring[k]]];
    forall i: nat, j: nat | i < j < |ring'| ensures Less(ring', i, j) {
      assert Less(ring, if i < k then i else i + 1, if j < k then j else j + 1);
    }
    assert LinkOk(ptr, ring, k) && LinkOk(ptr, ring, k - 1);
    forall j: nat | j < |ring'| ensures LinkOk(ptr', ring', j) {
      assert LinkOk(ptr, ring, if j < k then j else j + 1);
      assert j < k - 1 ==> Less(ring, j, k - 1);
      assert j >= k ==> Less(ring, k - 1, j + 1);
    }
    forall j: nat | 0 < j && j + 1 < |ring'| ensures Apart(size, ring', j) {
      assert Apart(size, ring, if j < k then j else j + 1);
      assert k + 1 < |ring| ==> Less(ring, k, k + 1);
    }
    FreeBlock(ring, k);
    TakenBlocks(ptr, ring, k);
    assert live + {ring[k]} + FreeBlocks(ring') == live + FreeBlocks(ring);
  }

  lemma TakenBlocks(ptr: map<nat, nat>, ring: seq<nat>, k: nat)
    requires Ring(ptr, ring) && 0 < k < |ring|
    ensures FreeBlocks(ring[..k] + ring[k + 1..]) == FreeBlocks(ring) - {ring[k]}
  {
    var ring' := ring[..k] + ring[k + 1..];
    forall x | x in FreeBlocks(ring) && x != ring[k] ensures x in FreeBlocks(ring') {
      var j: nat :| 0 < j < |ring| && ring[j] == x;
      assert ring'[if j < k then j else j - 1] == x;
    }
    forall x | x in FreeBlocks(ring') ensures x in FreeBlocks(ring) && x != ring[k] {
      var j: nat :| 0 < j < |ring'| && ring'[j] == x;
      assert ring[if j < k then j else j + 1] == x;
      assert j < k ==> Less(ring, j, k);
      assert k <= j ==> Less(ring, k, j + 1);
    }
  }

  /** The tail of a larger free block becomes live. */
  lemma CutKeeps(ptr: map<nat, nat>, size: map<nat, nat>, ring: seq<nat>, owner: Owner, live: set<nat>, brk: nat,
      k: nat, n: nat)
    requires Heap(ptr, size, ring, owner, live, brk) && 0 < k < |ring| && ring[k] in size && 0 < n < size[ring[k]]
    ensures var y := ring[k] + size[ring[k]] - n;
            && Heap(ptr, size[ring[k] := size[ring[k]] - n][y := n], ring, Reown(owner, y, y + n, y), live + {y}, brk)
            && y !in live && y !in ring
  {
    var y := ring[k] + size[ring[k]] - n;
    var size' := size[ring[k] := size[ring[k]] - n][y := n];
    FreeBlock(ring, k);
    SplitKeeps(size, owner, live + FreeBlocks(ring), ring[k], n);
    assert BlockOk(size, owner, ring[k]);
    forall j: nat | 0 < j && j + 1 < |ring| ensures Apart(size', ring, j) {
      assert Apart(size, ring, j);
      FreeBlock(ring, j);
    }
    assert forall j: nat :: 0 < j < |ring| ==> ring[j] in FreeBlocks(ring);
    assert live + {y} + FreeBlocks(ring) == live + FreeBlocks(ring) + {y};
  }

  /** The tests of free's loop tell exactly when it has come to the gap. */
  lemma AtGap(ptr: map<nat, nat>, ring: seq<nat>, t: nat, b: nat, k: nat)
    requires Ring(ptr, ring) && Gap(ring, t, b) && k < |ring|
    ensures var p, n := ring[k], Next(ring, k);
            k == t <==> (b > p && b < n) || (p >= n && (b > p || b < n))
  {
    assert k < t ==> Less(ring, k, t);
    assert t < k ==> Less(ring, t, k);
    assert k + 1 < |ring| ==> Less(ring, k, k + 1);
    assert k + 1 < t ==> Less(ring, k + 1, t);
    assert t + 1 < k ==> Less(ring, t + 1, k);
    assert 0 < t ==> Less(ring, 0, t);
    assert 0 < k ==> Less(ring, 0, k);
  }
}
