/** The virtio block driver (kernel/virtio_disk.c) and its device. Driver and device share the
    descriptors, the avail ring and the used ring. Each method is one section under
    vdisk_lock, or one action of the device, so any order of calls is a possible interleaving. */
module VirtioDisk {
  import opened Common

  const NUM: nat := 8
  const U16: nat := 65536
  const BSIZE: nat := 1024

  /** Where a descriptor points: a command header, the data of a buffer, or a status byte. */
  datatype Addr = Zero | Command(i: nat) | Data(b: nat) | Status(i: nat)

  /** A descriptor; more is VRING_DESC_F_NEXT, and write is VRING_DESC_F_WRITE. */
  datatype Desc = Desc(addr: Addr, len: nat, more: bool, write: bool, next: nat)

  datatype Op = Op(out: bool, sector: nat)

  datatype Info = Info(b: Option<nat>, status: nat)

  /** A request in flight: the three descriptors head, second and third, for buffer b. */
  datatype Chain = Chain(second: nat, third: nat, b: nat, op: Op)

  /** Pending: entry k of the avail ring, not yet taken by the device. Running: taken. Done:
      entry k of the used ring, not yet seen by the driver. Complete: seen. */
  datatype Stage = Pending(k: nat) | Running | Done(k: nat) | Complete

  type Chains = map<nat, Chain>
  type Owners = seq<Option<nat>>

  ghost predicate Member(c: Chain, head: nat, i: nat) { i == head || i == c.second || i == c.third }

  /** Descriptor i is free, or belongs to one chain. */
  ghost predicate DescOk(free: seq<bool>, owner: Owners, chains: Chains, i: nat) {
    && i < |free| && i < |owner| && (free[i] <==> owner[i] == None)
    && (owner[i].Some? ==> owner[i].value in chains && Member(chains[owner[i].value], owner[i].value, i))
  }

  ghost predicate ChainOk(owner: Owners, desc: seq<Desc>, ops: seq<Op>, chains: Chains, h: nat) {
    && h in chains && |owner| == |desc| == |ops| == NUM
    && var c := chains[h];
       && h < NUM && c.second < NUM && c.third < NUM && h != c.second && h != c.third && c.second != c.third
       && owner[h] == Some(h) && owner[c.second] == Some(h) && owner[c.third] == Some(h)
       && desc[h] == Desc(Command(h), 16, true, false, c.second)
       && desc[c.second] == Desc(Data(c.b), BSIZE, true, !c.op.out, c.third)
       && desc[c.third] == Desc(Status(h), 1, false, true, 0)
       && ops[h] == c.op
  }

  ghost predicate ChainsOk(free: seq<bool>, owner: Owners, desc: seq<Desc>, ops: seq<Op>, chains: Chains) {
    && |free| == |owner| == |desc| == |ops| == NUM
    && (forall i: nat {:trigger DescOk(free, owner, chains, i)} :: i < NUM ==> DescOk(free, owner, chains, i))
    && (forall h: nat {:trigger ChainOk(owner, desc, ops, chains, h)} :: h in chains ==>
        ChainOk(owner, desc, ops, chains, h))
  }

  /** Entry k of a ring, still to be consumed, holds the head h. */
  ghost predicate EntryOk(ring: seq<nat>, heads: seq<nat>, k: nat) {
    |ring| == NUM && k < |heads| && ring[k % NUM] == heads[k]
  }

  ghost predicate StageOk(chains: Chains, stage: map<nat, Stage>, info: seq<Info>, disk: map<nat, bool>,
      sent: seq<nat>, taken: nat, done: seq<nat>, seen: nat, h: nat) {
    && h in chains && h in stage && h < |info| && info[h].b == Some(chains[h].b) && chains[h].b in disk
    && (disk[chains[h].b] <==> !stage[h].Complete?)
    && match stage[h]
       case Pending(k) => taken <= k < |sent| && sent[k] == h
       case Running => true
       case Done(k) => seen <= k < |done| && done[k] == h
       case Complete => true
  }

  /** Of chain h: complete if it was reported done among the first n completions, else as before. */
  ghost predicate Handled(was: map<nat, Stage>, now: map<nat, Stage>, n: nat, h: nat) {
    && h in was && h in now
    && now[h] == if was[h].Done? && was[h].k < n then Complete else was[h]
  }

  lemma HandledNext(was: map<nat, Stage>, now: map<nat, Stage>, done: seq<nat>, n: nat, h: nat)
    requires Handled(was, now, n, h) && n < |done| && done[n] in now && now[done[n]] == Done(n)
    requires now[h].Done? ==> now[h].k < |done| && done[now[h].k] == h
    ensures Handled(was, now[done[n] := Complete], n + 1, h)
  {
  }

  ghost predicate IsPending(stage: map<nat, Stage>, sent: seq<nat>, k: nat) {
    k < |sent| && sent[k] in stage
    && stage[sent[k]] == Pending(k)
  }

  ghost predicate IsDone(stage: map<nat, Stage>, done: seq<nat>, k: nat) {
    k < |done| && done[k] in stage
    && stage[done[k]] == Done(k)
  }

  ghost predicate SameBuffer(chains: Chains, g: nat, h: nat) {
    g in chains && h in chains && chains[g].b == chains[h].b
    ==> g == h
  }

  class Disk {
    var free: seq<bool>
    var desc: seq<Desc>
    var ops: seq<Op>
    var info: seq<Info>
    var availRing: seq<nat>
    var availIdx: nat
    var usedRing: seq<nat>
    var usedIdx: nat
    var usedSeen: nat
    var disk: map<nat, bool>
    var devIdx: nat

    ghost var chains: Chains
    ghost var owner: Owners
    ghost var stage: map<nat, Stage>
    ghost var sent: seq<nat>
    ghost var taken: nat
    ghost var done: seq<nat>
    ghost var seen: nat

    /** The rings: the 16-bit indices count the entries, and those not consumed are intact. */
    ghost predicate RingsOk()
      reads this
    {
      && |availRing| == NUM && |usedRing| == NUM && taken <= |sent| && seen <= |done|
      && availIdx == |sent| % U16 && devIdx == taken % U16 && usedIdx == |done| % U16 && usedSeen == seen % U16
      && (forall k: nat {:trigger EntryOk(availRing, sent, k)} :: taken <= k < |sent| ==> EntryOk(availRing, sent, k))
      && (forall k: nat {:trigger EntryOk(usedRing, done, k)} :: seen <= k < |done| ==> EntryOk(usedRing, done, k))
      && (forall k: nat {:trigger IsPending(stage, sent, k)} :: taken <= k < |sent| ==> IsPending(stage, sent, k))
      && (forall k: nat {:trigger IsDone(stage, done, k)} :: seen <= k < |done| ==> IsDone(stage, done, k))
    }

    ghost predicate Valid()
      reads this
    {
      && ChainsOk(free, owner, desc, ops, chains) && RingsOk() && |info| == NUM && stage.Keys == chains.Keys
          && StagesOk() && BuffersOk()
    }

    /** As virtio_disk_init leaves it: all descriptors free, both rings empty. */
    constructor ()
      ensures Valid() && chains == map[] && disk == map[] && forall i :: 0 <= i < NUM ==> free[i]
    {
      free, desc, ops, info := seq(NUM, i => true), seq(NUM, i => Desc(Zero, 0, false, false, 0)),
          seq(NUM, i => Op(false, 0)), seq(NUM, i => Info(None, 0));
      availRing, usedRing, availIdx, usedIdx, usedSeen, devIdx, disk := seq(NUM, i => 0), seq(NUM, i => 0), 0, 0, 0, 0,
          map[];
      chains, owner, stage, sent, taken, done, seen := map[], seq(NUM, i => None), map[], [], 0, [], 0;
    }

    /** Each descriptor is free or in exactly one chain. */
    lemma Partitioned(i: nat, g: nat, h: nat)
      requires Valid() && i < NUM
      ensures free[i] <==> forall x :: x in chains ==> !Member(chains[x], x, i)
      ensures g in chains && h in chains && Member(chains[g], g, i) && Member(chains[h], h, i) ==> g == h
    {
      assert DescOk(free, owner, chains, i);
      forall x | x in chains && Member(chains[x], x, i) ensures owner[i] == Some(x) {
        assert ChainOk(owner, desc, ops, chains, x);
      }
    }

    /** alloc_desc: the first free descriptor, or -1. */
    method AllocDesc() returns (r: int)
      requires |free| == NUM
      modifies this`free
      ensures r == -1 ==> free == old(free) && forall i :: 0 <= i < NUM ==> !free[i]
      ensures r != -1 ==> 0 <= r < NUM && old(free)[r] && free == old(free)[r := false]
      ensures forall i :: 0 <= i < r ==> !old(free)[i]
    {
      var i := 0;
      while i < NUM
        invariant i <= NUM && free == old(free) && forall j :: 0 <= j < i ==> !free[j]
      {
        if free[i] {
          free := free[i := false];
          return i;
        }
        i := i + 1;
      }
      return -1;
    }

    /** free_desc; ok is false where the kernel would panic. */
    method FreeDesc(i: nat) returns (ok: bool)
      requires |free| == NUM && |desc| == NUM
      modifies this`free, this`desc
      ensures ok <==> i < NUM && !old(free)[i]
      ensures ok ==> free == old(free)[i := true] && desc == old(desc)[i := Desc(Zero, 0, false, false, 0)]
      ensures !ok ==> free == old(free) && desc == old(desc)
    {
      if i >= NUM {
        return false;
      }
      if free[i] {
        return false;
      }
      desc := desc[i := Desc(Zero, 0, false, false, 0)];
      free := free[i := true];
      ok := true;
    }

    /** free_chain, for the chain at head h; ok is false where free_desc would panic. */
    method FreeChain(h: nat) returns (ok: bool)
      requires ChainsOk(free, owner, desc, ops, chains) && h in chains
      modifies this`free, this`desc, this`owner, this`chains
      ensures ok && chains == old(chains) - {h} && ChainsOk(free, owner, desc, ops, chains)
      ensures h < NUM && owner[h] == None
    {
      assert ChainOk(owner, desc, ops, chains, h);
      ghost var c := chains[h];
      assert DescOk(free, owner, chains, h) && DescOk(free, owner, chains, c.second)
          && DescOk(free, owner, chains, c.third);
      var i := h;
      ghost var n := 0;
      while true
        invariant owner == old(owner) && chains == old(chains) && 0 <= n <= 2 && |free| == NUM && |desc| == NUM
            && i == (if n == 0 then h else if n == 1 then c.second else c.third)
        invariant free == (if n == 0 then old(free) else if n == 1 then old(free)[h := true]
            else old(free)[h := true][c.second := true])
        invariant forall j: nat :: j < NUM && !(j == h && n > 0) && !(j == c.second && n > 1) ==>
            desc[j] == old(desc)[j]
        decreases 2 - n
      {
        var more, nxt := desc[i].more, desc[i].next;
        ok := FreeDesc(i);
        if !ok { return; }
        if more {
          i := nxt;
          n := n + 1;
        } else {
          break;
        }
      }
      RemoveKeeps(old(free), owner, old(desc), ops, chains, h, free,
          owner[h := None][c.second := None][c.third := None], desc);
      owner := owner[h := None][c.second := None][c.third := None];
      chains := chains - {h};
    }

    /** alloc3_desc: three free descriptors, or none if there are not as many. */
    method Alloc3() returns (ok: bool, idx: seq<nat>)
      requires |free| == NUM && |desc| == NUM
      modifies this`free, this`desc
      ensures ok ==>
          |idx| == 3 && Three(old(free), idx[0], idx[1], idx[2])
          && free == old(free)[idx[0] := false][idx[1] := false][idx[2] := false] && desc == old(desc)
      ensures !ok ==> free == old(free) && forall a: nat, b: nat, c: nat :: !Three(free, a, b, c)
      ensures |desc| == NUM && forall i: nat :: i < NUM && !old(free)[i] ==> desc[i] == old(desc)[i]
    {
      idx := [];
      while |idx| < 3
        invariant |idx| <= 3 && desc == old(desc) && |free| == NUM && Taken(old(free), free, idx)
        decreases 3 - |idx|
      {
        var r := AllocDesc();
        if r < 0 {
          NotThree(old(free), free, idx);
          Rollback(idx, old(free));
          return false, idx;
        }
        TakenNext(old(free), free, idx, r);
        idx := idx + [r];
      }
      ok := true;
    }

    /** virtio_disk_rw up to its wait: if there are three free descriptors, the request for
        buffer b goes to the device, and otherwise the caller has to wait. b is not in flight. */
    method Submit(b: nat, out: bool, blockno: nat) returns (ok: bool, h: nat)
      requires Valid() && forall g :: g in chains ==> chains[g].b != b
      modifies this
      ensures Valid()
      ensures !ok ==>
          chains == old(chains) && stage == old(stage) && disk == old(disk) && sent == old(sent)
          && forall i: nat, j: nat, k: nat :: !Three(free, i, j, k)
      ensures ok ==>
          h !in old(chains) && h in chains && chains == old(chains)[h := chains[h]] && chains[h].b == b
          && chains[h].op == Op(out, blockno * (BSIZE / 512))
      ensures ok ==>
          sent == old(sent) + [h] && stage == old(stage)[h := Pending(|old(sent)|)] && disk == old(disk)[b := true]
    {
      h := 0;
      var idx;
      ok, idx := Alloc3();
      if !ok {
        FreeDescsDoNotMatter(free, owner, old(desc), ops, chains, desc);
        return;
      }
      h := idx[0];
      Send(b, Op(out, blockno * (BSIZE / 512)), h, idx[1], idx[2], old(free));
    }

    /** The request for buffer b, in three descriptors that were free. */
    method Send(b: nat, op: Op, h: nat, second: nat, third: nat, ghost was: seq<bool>)
      requires ChainsOk(was, owner, desc, ops, chains) && Three(was, h, second, third)
          && free == was[h := false][second := false][third := false]
      requires RingsOk() && |info| == NUM && stage.Keys == chains.Keys && StagesOk() && BuffersOk()
          && forall g :: g in chains ==> chains[g].b != b
      modifies this
      ensures Valid() && h !in old(chains) && chains == old(chains)[h := Chain(second, third, b, op)]
      ensures sent == old(sent) + [h] && stage == old(stage)[h := Pending(|old(sent)|)] && disk == old(disk)[b := true]
    {
      Format(b, op, h, second, third, was);
      forall g | g in stage ensures g < NUM && g != h {
        assert ChainOk(owner, desc, ops, chains, g);
      }
      Announce(h);
      forall g: nat | g in chains ensures StageOk(chains, stage, info, disk, sent, taken, done, seen, g) {
        if g != h {
          assert StageOk(old(chains), old(stage), old(info), old(disk), old(sent), old(taken), old(done), old(seen), g);
        }
      }
      forall f: nat, g: nat ensures SameBuffer(chains, f, g) {
        assert SameBuffer(old(chains), f, g);
      }
    }

    /** The device reads the next entry of the avail ring, if there is one. */
    method NextAvail() returns (got: bool, h: nat)
      requires Valid()
      ensures got <==> taken < |sent|
      ensures got ==> h == sent[taken] && h in chains && stage[h] == Pending(taken)
    {
      RingsBounded();
      IndexTells(taken, |sent|);
      got, h := devIdx != availIdx, 0;
      if got {
        assert EntryOk(availRing, sent, taken) && IsPending(stage, sent, taken);
        SlotOf(taken);
        h := availRing[devIdx % NUM];
      }
    }

    /** The driver reads the next entry of the used ring, if there is one. */
    method NextUsed() returns (more: bool, h: nat)
      requires Valid()
      ensures more <==> seen < |done|
      ensures more ==> h == done[seen] && h in chains && stage[h] == Done(seen)
    {
      RingsBounded();
      IndexTells(seen, |done|);
      more, h := usedSeen != usedIdx, 0;
      if more {
        assert EntryOk(usedRing, done, seen) && IsDone(stage, done, seen);
        SlotOf(seen);
        h := usedRing[usedSeen % NUM];
      }
    }

    /** The device takes the next request, if there is one, and follows its descriptors: it
        finds the command, the buffer and the place for the status as they were submitted. */
    method DeviceTake() returns (got: bool, h: nat, op: Op, data: Addr, status: Addr)
      requires Valid()
      modifies this`devIdx, this`taken, this`stage
      ensures Valid() && (got <==> old(taken) < |sent|) && (!got ==> unchanged(this))
      ensures got ==>
          h == sent[old(taken)] && h in chains && taken == old(taken) + 1 && stage == old(stage)[h := Running]
      ensures got ==> op == chains[h].op && data == Data(chains[h].b) && status == Status(h)
    {
      op, data, status := Op(false, 0), Zero, Zero;
      got, h := NextAvail();
      if got {
        assert ChainOk(owner, desc, ops, chains, h);
        var d0 := desc[h];
        var d1 := desc[d0.next];
        var d2 := desc[d1.next];
        op, data, status := ops[h], d1.addr, d2.addr;
        MarkTaken(h);
      }
    }

    method MarkTaken(h: nat)
      requires Valid() && taken < |sent| && h == sent[taken] && h in chains && stage[h] == Pending(taken)
      modifies this`devIdx, this`taken, this`stage
      ensures Valid() && taken == old(taken) + 1 && stage == old(stage)[h := Running]
    {
      AdvanceTaken(h);
      TakenStages(chains, old(stage), info, disk, sent, old(taken), done, seen, h, stage, taken);
    }

    method AdvanceTaken(h: nat)
      requires RingsOk() && taken < |sent| && h == sent[taken] && h in stage && stage[h] == Pending(taken)
      modifies this`devIdx, this`taken, this`stage
      ensures RingsOk() && taken == old(taken) + 1 && stage == old(stage)[h := Running]
    {
      NextIndex(taken);
      devIdx := (devIdx + 1) % U16;
      taken := taken + 1;
      stage := stage[h := Running];
      forall k: nat | taken <= k < |sent| ensures IsPending(stage, sent, k) {
        assert IsPending(old(stage), sent, k);
      }
      forall k: nat | seen <= k < |done| ensures IsDone(stage, done, k) {
        assert IsDone(old(stage), done, k);
      }
    }

    /** The device reports that it is done with chain h. */
    method DeviceFinish(h: nat, status: nat)
      requires Valid() && h in chains && stage[h] == Running
      modifies this`info, this`usedRing, this`usedIdx, this`done, this`stage
      ensures Valid() && done == old(done) + [h] && stage == old(stage)[h := Done(|old(done)|)]
      ensures h < NUM && info == old(info)[h := old(info)[h].(status := status)]
    {
      assert ChainOk(owner, desc, ops, chains, h);
      RoomToReport(h);
      Report(h);
      info := info[h := info[h].(status := status)];
      forall g: nat | g in chains ensures StageOk(chains, stage, info, disk, sent, taken, done, seen, g) {
        assert StageOk(chains, old(stage), old(info), disk, sent, taken, old(done), seen, g);
      }
    }

    /** The head goes to the used ring. */
    method Report(h: nat)
      requires RingsOk() && h in stage && stage[h] == Running && |done| - seen < NUM
      modifies this`usedRing, this`usedIdx, this`done, this`stage
      ensures RingsOk() && done == old(done) + [h] && stage == old(stage)[h := Done(|old(done)|)]
    {
      SlotOf(|done|);
      NextIndex(|done|);
      usedRing := usedRing[usedIdx % NUM := h];
      usedIdx := (usedIdx + 1) % U16;
      stage := stage[h := Done(|done|)];
      done := done + [h];
      forall k: nat | seen <= k < |done| ensures EntryOk(usedRing, done, k) && IsDone(stage, done, k) {
        if k < |old(done)| {
          assert EntryOk(old(usedRing), old(done), k) && IsDone(old(stage), old(done), k);
          SlotsDiffer(k, |old(done)|);
        }
      }
      forall k: nat | taken <= k < |sent| ensures IsPending(stage, sent, k) {
        assert IsPending(old(stage), sent, k);
      }
    }

    /** One round of virtio_disk_intr: the next completion, if there is one, clears the flag of
        the buffer that was submitted. ok is false where the kernel would panic, because the
        device reported an error. */
    method IntrOne() returns (more: bool, ok: bool)
      requires Valid()
      modifies this`disk, this`usedSeen, this`seen, this`stage
      ensures Valid() && (more <==> old(seen) < |done|) && (!more ==> ok && unchanged(this))
      ensures more ==> done[old(seen)] in chains && done[old(seen)] < NUM && (ok <==> info[done[old(seen)]].status == 0)
      ensures more && ok ==>
          seen == old(seen) + 1 && stage == old(stage)[done[old(seen)] := Complete]
          && disk == old(disk)[chains[done[old(seen)]].b := false]
      ensures !ok ==> unchanged(this)
    {
      ok := true;
      var id;
      more, id := NextUsed();
      if more {
        assert ChainOk(owner, desc, ops, chains, id) && StageOk(chains, stage, info, disk, sent, taken, done, seen, id);
        if info[id].status != 0 {
          ok := false;
          return;
        }
        MarkSeen(id, info[id].b.value);
      }
    }

    method MarkSeen(h: nat, b: nat)
      requires Valid() && seen < |done| && h == done[seen] && h in chains && stage[h] == Done(seen) && b == chains[h].b
      modifies this`disk, this`usedSeen, this`seen, this`stage
      ensures Valid() && seen == old(seen) + 1 && stage == old(stage)[h := Complete] && disk == old(disk)[b := false]
    {
      disk := disk[b := false];
      AdvanceSeen(h);
      SeenStages(chains, old(stage), info, old(disk), sent, taken, done, old(seen), h, stage, disk, seen);
    }

    method AdvanceSeen(h: nat)
      requires RingsOk() && seen < |done| && h == done[seen] && h in stage && stage[h] == Done(seen)
      modifies this`usedSeen, this`seen, this`stage
      ensures RingsOk() && seen == old(seen) + 1 && stage == old(stage)[h := Complete]
    {
      NextIndex(seen);
      usedSeen := (usedSeen + 1) % U16;
      seen := seen + 1;
      stage := stage[h := Complete];
      forall k: nat | taken <= k < |sent| ensures IsPending(stage, sent, k) {
        assert IsPending(old(stage), sent, k);
      }
      forall k: nat | seen <= k < |done| ensures IsDone(stage, done, k) {
        assert IsDone(old(stage), done, k);
      }
    }

    /** virtio_disk_intr: all completions that the device has reported. */
    method Intr() returns (ok: bool)
      requires Valid()
      modifies this`disk, this`usedSeen, this`seen, this`stage
      ensures Valid() && seen <= |done| && (ok ==> seen == |done|)
          && (!ok ==> seen < |done| && done[seen] < NUM && info[done[seen]].status != 0)
      ensures forall h: nat {:trigger Handled(old(stage), stage, seen, h)} :: h in chains ==>
          Handled(old(stage), stage, seen, h) && chains[h].b in disk && (disk[chains[h].b] <==> !stage[h].Complete?)
    {
      var more := true;
      ok := true;
      forall h: nat | h in chains ensures Handled(old(stage), stage, seen, h) {
        assert StageOk(chains, stage, info, disk, sent, taken, done, seen, h);
      }
      while more
        invariant Valid() && ok && (!more ==> seen == |done|)
        invariant forall h: nat {:trigger Handled(old(stage), stage, seen, h)} :: h in chains ==>
            Handled(old(stage), stage, seen, h)
        decreases |done| - seen, more
      {
        ghost var s, n := stage, seen;
        DonePlaces();
        more, ok := IntrOne();
        if !ok {
          Flags();
          return;
        }
        if more {
          forall h: nat | h in chains ensures Handled(old(stage), stage, seen, h) {
            assert Handled(old(stage), s, n, h);
            HandledNext(old(stage), s, done, n, h);
          }
        }
      }
      Flags();
    }

    /** A chain that is done is at its place among the completions, and only there. */
    lemma DonePlaces()
      requires Valid()
      ensures forall h: nat {:trigger stage[h]} ::
          h in chains && stage[h].Done? ==> stage[h].k < |done| && done[stage[h].k] == h
      ensures seen < |done| ==> done[seen] in stage && stage[done[seen]] == Done(seen)
    {
      forall h: nat | h in chains && stage[h].Done? ensures stage[h].k < |done| && done[stage[h].k] == h {
        assert StageOk(chains, stage, info, disk, sent, taken, done, seen, h);
      }
      if seen < |done| { assert IsDone(stage, done, seen); }
    }

    /** The flag of a buffer is set until its request is complete. */
    lemma Flags()
      requires Valid()
      ensures forall h: nat {:trigger chains[h]} ::
          h in chains ==> chains[h].b in disk && (disk[chains[h].b] <==> !stage[h].Complete?)
    {
      forall h: nat | h in chains ensures chains[h].b in disk && (disk[chains[h].b] <==> !stage[h].Complete?) {
        assert StageOk(chains, stage, info, disk, sent, taken, done, seen, h);
      }
    }

    /** virtio_disk_rw after its wait, once the flag of the buffer is clear; ok is false where
        free_desc would panic. */
    method Finish(h: nat) returns (ok: bool)
      requires Valid() && h in chains && chains[h].b in disk && !disk[chains[h].b]
      modifies this`info, this`free, this`desc, this`owner, this`chains, this`stage
      ensures ok && Valid() && chains == old(chains) - {h} && stage == old(stage) - {h}
    {
      assert StageOk(chains, stage, info, disk, sent, taken, done, seen, h);
      info := info[h := info[h].(b := None)];
      ok := FreeChain(h);
      stage := stage - {h};
      forall k: nat | taken <= k < |sent| ensures IsPending(stage, sent, k) {
        assert IsPending(old(stage), sent, k);
      }
      forall k: nat | seen <= k < |done| ensures IsDone(stage, done, k) {
        assert IsDone(old(stage), done, k);
      }
      forall g: nat | g in chains ensures StageOk(chains, stage, info, disk, sent, taken, done, seen, g) {
        assert StageOk(old(chains), old(stage), old(info), disk, sent, taken, done, seen, g);
      }
      forall f: nat, g: nat ensures SameBuffer(chains, f, g) {
        assert SameBuffer(old(chains), f, g);
      }
    }

    ghost predicate StagesOk()
      reads this
    {
      forall h: nat {:trigger StageOk(chains, stage, info, disk, sent, taken, done, seen, h)} :: h in chains
          ==> StageOk(chains, stage, info, disk, sent, taken, done, seen, h)
    }

    /** No two chains are for the same buffer. */
    ghost predicate BuffersOk()
      reads this
    {
      forall g: nat, h: nat {:trigger SameBuffer(chains, g, h)} :: SameBuffer(chains, g, h)
    }

    /** The three descriptors, the command and the book-keeping of a request. */
    method Format(b: nat, op: Op, h: nat, second: nat, third: nat, ghost was: seq<bool>)
      requires ChainsOk(was, owner, desc, ops, chains) && Three(was, h, second, third) && |info| == NUM
      requires free == was[h := false][second := false][third := false]
      modifies this`desc, this`ops, this`info, this`disk, this`chains, this`owner
      ensures h !in old(chains) && chains == old(chains)[h := Chain(second, third, b, op)]
          && ChainsOk(free, owner, desc, ops, chains)
      ensures info == old(info)[h := Info(Some(b), 0xff)] && disk == old(disk)[b := true]
    {
      ops := ops[h := op];
      desc := desc[h := Desc(Command(h), 16, true, false, second)];
      desc := desc[second := Desc(Data(b), BSIZE, true, !op.out, third)];
      desc := desc[third := Desc(Status(h), 1, false, true, 0)];
      disk := disk[b := true];
      info := info[h := Info(Some(b), 0xff)];
      owner := owner[h := Some(h)][second := Some(h)][third := Some(h)];
      chains := chains[h := Chain(second, third, b, op)];
      AddKeeps(was, old(owner), old(desc), old(ops), old(chains), h, Chain(second, third, b, op), free, owner, desc);
    }

    /** The head of the chain goes to the avail ring. */
    method Announce(h: nat)
      requires RingsOk() && h !in stage && h < NUM && Heads(h)
      modifies this`availRing, this`availIdx, this`sent, this`stage
      ensures RingsOk() && sent == old(sent) + [h] && stage == old(stage)[h := Pending(|old(sent)|)]
    {
      RoomToSend(h);
      SlotOf(|sent|);
      availRing := availRing[availIdx % NUM := h];
      availIdx := (availIdx + 1) % U16;
      stage := stage[h := Pending(|sent|)];
      sent := sent + [h];
      NextIndex(|old(sent)|);
      forall k: nat | taken <= k < |sent| ensures EntryOk(availRing, sent, k) && IsPending(stage, sent, k) {
        if k < |old(sent)| {
          assert EntryOk(old(availRing), old(sent), k) && IsPending(old(stage), old(sent), k);
          SlotsDiffer(k, |old(sent)|);
        }
      }
      forall k: nat | seen <= k < |done| ensures IsDone(stage, done, k) {
        assert IsDone(old(stage), done, k);
      }
    }

    /** The heads in the rings are descriptors. */
    ghost predicate Heads(h: nat)
      reads this
    {
      forall g {:trigger stage[g]} :: g in stage ==> g < NUM && g != h
    }

    lemma RoomToSend(h: nat)
      requires RingsOk() && h !in stage && h < NUM && Heads(h)
      ensures |sent| - taken < NUM
    {
      var heads: seq<nat> := sent[taken..];
      forall i | 0 <= i < |heads| ensures heads[i] < NUM && heads[i] != h {
        assert IsPending(stage, sent, taken + i) && stage[heads[i]] == Pending(taken + i);
      }
      forall i, j | 0 <= i < j < |heads| ensures heads[i] != heads[j] {
        assert IsPending(stage, sent, taken + i) && IsPending(stage, sent, taken + j);
      }
      FewHeads(heads, h);
    }

    lemma RoomToReport(h: nat)
      requires Valid() && h in chains && stage[h] == Running
      ensures |done| - seen < NUM
    {
      var heads: seq<nat> := done[seen..];
      assert ChainOk(owner, desc, ops, chains, h);
      forall i | 0 <= i < |heads| ensures heads[i] < NUM && heads[i] != h {
        assert IsDone(stage, done, seen + i) && ChainOk(owner, desc, ops, chains, done[seen + i]);
      }
      forall i, j | 0 <= i < j < |heads| ensures heads[i] != heads[j] {
        assert IsDone(stage, done, seen + i) && IsDone(stage, done, seen + j);
      }
      FewHeads(heads, h);
    }

    /** No more entries wait in a ring than it has slots. */
    lemma RingsBounded()
      requires Valid()
      ensures |sent| - taken <= NUM && |done| - seen <= NUM
    {
      var a: seq<nat>, d: seq<nat> := sent[taken..], done[seen..];
      forall i | 0 <= i < |a| ensures a[i] < NUM {
        assert IsPending(stage, sent, taken + i) && ChainOk(owner, desc, ops, chains, sent[taken + i]);
      }
      forall i, j | 0 <= i < j < |a| ensures a[i] != a[j] {
        assert IsPending(stage, sent, taken + i) && IsPending(stage, sent, taken + j);
      }
      forall i | 0 <= i < |d| ensures d[i] < NUM {
        assert IsDone(stage, done, seen + i) && ChainOk(owner, desc, ops, chains, done[seen + i]);
      }
      forall i, j | 0 <= i < j < |d| ensures d[i] != d[j] {
        assert IsDone(stage, done, seen + i) && IsDone(stage, done, seen + j);
      }
      CountHeads(a);
      AtMost(Elements(a), NUM);
      CountHeads(d);
      AtMost(Elements(d), NUM);
    }

    /** The descriptors that were found are freed again. */
    method Rollback(idx: seq<nat>, ghost was: seq<bool>)
      requires |free| == NUM && |desc| == NUM && |idx| < 3 && Taken(was, free, idx)
      modifies this`free, this`desc
      ensures free == was && |desc| == NUM && forall i: nat :: i < NUM && !was[i] ==> desc[i] == old(desc)[i]
    {
      var j := 0;
      while j < |idx|
        invariant j <= |idx| && |free| == NUM && |desc| == NUM && forall i: nat :: i < NUM ==>
            free[i] == (was[i] && i !in idx[j..])
        invariant forall i: nat :: i < NUM && !was[i] ==> desc[i] == old(desc)[i]
      {
        assert idx[j..] == [idx[j]] + idx[j + 1..] && idx[j] in idx;
        assert forall l :: j < l < |idx| ==> idx[l] != idx[j];
        var ok := FreeDesc(idx[j]);
        j := j + 1;
      }
      assert idx[j..] == [];
    }
  }

  lemma TakenStages(chains: Chains, stage: map<nat, Stage>, info: seq<Info>, disk: map<nat, bool>, sent: seq<nat>,
      taken: nat, done: seq<nat>, seen: nat, h: nat, stage': map<nat, Stage>, taken': nat)
    requires forall g: nat {:trigger StageOk(chains, stage, info, disk, sent, taken, done, seen, g)} :: g in chains ==>
        StageOk(chains, stage, info, disk, sent, taken, done, seen, g)
    requires taken < |sent| && h == sent[taken] && h in chains && h in stage && stage[h] == Pending(taken)
        && stage' == stage[h := Running] && taken' == taken + 1
    ensures forall g: nat {:trigger StageOk(chains, stage', info, disk, sent, taken', done, seen, g)} :: g in chains ==>
        StageOk(chains, stage', info, disk, sent, taken', done, seen, g)
  {
    forall g: nat | g in chains ensures StageOk(chains, stage', info, disk, sent, taken', done, seen, g) {
      assert StageOk(chains, stage, info, disk, sent, taken, done, seen, g);
    }
  }

  lemma SeenStages(chains: Chains, stage: map<nat, Stage>, info: seq<Info>, disk: map<nat, bool>, sent: seq<nat>,
      taken: nat, done: seq<nat>, seen: nat, h: nat, stage': map<nat, Stage>, disk': map<nat, bool>, seen': nat)
    requires forall g: nat {:trigger StageOk(chains, stage, info, disk, sent, taken, done, seen, g)} :: g in chains ==>
        StageOk(chains, stage, info, disk, sent, taken, done, seen, g)
    requires forall f: nat, g: nat {:trigger SameBuffer(chains, f, g)} :: SameBuffer(chains, f, g)
    requires seen < |done| && h == done[seen] && h in chains && stage' == stage[h := Complete]
    requires disk' == disk[chains[h].b := false] && seen' == seen + 1
    ensures forall g: nat {:trigger StageOk(chains, stage', info, disk', sent, taken, done, seen', g)} ::
        g in chains ==> StageOk(chains, stage', info, disk', sent, taken, done, seen', g)
  {
    forall g: nat | g in chains ensures StageOk(chains, stage', info, disk', sent, taken, done, seen', g) {
      assert StageOk(chains, stage, info, disk, sent, taken, done, seen, g) && SameBuffer(chains, g, h);
    }
  }

  // The 16-bit indices wrap at a multiple of NUM.

  lemma SlotOf(n: nat)
    ensures n % U16 % NUM == n % NUM
  {
    var q := n / U16;
    assert n == n % U16 + (q * 8192) * NUM;
  }

  lemma NextIndex(n: nat)
    ensures (n % U16 + 1) % U16 == (n + 1) % U16
  {
  }

  lemma SlotsDiffer(a: nat, b: nat)
    requires a < b < a + NUM
    ensures a % NUM != b % NUM
  {
  }

  /** Equal indices mean equal counts. */
  lemma IndexTells(a: nat, b: nat)
    requires a <= b <= a + NUM
    ensures a % U16 == b % U16 <==> a == b
  {
  }

  /** A new chain of three free descriptors. */
  lemma AddKeeps(free: seq<bool>, owner: Owners, desc: seq<Desc>, ops: seq<Op>, chains: Chains, h: nat, c: Chain,
      free': seq<bool>, owner': Owners, desc': seq<Desc>)
    requires ChainsOk(free, owner, desc, ops, chains) && Three(free, h, c.second, c.third)
    requires free' == free[h := false][c.second := false][c.third := false]
        && owner' == owner[h := Some(h)][c.second := Some(h)][c.third := Some(h)]
    requires desc' == desc[h := Desc(Command(h), 16, true, false, c.second)]
                          [c.second := Desc(Data(c.b), BSIZE, true, !c.op.out, c.third)]
                          [c.third := Desc(Status(h), 1, false, true, 0)]
    ensures h !in chains && ChainsOk(free', owner', desc', ops[h := c.op], chains[h := c])
  {
    assert DescOk(free, owner, chains, h) && DescOk(free, owner, chains, c.second)
        && DescOk(free, owner, chains, c.third);
    assert h in chains ==> ChainOk(owner, desc, ops, chains, h);
    var ops', chains' := ops[h := c.op], chains[h := c];
    forall i: nat | i < NUM ensures DescOk(free', owner', chains', i) {
      assert DescOk(free, owner, chains, i);
    }
    forall g: nat | g in chains' ensures ChainOk(owner', desc', ops', chains', g) {
      if g != h { assert ChainOk(owner, desc, ops, chains, g); }
    }
  }

  /** The descriptors of a chain are free again. */
  lemma RemoveKeeps(free: seq<bool>, owner: Owners, desc: seq<Desc>, ops: seq<Op>, chains: Chains, h: nat,
      free': seq<bool>, owner': Owners, desc': seq<Desc>)
    requires ChainsOk(free, owner, desc, ops, chains) && h in chains && h < NUM && chains[h].second < NUM
        && chains[h].third < NUM && |desc'| == NUM
    requires free' == free[h := true][chains[h].second := true][chains[h].third := true]
    requires owner' == owner[h := None][chains[h].second := None][chains[h].third := None]
    requires forall i: nat :: i < NUM && !Member(chains[h], h, i) ==> desc'[i] == desc[i]
    ensures ChainsOk(free', owner', desc', ops, chains - {h})
  {
    assert ChainOk(owner, desc, ops, chains, h);
    var chains' := chains - {h};
    forall i: nat | i < NUM ensures DescOk(free', owner', chains', i) {
      assert DescOk(free, owner, chains, i);
    }
    forall g: nat | g in chains' ensures ChainOk(owner', desc', ops, chains', g) {
      assert ChainOk(owner, desc, ops, chains, g);
    }
  }

  /** The descriptors of chains are all that matters of desc. */
  lemma FreeDescsDoNotMatter(free: seq<bool>, owner: Owners, desc: seq<Desc>, ops: seq<Op>, chains: Chains,
      desc': seq<Desc>)
    requires ChainsOk(free, owner, desc, ops, chains) && |desc'| == NUM && forall i: nat :: i < NUM && !free[i] ==>
        desc'[i] == desc[i]
    ensures ChainsOk(free, owner, desc', ops, chains)
  {
    forall g: nat | g in chains ensures ChainOk(owner, desc', ops, chains, g) {
      assert ChainOk(owner, desc, ops, chains, g);
      var c := chains[g];
      assert DescOk(free, owner, chains, g) && DescOk(free, owner, chains, c.second)
          && DescOk(free, owner, chains, c.third);
    }
  }

  ghost function Elements(heads: seq<nat>): set<nat> { set x | x in heads }

  /** The heads of distinct chains, other than h, are fewer than NUM. */
  lemma FewHeads(heads: seq<nat>, h: nat)
    requires h < NUM && forall i :: 0 <= i < |heads| ==> heads[i] < NUM && heads[i] != h
    requires forall i, j :: 0 <= i < j < |heads| ==> heads[i] != heads[j]
    ensures |heads| < NUM
  {
    CountHeads(heads);
    AtMost(Elements(heads) + {h}, NUM);
  }

  lemma {:induction false} CountHeads(heads: seq<nat>)
    requires forall i, j :: 0 <= i < j < |heads| ==> heads[i] != heads[j]
    ensures |Elements(heads)| == |heads|
  {
    if heads != [] {
      var front, last := heads[..|heads| - 1], heads[|heads| - 1];
      CountHeads(front);
      assert heads == front + [last];
      assert Elements(heads) == Elements(front) + {last};
    }
  }

  lemma {:induction false} AtMost(s: set<nat>, m: nat)
    requires forall x :: x in s ==> x < m
    ensures |s| <= m
  {
    if m > 0 {
      AtMost(s - {m - 1}, m - 1);
    } else {
      assert s == {};
    }
  }

  ghost predicate Three(free: seq<bool>, a: nat, b: nat, c: nat) {
    a < |free| && b < |free| && c < |free| && a != b && a != c && b != c && free[a] && free[b] && free[c]
  }

  /** free is `was` without the descriptors in idx, which are the first free ones. */
  ghost predicate Taken(was: seq<bool>, free: seq<bool>, idx: seq<nat>) {
    && |was| == |free| == NUM && (forall j, l :: 0 <= j < l < |idx| ==> idx[j] != idx[l])
    && (forall j :: 0 <= j < |idx| ==> idx[j] < NUM && was[idx[j]])
    && (forall i: nat :: i < NUM ==> free[i] == (was[i] && i !in idx))
  }

  lemma TakenNext(was: seq<bool>, free: seq<bool>, idx: seq<nat>, r: nat)
    requires |free| == NUM && r < NUM && |was| == NUM
    requires exists f: seq<bool> :: Taken(was, f, idx) && f[r] && free == f[r := false]
    ensures Taken(was, free, idx + [r])
  {
    var f :| Taken(was, f, idx) && f[r] && free == f[r := false];
    assert r !in idx && was[r];
  }

  /** If no descriptor is left after fewer than three, there were not three. */
  lemma NotThree(was: seq<bool>, free: seq<bool>, idx: seq<nat>)
    requires Taken(was, free, idx) && |idx| < 3 && forall i :: 0 <= i < NUM ==> !free[i]
    ensures forall a: nat, b: nat, c: nat :: !Three(was, a, b, c)
  {
    forall a: nat, b: nat, c: nat ensures !Three(was, a, b, c) {
      assert a < NUM && was[a] ==> !free[a] && a in idx;
      assert b < NUM && was[b] ==> !free[b] && b in idx;
      assert c < NUM && was[c] ==> !free[c] && c in idx;
    }
  }
}
