/** The bookkeeping fields of one struct buf and what bget, bpin, brelse and bunpin do to
    them (kernel/bio.c). */
module BufferSlots {

  const NBUF := 30          // MAXOPBLOCKS * 3

  datatype Slot = Slot(valid: bool, dev: nat, blockno: nat, refcnt: nat)

  /** bget on a cached block, and bpin. */
  function Ref(t: Slot): (r: Slot) { t.(refcnt := t.refcnt + 1) }

  /** bget on a block that is not cached. */
  function Recycle(dev: nat, blockno: nat): (r: Slot) { Slot(false, dev, blockno, 1) }

  /** brelse and bunpin. */
  function Unref(t: Slot): (r: Slot)
    requires t.refcnt > 0
  { t.(refcnt := t.refcnt - 1) }
}
