/** The ring buffer of a pipe (kernel/pipe.c), with counters of 32 bits. */
module PipeBuffer {
  const PIPESIZE: nat := 512
  const U32: nat := 0x1_0000_0000

  newtype byte = x: int | 0 <= x < 256

  /** struct pipe without its lock, and the bytes that went in and came out so far. */
  datatype Pipe = Pipe(data: seq<byte>, nread: nat, nwrite: nat, readopen: bool, writeopen: bool, put: seq<byte>,
      got: seq<byte>)

  predicate Empty(d: Pipe) { d.nread == d.nwrite }

  predicate Full(d: Pipe) { d.nwrite == (d.nread + PIPESIZE) % U32 }

  function Put(d: Pipe, b: byte): Pipe
    requires |d.data| == PIPESIZE
  {
    d.(data := d.data[d.nwrite % PIPESIZE := b], nwrite := (d.nwrite + 1) % U32, put := d.put + [b])
  }

  function NextOut(d: Pipe): byte
    requires |d.data| == PIPESIZE
  {
    d.data[d.nread % PIPESIZE]
  }

  function Get(d: Pipe): Pipe
    requires |d.data| == PIPESIZE
  {
    d.(nread := (d.nread + 1) % U32, got := d.got + [NextOut(d)])
  }

  ghost predicate Slot(d: Pipe, k: nat) { |d.data| == PIPESIZE && k < |d.put| && d.data[k % PIPESIZE] == d.put[k] }

  /** The bytes that came out are the first ones that went in, at most PIPESIZE are in the
      buffer, and the counters are the numbers of bytes modulo 2^32. */
  ghost predicate Fifo(d: Pipe) {
    && |d.data| == PIPESIZE && d.nread == |d.got| % U32 && d.nwrite == |d.put| % U32
    && d.got <= d.put && |d.put| <= |d.got| + PIPESIZE
    && forall k: nat {:trigger Slot(d, k)} :: |d.got| <= k < |d.put| ==> Slot(d, k)
  }

  /** Although the counters wrap, comparing them tells an empty and a full buffer exactly. */
  lemma CountersTell(d: Pipe)
    requires Fifo(d)
    ensures Empty(d) <==> |d.put| == |d.got|
    ensures Full(d) <==> |d.put| == |d.got| + PIPESIZE
  {
    WrapDistinct(|d.got|, |d.put|);
    WrapAdds(|d.got|);
    WrapDistinct(|d.put|, |d.got| + PIPESIZE);
  }

  lemma WrapAdds(n: nat)
    ensures (n % U32 + PIPESIZE) % U32 == (n + PIPESIZE) % U32
  {
  }

  lemma WrapDistinct(a: nat, b: nat)
    requires a <= b <= a + PIPESIZE
    ensures a % U32 == b % U32 <==> a == b
  {
  }

  lemma NextCounter(n: nat)
    ensures (n % U32 + 1) % U32 == (n + 1) % U32
  {
  }

  /** The slot for byte number n, found from its counter. */
  lemma SlotOfCounter(n: nat)
    ensures n % U32 % PIPESIZE == n % PIPESIZE
  {
    var q := n / U32;
    assert n == n % U32 + q * U32;
    assert U32 == 8388608 * PIPESIZE;
    assert n == n % U32 + (q * 8388608) * PIPESIZE;
  }

  lemma SlotsDistinct(a: nat, b: nat)
    requires a < b < a + PIPESIZE
    ensures a % PIPESIZE != b % PIPESIZE
  {
  }

  lemma PutKeeps(d: Pipe, b: byte)
    requires Fifo(d) && !Full(d)
    ensures Fifo(Put(d, b)) && Put(d, b).put == d.put + [b] && Put(d, b).got == d.got
  {
    var d' := Put(d, b);
    CountersTell(d);
    SlotOfCounter(|d.put|);
    forall k: nat | |d'.got| <= k < |d'.put| ensures Slot(d', k) {
      if k < |d.put| {
        assert Slot(d, k);
        SlotsDistinct(k, |d.put|);
      }
    }
    NextCounter(|d.put|);
  }

  lemma GetKeeps(d: Pipe)
    requires Fifo(d) && !Empty(d)
    ensures Fifo(Get(d)) && Get(d).put == d.put && Get(d).got == d.put[..|d.got| + 1]
  {
    var d' := Get(d);
    CountersTell(d);
    SlotOfCounter(|d.got|);
    assert Slot(d, |d.got|);
    forall k: nat | |d'.got| <= k < |d'.put| ensures Slot(d', k) {
      assert Slot(d, k);
    }
    NextCounter(|d.got|);
  }
}
