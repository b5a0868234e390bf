/** What each call of pipewrite and piperead does to the stream of bytes (kernel/pipe.c). */
module PipeCalls {
  import opened Common
  import SleepWakeup
  import opened PipeBuffer
  import opened Pipes

  ghost predicate IsWrite(u: User) {
    u.Write? || u.WriteFull? || u.WriteSleep? || u.WriteEnd? || u.WriteDone? || u.WriteQuit?
  }

  ghost predicate IsCopy(u: User) { u.Copy? || u.ReadEnd? || u.ReadDone? }

  /** The bytes of xs that call c is responsible for, in order. */
  ghost function Part(xs: seq<byte>, who: seq<nat>, c: nat): seq<byte>
    requires |xs| == |who|
  {
    if xs == [] then []
    else
      var n := |xs| - 1;
      Part(xs[..n], who[..n], c) + if who[n] == c then [xs[n]] else []
  }

  lemma {:induction false} PartMore(xs: seq<byte>, who: seq<nat>, x: byte, b: nat, c: nat)
    requires |xs| == |who|
    ensures Part(xs + [x], who + [b], c) == Part(xs, who, c) + if b == c then [x] else []
  {
    assert (xs + [x])[..|xs|] == xs && (who + [b])[..|who|] == who;
  }

  lemma {:induction false} PartNone(xs: seq<byte>, who: seq<nat>, c: nat)
    requires |xs| == |who| && c !in who
    ensures Part(xs, who, c) == []
  {
    if xs != [] { PartNone(xs[..|xs| - 1], who[..|xs| - 1], c); }
  }

  /** The number of bytes that a piperead has taken out. */
  ghost function Taken(r: Reading): nat { |r.dst| + |r.lost| }

  /** A pipewrite has put in the first i bytes of its source. */
  ghost predicate WroteOk(put: seq<byte>, putBy: seq<nat>, u: User, c: nat) {
    && |put| == |putBy|
    && if !IsWrite(u) then c !in putBy
       else
         && u.w.i <= u.w.n && u.w.i <= |u.w.src| && Part(put, putBy, c) == u.w.src[..u.w.i]
         && (u.WriteEnd? || u.WriteDone? ==> u.w.i == u.w.n || u.w.i == |u.w.src|)
         && (u.WriteFull? || u.WriteSleep? || u.WriteQuit? ==> u.w.i < u.w.n)
  }

  /** A piperead has taken out consecutive bytes, and stored all of them but one that copyout
      could not store. */
  ghost predicate ReadOk(got: seq<byte>, gotBy: seq<nat>, u: User, c: nat) {
    && |got| == |gotBy|
    && if !IsCopy(u) then c !in gotBy
       else
         && u.r.start + Taken(u.r) <= |got| && |u.r.dst| <= u.r.n && |u.r.dst| <= u.r.room
         && got[u.r.start..u.r.start + Taken(u.r)] == u.r.dst + u.r.lost
         && (u.r.lost != [] ==> |u.r.lost| == 1 && |u.r.dst| == u.r.room < u.r.n)
         && forall k {:trigger gotBy[k]} :: 0 <= k < |got| ==>
              (gotBy[k] == c <==> u.r.start <= k < u.r.start + Taken(u.r))
  }

  ghost predicate CallOk(s: System, c: nat) {
    c < |s.calls| ==>
      WroteOk(s.m.data.put, s.putBy, s.calls[c], c) && ReadOk(s.m.data.got, s.gotBy, s.calls[c], c)
  }

  /** While it has the lock, a piperead is the last to have taken out bytes. It ends its loop
      when it has all, when there are no more, or at a byte it could not store, and it gets
      none only if there are no writers. */
  ghost predicate CopyOk(d: Pipe, u: User) {
    IsCopy(u) ==>
      && |d.got| == u.r.start + Taken(u.r)
      && (!u.Copy? ==> |u.r.dst| == u.r.n || u.r.lost != [] || Empty(d))
      && (Taken(u.r) == 0 && Empty(d) ==> !d.writeopen)
  }

  /** The latest call of each process is listed as it is. */
  ghost predicate CurOk(s: System, p: nat) {
    p < |s.users| && p < |s.cur| && !s.users[p].Idle? ==>
      s.cur[p] < |s.calls| && s.calls[s.cur[p]] == s.users[p] && CopyOk(s.m.data, s.users[p])
  }

  ghost predicate CurApart(s: System, p: nat, q: nat) {
    (p < |s.users| && q < |s.users| && p < |s.cur| && q < |s.cur| && p != q && !s.users[p].Idle? && !s.users[q].Idle?)
    ==> s.cur[p] != s.cur[q]
  }

  ghost predicate ByOk(s: System) {
    && |s.putBy| == |s.m.data.put| && |s.gotBy| == |s.m.data.got|
    && (forall k {:trigger s.putBy[k]} :: 0 <= k < |s.putBy| ==> s.putBy[k] < |s.calls|)
    && (forall k {:trigger s.gotBy[k]} :: 0 <= k < |s.gotBy| ==> s.gotBy[k] < |s.calls|)
  }

  ghost predicate Calls(s: System) {
    && ByOk(s)
    && (forall c: nat {:trigger CallOk(s, c)} :: CallOk(s, c))
    && (forall p: nat {:trigger CurOk(s, p)} :: CurOk(s, p))
    && (forall p: nat, q: nat {:trigger CurApart(s, p, q)} :: CurApart(s, p, q))
  }

  // ----- every step keeps it -----

  lemma CallKeeps(s: System, p: nat, u: User)
    requires Inv(s) && Calls(s) && Enabled(s, Call(p, u))
    ensures Calls(Take(s, Call(p, u)))
  {
    var s' := Take(s, Call(p, u));
    forall c: nat ensures CallOk(s', c) {
      assert CallOk(s, c);
      if c == |s.calls| { PartNone(s.m.data.put, s.putBy, c); }
    }
    forall q: nat ensures CurOk(s', q) { assert CurOk(s, q); }
    forall q: nat, r: nat ensures CurApart(s', q, r) { assert CurApart(s, q, r) && CurOk(s, q) && CurOk(s, r); }
  }

  lemma TurnKeeps(s: System, p: nat, u: User)
    requires Inv(s) && Calls(s) && Enabled(s, Turn(p, u))
    ensures Calls(Take(s, Turn(p, u)))
  {
    var s' := Take(s, Turn(p, u));
    assert CurOk(s, p) && CallOk(s, s.cur[p]);
    forall c: nat ensures CallOk(s', c) { assert CallOk(s, c); }
    forall q: nat ensures CurOk(s', q) { assert CurOk(s, q) && CurApart(s, p, q); }
    forall q: nat, r: nat ensures CurApart(s', q, r) { assert CurApart(s, q, r); }
  }

  ghost predicate Quiet(u: User, a: SleepWakeup.Step<Pipe>) {
    !Puts(u, a) && !Gets(u, a) && (a.WakeEnd? ==> u.WriteFull? || u.WriteEnd? || u.ReadEnd? || u.CloseEnd?)
  }

  /** Steps that move no byte. */
  lemma QuietAfter(s: System, u: User, a: SleepWakeup.Step<Pipe>, c: nat)
    requires Allows(s.m, u, a) && Quiet(u, a)
    requires WroteOk(s.m.data.put, s.putBy, u, c) && ReadOk(s.m.data.got, s.gotBy, u, c)
    ensures WroteOk(s.m.data.put, s.putBy, After(s.m, u, a), c) && ReadOk(s.m.data.got, s.gotBy, After(s.m, u, a), c)
  {
  }

  lemma QuietCall(s: System, a: SleepWakeup.Step<Pipe>, c: nat)
    requires Inv(s) && Calls(s) && Enabled(s, Do(a)) && Quiet(s.users[a.p], a)
    ensures CallOk(Take(s, Do(a)), c)
  {
    assert CallOk(s, c) && CurOk(s, a.p);
    var u := s.users[a.p];
    if c == s.cur[a.p] && !u.Idle? { QuietAfter(s, u, a, c); }
  }

  lemma PutCall(s: System, a: SleepWakeup.Step<Pipe>, c: nat)
    requires Inv(s) && Calls(s) && Enabled(s, Do(a)) && Puts(s.users[a.p], a)
    ensures CallOk(Take(s, Do(a)), c)
  {
    assert CallOk(s, c) && CurOk(s, a.p);
    var w := s.users[a.p].w;
    PartMore(s.m.data.put, s.putBy, w.src[w.i], s.cur[a.p], c);
    assert w.src[..w.i + 1] == w.src[..w.i] + [w.src[w.i]];
  }

  /** Another call takes out a byte. */
  lemma OtherReads(got: seq<byte>, gotBy: seq<nat>, u: User, c: nat, b: byte, o: nat)
    requires ReadOk(got, gotBy, u, c) && o != c
    ensures ReadOk(got + [b], gotBy + [o], u, c)
  {
    if IsCopy(u) {
      var i, j := u.r.start, u.r.start + Taken(u.r);
      assert (got + [b])[i..j] == got[i..j];
    }
  }

  /** The call takes out one more byte itself. */
  lemma ReadsMore(got: seq<byte>, gotBy: seq<nat>, r: Reading, c: nat, b: byte)
    requires ReadOk(got, gotBy, Copy(r), c) && |got| == r.start + Taken(r) && |r.dst| < r.n && r.lost == []
    ensures ReadOk(got + [b], gotBy + [c], Copy(Stored(r, b)), c)
  {
    var r' := Stored(r, b);
    assert (got + [b])[r.start..] == got[r.start..] + [b];
    assert got[r.start..] == r.dst;
    assert (got + [b])[r.start..r.start + Taken(r')] == (got + [b])[r.start..];
    assert r'.dst + r'.lost == r.dst + [b];
  }

  lemma GetCall(s: System, a: SleepWakeup.Step<Pipe>, c: nat)
    requires Inv(s) && Calls(s) && Enabled(s, Do(a)) && Gets(s.users[a.p], a)
    ensures CallOk(Take(s, Do(a)), c)
  {
    assert CallOk(s, c) && CurOk(s, a.p);
    if c == s.cur[a.p] {
      ReadsMore(s.m.data.got, s.gotBy, s.users[a.p].r, c, NextOut(s.m.data));
    } else if c < |s.calls| {
      OtherReads(s.m.data.got, s.gotBy, s.calls[c], c, NextOut(s.m.data), s.cur[a.p]);
    }
  }

  lemma DoCur(s: System, a: SleepWakeup.Step<Pipe>, q: nat)
    requires Inv(s) && Calls(s) && Enabled(s, Do(a))
    ensures CurOk(Take(s, Do(a)), q)
  {
    assert CurOk(s, a.p) && CurOk(s, q) && CurApart(s, a.p, q);
    assert UserOk(s, a.p) && SleepWakeup.ThreadOk(s.m, a.p);
    if q < |s.users| { assert UserOk(s, q) && SleepWakeup.ThreadOk(s.m, q); }
  }

  lemma DoKeeps(s: System, a: SleepWakeup.Step<Pipe>)
    requires Inv(s) && Calls(s) && Enabled(s, Do(a))
    ensures Calls(Take(s, Do(a)))
  {
    var s' := Take(s, Do(a));
    var u := s.users[a.p];
    assert CurOk(s, a.p) && UserOk(s, a.p);
    forall c: nat ensures CallOk(s', c) {
      if Puts(u, a) { PutCall(s, a, c); } else if Gets(u, a) { GetCall(s, a, c); } else { QuietCall(s, a, c); }
    }
    forall q: nat ensures CurOk(s', q) { DoCur(s, a, q); }
    forall q: nat, r: nat ensures CurApart(s', q, r) { assert CurApart(s, q, r); }
  }

  lemma {:induction false} RunCalls(ss: seq<System>, k: nat)
    requires IsRun(ss) && k < |ss|
    ensures Calls(ss[k])
  {
    if k > 0 {
      RunCalls(ss, k - 1);
      RunInv(ss, k - 1);
      assert NextAt(ss, k - 1);
      var s := ss[k - 1];
      var e :| Enabled(s, e) && ss[k] == Take(s, e);
      match e {
        case Call(p, u) => CallKeeps(s, p, u);
        case Turn(p, u) => TurnKeeps(s, p, u);
        case Do(a) => DoKeeps(s, a);
      }
    }
  }

  // ----- what a caller gets -----

  /** In every state of every run, the bytes that a pipewrite has put in are exactly the first
      i of its source, in order; when it ends, i is n or the end of what can be read, and it
      gives up only before n. */
  lemma WriterBytes(ss: seq<System>, k: nat, c: nat)
    requires IsRun(ss) && k < |ss| && c < |ss[k].calls| && IsWrite(ss[k].calls[c])
    ensures var s := ss[k];
            var w := s.calls[c].w;
            && |s.putBy| == |s.m.data.put| && w.i <= |w.src| && Part(s.m.data.put, s.putBy, c) == w.src[..w.i]
            && w.i <= w.n
            && (s.calls[c].WriteEnd? || s.calls[c].WriteDone? ==> w.i == w.n || w.i == |w.src|)
            && (s.calls[c].WriteQuit? ==> w.i < w.n)
  {
    RunCalls(ss, k);
    assert CallOk(ss[k], c);
  }

  /** Every byte that went in was put in by a pipewrite, and every byte that came out was taken
      by a piperead. */
  lemma EveryByteByOne(ss: seq<System>, k: nat, i: nat)
    requires IsRun(ss) && k < |ss|
    ensures var s := ss[k];
            && |s.putBy| == |s.m.data.put| && |s.gotBy| == |s.m.data.got|
            && (i < |s.putBy| ==> s.putBy[i] < |s.calls| && IsWrite(s.calls[s.putBy[i]]))
            && (i < |s.gotBy| ==> s.gotBy[i] < |s.calls| && IsCopy(s.calls[s.gotBy[i]]))
  {
    RunCalls(ss, k);
    var s := ss[k];
    if i < |s.putBy| { assert CallOk(s, s.putBy[i]); }
    if i < |s.gotBy| { assert CallOk(s, s.gotBy[i]); }
  }

  /** A piperead has taken the bytes that follow each other in the pipe from byte number start
      on, no other call has taken any of them, and it has stored them in order. One is lost
      only when copyout cannot store it. */
  lemma ReaderBytes(ss: seq<System>, k: nat, c: nat)
    requires IsRun(ss) && k < |ss| && c < |ss[k].calls| && IsCopy(ss[k].calls[c])
    ensures var s := ss[k];
            var r := s.calls[c].r;
            && |s.gotBy| == |s.m.data.got| && r.start + Taken(r) <= |s.m.data.got| <= |s.m.data.put|
            && s.m.data.put[r.start..r.start + Taken(r)] == r.dst + r.lost
            && (forall i {:trigger s.gotBy[i]} :: 0 <= i < |s.gotBy| ==>
                  (s.gotBy[i] == c <==> r.start <= i < r.start + Taken(r)))
            && |r.dst| <= r.n && (r.lost != [] ==> |r.lost| == 1 && |r.dst| == r.room < r.n)
  {
    RunCalls(ss, k);
    InOrder(ss, k);
    assert CallOk(ss[k], c);
    var r, d := ss[k].calls[c].r, ss[k].m.data;
    assert d.put[r.start..r.start + Taken(r)] == d.got[r.start..r.start + Taken(r)];
  }

  /** A piperead that is about to return has n bytes, or has emptied the pipe, or has lost a
      byte. It has none, although n is not 0 and a byte could be stored, only at the end of the
      stream: the pipe is empty and there are no writers. */
  lemma ReadReturns(ss: seq<System>, k: nat, p: nat)
    requires IsRun(ss) && k < |ss| && p < |ss[k].users| && (ss[k].users[p].ReadEnd? || ss[k].users[p].ReadDone?)
    ensures var d := ss[k].m.data;
            var r := ss[k].users[p].r;
            && |d.got| == r.start + Taken(r) && (|r.dst| == r.n || r.lost != [] || |d.put| == |d.got|)
            && (r.dst == [] && r.n > 0 && r.room > 0 ==> |d.put| == |d.got| && !d.writeopen)
  {
    RunCalls(ss, k);
    RunInv(ss, k);
    assert CurOk(ss[k], p) && CallOk(ss[k], ss[k].cur[p]);
    CountersTell(ss[k].m.data);
  }
}
