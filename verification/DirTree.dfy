/** What holds of directories and link counts, and the changes that keep it (kernel/sysfile.c). */
module DirTree {
  import opened DirEntries

  const ROOTINO: nat := 1

  type Dirs = seq<seq<Entry>>

  /** The directories whose entries count. */
  ghost function LiveDirs(kind: seq<Kind>, nlink: seq<int>): (r: seq<bool>)
    requires |kind| == |nlink|
    ensures |r| == |kind| && forall d {:trigger r[d]} :: 0 <= d < |r| ==> r[d] == (kind[d] == Directory && nlink[d] > 0)
  {
    seq(|kind|, d requires 0 <= d < |kind| => kind[d] == Directory && nlink[d] > 0)
  }

  /** The link count of inode i is the number of its names, and of link calls in progress. */
  ghost predicate CountOk(kind: seq<Kind>, nlink: seq<int>, dirs: Dirs, live: seq<bool>, pending: seq<nat>, i: nat) {
    && |kind| == |nlink| == |dirs| == |live| == |pending| && 0 < i < |kind|
    && nlink[i] == Total(dirs, live, i) + pending[i] && (kind[i] == NoFile ==> nlink[i] == 0 && dirs[i] == [])
        && (kind[i] == Directory ==> pending[i] == 0)
  }

  /** "." and ".." are the first two entries; no name is there twice; every entry is for an
      inode in use. */
  ghost predicate DirOk(kind: seq<Kind>, dirs: Dirs, live: seq<bool>, up: seq<nat>, d: nat) {
    && |kind| == |dirs| == |live| == |up| && d < |kind|
    && (live[d] ==>
        |dirs[d]| >= 2 && dirs[d][0] == Entry(d, ".") && dirs[d][1] == Entry(up[d], "..") && Unique(dirs[d]))
    && (kind[d] == Directory ==> forall k {:trigger dirs[d][k]} :: 0 <= k < |dirs[d]| ==>
        dirs[d][k].inum < |kind| && (live[d] && dirs[d][k].inum != 0 ==> kind[dirs[d][k].inum] != NoFile))
    && (kind[d] == Directory && !live[d] ==> forall k {:trigger dirs[d][k]} ::
        0 <= k < |dirs[d]| && dirs[d][k].inum != 0 ==> k < 2 && (dirs[d][k].name == "." || dirs[d][k].name == ".."))
  }

  /** A live directory but the root is named, besides by "." and "..", by the entry at its slot
      in its parent, one level up. */
  ghost predicate TreeOk(dirs: Dirs, live: seq<bool>, up: seq<nat>, depth: seq<nat>, slot: seq<nat>, d: nat) {
    && |dirs| == |live| == |up| == |depth| == |slot| && d < |dirs|
    && (live[d] && d != ROOTINO ==>
        up[d] < |dirs| && live[up[d]] && depth[d] == depth[up[d]] + 1 && 2 <= slot[d] < |dirs[up[d]]|
        && dirs[up[d]][slot[d]].inum == d)
  }

  /** An entry for a directory is the one at that directory's slot. */
  ghost predicate EntryOk(kind: seq<Kind>, dirs: Dirs, live: seq<bool>, up: seq<nat>, slot: seq<nat>, p: nat, k: nat) {
    && |kind| == |dirs| == |live| == |up| == |slot| && p < |dirs|
    && (live[p] && 2 <= k < |dirs[p]| && 0 < dirs[p][k].inum < |kind| && kind[dirs[p][k].inum] == Directory ==>
          dirs[p][k].inum != ROOTINO && up[dirs[p][k].inum] == p && slot[dirs[p][k].inum] == k)
  }

  ghost predicate Good(kind: seq<Kind>, nlink: seq<int>, dirs: Dirs, live: seq<bool>, up: seq<nat>, depth: seq<nat>,
      slot: seq<nat>, pending: seq<nat>) {
    && |kind| == |nlink| == |dirs| == |live| == |up| == |depth| == |slot| == |pending| && ROOTINO < |kind|
    && live == LiveDirs(kind, nlink) && live[ROOTINO] && up[ROOTINO] == ROOTINO && kind[0] == NoFile && nlink[0] == 0
    && (forall i: nat {:trigger CountOk(kind, nlink, dirs, live, pending, i)} :: 0 < i < |kind| ==>
        CountOk(kind, nlink, dirs, live, pending, i))
    && (forall d: nat {:trigger DirOk(kind, dirs, live, up, d)} :: d < |kind| ==> DirOk(kind, dirs, live, up, d))
    && (forall d: nat {:trigger TreeOk(dirs, live, up, depth, slot, d)} :: d < |kind| ==>
        TreeOk(dirs, live, up, depth, slot, d))
    && (forall p: nat, k: nat {:trigger EntryOk(kind, dirs, live, up, slot, p, k)} :: p < |kind| ==>
        EntryOk(kind, dirs, live, up, slot, p, k))
  }

  /** The first empty slot, or the end. */
  ghost predicate FirstEmpty(es: seq<Entry>, off: nat) {
    off <= |es| && (off < |es| ==> es[off].inum == 0) && forall k :: 0 <= k < off ==> es[k].inum != 0
  }

  // ----- counts -----

  lemma TotalPut(dirs: Dirs, live: seq<bool>, dp: nat, off: nat, e: Entry, i: nat)
    requires dp < |dirs| == |live| && live[dp] && 0 < off <= |dirs[dp]|
        && (off < |dirs[dp]| ==> dirs[dp][off].inum == 0) && i != 0
    ensures Total(dirs[dp := Put(dirs[dp], off, e)], live, i) == Total(dirs, live, i) + One(e.inum == i)
  {
    NamesPut(dirs[dp], off, e, i);
    TotalChange(dirs, live, dirs[dp := Put(dirs[dp], off, e)], live, i, dp, |dirs|);
  }

  lemma TotalClear(dirs: Dirs, live: seq<bool>, dp: nat, off: nat, i: nat)
    requires dp < |dirs| == |live| && live[dp] && 0 < off < |dirs[dp]| && i != 0
    ensures Total(dirs[dp := dirs[dp][off := Entry(0, "")]], live, i) + One(dirs[dp][off].inum == i)
            == Total(dirs, live, i)
  {
    NamesReplace(dirs[dp], off, Entry(0, ""), i, |dirs[dp]|);
    TotalChange(dirs, live, dirs[dp := dirs[dp][off := Entry(0, "")]], live, i, dp, |dirs|);
  }

  /** A new name in a directory does not clash with those there. */
  lemma PutKeepsUnique(es: seq<Entry>, off: nat, inum: nat, name: string)
    requires Unique(es) && FirstEmpty(es, off) && Absent(es, name)
    ensures Unique(Put(es, off, Entry(inum, Short(name))))
  {
    var fs := Put(es, off, Entry(inum, Short(name)));
    ShortTwice(name);
    forall j: nat, k: nat | j < |fs| && fs[j].inum != 0 && Matches(fs, fs[j].name, k) ensures j == k {
      if j != off && k != off {
        assert Matches(es, es[j].name, k);
      } else if j != k {
        assert Matches(es, name, if j == off then k else j);
      }
    }
  }

  lemma ClearKeepsUnique(es: seq<Entry>, off: nat)
    requires Unique(es) && off < |es|
    ensures Unique(es[off := Entry(0, "")])
  {
    var fs := es[off := Entry(0, "")];
    forall j: nat, k: nat | j < |fs| && fs[j].inum != 0 && Matches(fs, fs[j].name, k) ensures j == k {
      assert Matches(es, es[j].name, k);
    }
  }

  // ----- links to files -----

  datatype Fs = Fs(kind: seq<Kind>, nlink: seq<int>, dirs: Dirs, up: seq<nat>, depth: seq<nat>, slot: seq<nat>,
      pending: seq<nat>)

  ghost function Live(f: Fs): (r: seq<bool>)
    requires |f.kind| == |f.nlink|
    ensures |r| == |f.kind|
    ensures forall d {:trigger r[d]} :: 0 <= d < |r| ==> r[d] == (f.kind[d] == Directory && f.nlink[d] > 0)
  {
    LiveDirs(f.kind, f.nlink)
  }

  /** Link counts, names, dot entries and the tree are right. */
  ghost predicate Sound(f: Fs) {
    |f.kind| == |f.nlink| && Good(f.kind, f.nlink, f.dirs, Live(f), f.up, f.depth, f.slot, f.pending)
  }

  lemma Look(f: Fs, i: nat)
    requires Sound(f) && i < |f.kind|
    ensures i > 0 ==> CountOk(f.kind, f.nlink, f.dirs, Live(f), f.pending, i)
    ensures DirOk(f.kind, f.dirs, Live(f), f.up, i) && TreeOk(f.dirs, Live(f), f.up, f.depth, f.slot, i)
    ensures forall k: nat :: EntryOk(f.kind, f.dirs, Live(f), f.up, f.slot, i, k)
  {
    if i > 0 { assert CountOk(f.kind, f.nlink, f.dirs, Live(f), f.pending, i); }
    assert DirOk(f.kind, f.dirs, Live(f), f.up, i) && TreeOk(f.dirs, Live(f), f.up, f.depth, f.slot, i);
  }

  lemma LinksOf(f: Fs, i: nat)
    requires Sound(f) && 0 < i < |f.kind|
    ensures f.nlink[i] == Total(f.dirs, Live(f), i) + f.pending[i]
  {
    Look(f, i);
  }

  lemma FreeInode(f: Fs, i: nat)
    requires Sound(f) && 0 < i < |f.kind| && f.kind[i] == NoFile
    ensures f.nlink[i] == 0 && f.dirs[i] == []
  {
    Look(f, i);
  }

  /** An inode that is not a directory gains or loses a link that is not a name yet. */
  lemma PendingKeeps(f: Fs, i: nat, n: nat, p: nat)
    requires Sound(f) && 0 < i < |f.kind| && f.kind[i] != NoFile && f.kind[i] != Directory
        && n == Total(f.dirs, Live(f), i) + p
    ensures Sound(f.(nlink := f.nlink[i := n], pending := f.pending[i := p]))
  {
    var g := f.(nlink := f.nlink[i := n], pending := f.pending[i := p]);
    assert Live(g) == Live(f);
    forall x: nat | 0 < x < |g.kind| ensures CountOk(g.kind, g.nlink, g.dirs, Live(g), g.pending, x) {
      Look(f, x);
    }
  }

  /** The kind of an inode without names or links changes, and it has no contents. */
  lemma KindKeeps(f: Fs, i: nat, kd: Kind)
    requires Sound(f) && 0 < i < |f.kind| && f.nlink[i] == 0 && kd != Directory
    ensures Sound(f.(kind := f.kind[i := kd], dirs := f.dirs[i := []]))
  {
    var g := f.(kind := f.kind[i := kd], dirs := f.dirs[i := []]);
    assert Live(g) == Live(f);
    Look(f, i);
    forall x: nat | 0 < x < |g.kind| ensures CountOk(g.kind, g.nlink, g.dirs, Live(g), g.pending, x) {
      Look(f, x);
      TotalPrefix(f.dirs, Live(f), g.dirs, Live(g), x, |f.dirs|);
    }
    forall d: nat | d < |g.kind| ensures DirOk(g.kind, g.dirs, Live(g), g.up, d)
        && TreeOk(g.dirs, Live(g), g.up, g.depth, g.slot, d) {
      Look(f, d);
      if Live(f)[d] {
        forall k | 0 <= k < |f.dirs[d]| ensures f.dirs[d][k].inum != i {
          NotNamed(f, i, d, k);
        }
        if d != ROOTINO { assert Live(f)[f.up[d]]; }
      }
    }
    forall p: nat, k: nat | p < |g.kind| ensures EntryOk(g.kind, g.dirs, Live(g), g.up, g.slot, p, k) {
      assert EntryOk(f.kind, f.dirs, Live(f), f.up, f.slot, p, k);
    }
  }

  /** Nothing names an inode without links. */
  lemma NotNamed(f: Fs, i: nat, d: nat, k: nat)
    requires Sound(f) && 0 < i < |f.kind| && f.nlink[i] == 0 && d < |f.dirs| && Live(f)[d] && k < |f.dirs[d]|
    ensures f.dirs[d][k].inum != i
  {
    Look(f, i);
    Look(f, d);
    if k > 0 && f.dirs[d][k].inum == i { TotalPositive(f.dirs, Live(f), i, d, k, |f.dirs|); }
  }

  /** The empty slot found in a live directory is after "..". */
  lemma SlotAfterDots(f: Fs, dp: nat, off: nat)
    requires Sound(f) && dp < |f.kind| && Live(f)[dp] && FirstEmpty(f.dirs[dp], off)
    ensures off >= 2
  {
    Look(f, dp);
  }

  /** A pending link to a file becomes a name. */
  lemma NameKeeps(f: Fs, dp: nat, off: nat, i: nat, name: string)
    requires Sound(f) && dp < |f.kind| && Live(f)[dp] && FirstEmpty(f.dirs[dp], off) && Absent(f.dirs[dp], name)
    requires 0 < i < |f.kind| && f.kind[i] != NoFile && f.kind[i] != Directory && f.pending[i] > 0
    ensures Sound(f.(dirs := f.dirs[dp := Put(f.dirs[dp], off, Entry(i, Short(name)))],
        pending := f.pending[i := f.pending[i] - 1]))
  {
    var e := Entry(i, Short(name));
    var g := f.(dirs := f.dirs[dp := Put(f.dirs[dp], off, e)], pending := f.pending[i := f.pending[i] - 1]);
    assert Live(g) == Live(f);
    SlotAfterDots(f, dp, off);
    Look(f, dp);
    PutKeepsUnique(f.dirs[dp], off, i, name);
    forall x: nat | 0 < x < |g.kind| ensures CountOk(g.kind, g.nlink, g.dirs, Live(g), g.pending, x) {
      Look(f, x);
      TotalPut(f.dirs, Live(f), dp, off, e, x);
    }
    forall d: nat | d < |g.kind| ensures DirOk(g.kind, g.dirs, Live(g), g.up, d) {
      Look(f, d);
    }
    forall d: nat | d < |g.kind| ensures TreeOk(g.dirs, Live(g), g.up, g.depth, g.slot, d) {
      Look(f, d);
    }
    forall p: nat, k: nat | p < |g.kind| ensures EntryOk(g.kind, g.dirs, Live(g), g.up, g.slot, p, k) {
      assert EntryOk(f.kind, f.dirs, Live(f), f.up, f.slot, p, k);
    }
  }

  /** The state once the name of a file at slot off of dp goes away, and a link with it. */
  ghost function Unnamed(f: Fs, dp: nat, off: nat): (g: Fs)
    requires |f.kind| == |f.nlink| == |f.dirs| && dp < |f.kind| && off < |f.dirs[dp]|
    requires f.dirs[dp][off].inum < |f.kind| && f.nlink[f.dirs[dp][off].inum] > 0
  {
    f.(dirs := f.dirs[dp := f.dirs[dp][off := Entry(0, "")]],
        nlink := f.nlink[f.dirs[dp][off].inum := f.nlink[f.dirs[dp][off].inum] - 1])
  }

  lemma UnnameTree(f: Fs, dp: nat, off: nat, d: nat)
    requires Sound(f) && dp < |f.kind| && Live(f)[dp] && 2 <= off < |f.dirs[dp]| && 0 < f.dirs[dp][off].inum < |f.kind|
        && d < |f.kind|
    requires f.kind[f.dirs[dp][off].inum] != Directory && f.nlink[f.dirs[dp][off].inum] > 0
    ensures var g := Unnamed(f, dp, off);
            DirOk(g.kind, g.dirs, Live(g), g.up, d) && TreeOk(g.dirs, Live(g), g.up, g.depth, g.slot, d)
  {
    var g := Unnamed(f, dp, off);
    assert Live(g) == Live(f);
    Look(f, d);
    Look(f, dp);
    ClearKeepsUnique(f.dirs[dp], off);
  }

  lemma UnnameKeeps(f: Fs, dp: nat, off: nat)
    requires Sound(f) && dp < |f.kind| && Live(f)[dp] && 2 <= off < |f.dirs[dp]| && 0 < f.dirs[dp][off].inum < |f.kind|
        && f.kind[f.dirs[dp][off].inum] != Directory
    ensures f.nlink[f.dirs[dp][off].inum] > 0 && Sound(Unnamed(f, dp, off))
  {
    var i := f.dirs[dp][off].inum;
    Look(f, i);
    TotalPositive(f.dirs, Live(f), i, dp, off, |f.dirs|);
    var g := Unnamed(f, dp, off);
    assert Live(g) == Live(f);
    forall x: nat | 0 < x < |g.kind| ensures CountOk(g.kind, g.nlink, g.dirs, Live(g), g.pending, x) {
      Look(f, x);
      TotalClear(f.dirs, Live(f), dp, off, x);
    }
    forall d: nat | d < |g.kind| ensures DirOk(g.kind, g.dirs, Live(g), g.up, d)
        && TreeOk(g.dirs, Live(g), g.up, g.depth, g.slot, d) {
      UnnameTree(f, dp, off, d);
    }
    forall p: nat, k: nat | p < |g.kind| ensures EntryOk(g.kind, g.dirs, Live(g), g.up, g.slot, p, k) {
      assert EntryOk(f.kind, f.dirs, Live(f), f.up, f.slot, p, k);
    }
  }

  // ----- directories come and go -----

  ghost function Dots(np: nat, dp: nat): seq<Entry> { [Entry(np, "."), Entry(dp, "..")] }

  /** A directory with nothing but "." and ".." contributes its "..". */
  lemma NamesOfEmpty(es: seq<Entry>, x: nat)
    requires |es| >= 2 && x != 0 && forall k :: 2 <= k < |es| ==> es[k].inum == 0
    ensures Names(es, x) == One(es[1].inum == x)
  {
    NamesOfEmptyTo(es, x, |es|);
  }

  lemma {:induction false} NamesOfEmptyTo(es: seq<Entry>, x: nat, n: nat)
    requires 2 <= n <= |es| && x != 0 && forall k :: 2 <= k < |es| ==> es[k].inum == 0
    ensures NamesTo(es, x, n) == One(es[1].inum == x)
  {
    if n > 2 { NamesOfEmptyTo(es, x, n - 1); }
  }

  lemma TotalWithDots(dirs: Dirs, live: seq<bool>, np: nat, dp: nat, x: nat)
    requires np < |dirs| == |live| && !live[np] && x != 0
    ensures Total(dirs[np := Dots(np, dp)], live[np := true], x) == Total(dirs, live, x) + One(dp == x)
  {
    NamesOfEmpty(Dots(np, dp), x);
    TotalChange(dirs, live, dirs[np := Dots(np, dp)], live[np := true], x, np, |dirs|);
  }

  /** The state once directory np is made in dp at slot off. */
  ghost function WithDir(f: Fs, dp: nat, off: nat, np: nat, name: string): (g: Fs)
    requires |f.kind| == |f.nlink| == |f.dirs| == |f.up| == |f.depth| == |f.slot| && dp < |f.kind| && np < |f.kind| &&
    off <= |f.dirs[dp]|
  {
    f.(kind := f.kind[np := Directory], nlink := f.nlink[np := 1][dp := f.nlink[dp] + 1],
       dirs := f.dirs[np := Dots(np, dp)][dp := Put(f.dirs[dp], off, Entry(np, Short(name)))],
       up := f.up[np := dp], depth := f.depth[np := f.depth[dp] + 1], slot := f.slot[np := off])
  }

  lemma MakeDirCounts(f: Fs, dp: nat, off: nat, np: nat, name: string, x: nat)
    requires Sound(f) && dp < |f.kind| && Live(f)[dp] && FirstEmpty(f.dirs[dp], off)
    requires 0 < np < |f.kind| && f.kind[np] == NoFile && 0 < x < |f.kind|
    ensures var g := WithDir(f, dp, off, np, name); CountOk(g.kind, g.nlink, g.dirs, Live(g), g.pending, x)
  {
    var g := WithDir(f, dp, off, np, name);
    SlotAfterDots(f, dp, off);
    Look(f, np);
    Look(f, x);
    assert Live(g) == Live(f)[np := true];
    TotalWithDots(f.dirs, Live(f), np, dp, x);
    TotalPut(f.dirs[np := Dots(np, dp)], Live(g), dp, off, Entry(np, Short(name)), x);
  }

  lemma MakeDirTree(f: Fs, dp: nat, off: nat, np: nat, name: string, d: nat)
    requires Sound(f) && dp < |f.kind| && Live(f)[dp] && FirstEmpty(f.dirs[dp], off) && Absent(f.dirs[dp], name)
    requires 0 < np < |f.kind| && f.kind[np] == NoFile && d < |f.kind|
    ensures var g := WithDir(f, dp, off, np, name);
            DirOk(g.kind, g.dirs, Live(g), g.up, d) && TreeOk(g.dirs, Live(g), g.up, g.depth, g.slot, d)
  {
    var g := WithDir(f, dp, off, np, name);
    SlotAfterDots(f, dp, off);
    Look(f, dp);
    Look(f, np);
    Look(f, d);
    PutKeepsUnique(f.dirs[dp], off, np, name);
    assert Live(g) == Live(f)[np := true];
    if d == np {
      assert g.dirs[np] == Dots(np, dp);
      assert "."[0] == '.' && |"."| == 1 && |".."| == 2;
    }
  }

  lemma MakeDirKeeps(f: Fs, dp: nat, off: nat, np: nat, name: string)
    requires Sound(f) && dp < |f.kind| && Live(f)[dp] && FirstEmpty(f.dirs[dp], off) && Absent(f.dirs[dp], name)
    requires 0 < np < |f.kind| && f.kind[np] == NoFile
    ensures Sound(WithDir(f, dp, off, np, name))
  {
    var g := WithDir(f, dp, off, np, name);
    SlotAfterDots(f, dp, off);
    Look(f, np);
    assert Live(g) == Live(f)[np := true];
    forall x: nat | 0 < x < |g.kind| ensures CountOk(g.kind, g.nlink, g.dirs, Live(g), g.pending, x) {
      MakeDirCounts(f, dp, off, np, name, x);
    }
    forall d: nat | d < |g.kind| ensures DirOk(g.kind, g.dirs, Live(g), g.up, d)
        && TreeOk(g.dirs, Live(g), g.up, g.depth, g.slot, d) {
      MakeDirTree(f, dp, off, np, name, d);
    }
    forall p: nat, k: nat | p < |g.kind| ensures EntryOk(g.kind, g.dirs, Live(g), g.up, g.slot, p, k) {
      assert EntryOk(f.kind, f.dirs, Live(f), f.up, f.slot, p, k);
      if Live(f)[p] && k < |f.dirs[p]| { NotNamed(f, np, p, k); }
    }
  }

  ghost predicate EmptyDir(es: seq<Entry>) { forall k :: 2 <= k < |es| ==> es[k].inum == 0 }

  lemma {:induction false} TotalNone(dirs: Dirs, live: seq<bool>, i: nat, n: nat)
    requires n <= |dirs| == |live| && forall d: nat, k: nat :: d < n && live[d] && 0 < k < |dirs[d]| ==>
    dirs[d][k].inum != i
    ensures TotalTo(dirs, live, i, n) == 0
  {
    if n > 0 {
      TotalNone(dirs, live, i, n - 1);
      if live[n - 1] { NamesNone(dirs[n - 1], i, |dirs[n - 1]|); }
    }
  }

  /** An empty directory has one link: the entry that unlink is about to clear. */
  lemma EmptyHasOneLink(f: Fs, dp: nat, off: nat)
    requires Sound(f) && dp < |f.kind| && Live(f)[dp] && 2 <= off < |f.dirs[dp]| && 0 < f.dirs[dp][off].inum < |f.kind|
    requires f.kind[f.dirs[dp][off].inum] == Directory && EmptyDir(f.dirs[f.dirs[dp][off].inum])
    ensures f.nlink[f.dirs[dp][off].inum] == 1
  {
    var i := f.dirs[dp][off].inum;
    var dirs: Dirs := f.dirs[dp := f.dirs[dp][off := Entry(0, "")]];
    Look(f, i);
    assert EntryOk(f.kind, f.dirs, Live(f), f.up, f.slot, dp, off);
    TotalClear(f.dirs, Live(f), dp, off, i);
    forall d: nat, k: nat | d < |dirs| && Live(f)[d] && 0 < k < |dirs[d]| ensures dirs[d][k].inum != i {
      Look(f, d);
      assert EntryOk(f.kind, f.dirs, Live(f), f.up, f.slot, d, k);
    }
    TotalNone(dirs, Live(f), i, |dirs|);
  }

  /** The state once the empty directory at slot off of dp is removed. */
  ghost function WithoutDir(f: Fs, dp: nat, off: nat): (g: Fs)
    requires |f.kind| == |f.nlink| == |f.dirs| && dp < |f.kind| && off < |f.dirs[dp]| && f.dirs[dp][off].inum < |f.kind|
    requires f.nlink[dp] > 0 && f.nlink[f.dirs[dp][off].inum] == 1
  {
    f.(dirs := f.dirs[dp := f.dirs[dp][off := Entry(0, "")]],
        nlink := f.nlink[dp := f.nlink[dp] - 1][f.dirs[dp][off].inum := 0])
  }

  lemma RemoveDirCounts(f: Fs, dp: nat, off: nat, x: nat)
    requires Sound(f) && dp < |f.kind| && Live(f)[dp] && 2 <= off < |f.dirs[dp]| && 0 < f.dirs[dp][off].inum < |f.kind|
        && 0 < x < |f.kind|
    requires f.kind[f.dirs[dp][off].inum] == Directory && EmptyDir(f.dirs[f.dirs[dp][off].inum])
        && f.nlink[f.dirs[dp][off].inum] == 1
    requires Total(f.dirs, Live(f), dp) >= 2
    ensures var g := WithoutDir(f, dp, off); CountOk(g.kind, g.nlink, g.dirs, Live(g), g.pending, x)
  {
    var i := f.dirs[dp][off].inum;
    var g := WithoutDir(f, dp, off);
    Look(f, i);
    Look(f, dp);
    Look(f, x);
    assert EntryOk(f.kind, f.dirs, Live(f), f.up, f.slot, dp, off);
    assert i != dp;
    assert Live(g) == Live(f)[i := false];
    TotalClear(f.dirs, Live(f), dp, off, x);
    NamesOfEmpty(f.dirs[i], x);
    TotalChange(g.dirs, Live(f), g.dirs, Live(g), x, i, |g.dirs|);
  }

  /** The parent of a directory has, beside the link from above, the "..": it stays live. */
  lemma ParentStaysLive(f: Fs, dp: nat, off: nat)
    requires Sound(f) && dp < |f.kind| && Live(f)[dp] && 2 <= off < |f.dirs[dp]| && 0 < f.dirs[dp][off].inum < |f.kind|
    requires f.kind[f.dirs[dp][off].inum] == Directory && Live(f)[f.dirs[dp][off].inum]
    ensures Total(f.dirs, Live(f), dp) >= 2
  {
    var i := f.dirs[dp][off].inum;
    Look(f, i);
    Look(f, dp);
    assert EntryOk(f.kind, f.dirs, Live(f), f.up, f.slot, dp, off);
    assert f.dirs[i][1].inum == dp;
    var dirs: Dirs := f.dirs[i := f.dirs[i][1 := Entry(0, "")]];
    TotalClear(f.dirs, Live(f), i, 1, dp);
    if dp == ROOTINO {
      TotalPositive(dirs, Live(f), dp, dp, 1, |dirs|);
    } else {
      TotalPositive(dirs, Live(f), dp, f.up[dp], f.slot[dp], |dirs|);
    }
  }

  lemma RemoveDirDir(f: Fs, dp: nat, off: nat, d: nat)
    requires Sound(f) && dp < |f.kind| && Live(f)[dp] && 2 <= off < |f.dirs[dp]| && 0 < f.dirs[dp][off].inum < |f.kind|
        && d < |f.kind|
    requires f.kind[f.dirs[dp][off].inum] == Directory && EmptyDir(f.dirs[f.dirs[dp][off].inum])
        && f.nlink[f.dirs[dp][off].inum] == 1
    requires f.nlink[dp] >= 2
    ensures var g := WithoutDir(f, dp, off); DirOk(g.kind, g.dirs, Live(g), g.up, d)
  {
    var i := f.dirs[dp][off].inum;
    var g := WithoutDir(f, dp, off);
    Look(f, i);
    Look(f, dp);
    Look(f, d);
    assert EntryOk(f.kind, f.dirs, Live(f), f.up, f.slot, dp, off);
    assert i != dp;
    ClearKeepsUnique(f.dirs[dp], off);
    assert Live(g) == Live(f)[i := false];
  }

  lemma RemoveDirTree(f: Fs, dp: nat, off: nat, d: nat)
    requires Sound(f) && dp < |f.kind| && Live(f)[dp] && 2 <= off < |f.dirs[dp]| && 0 < f.dirs[dp][off].inum < |f.kind|
        && d < |f.kind|
    requires f.kind[f.dirs[dp][off].inum] == Directory && EmptyDir(f.dirs[f.dirs[dp][off].inum])
        && f.nlink[f.dirs[dp][off].inum] == 1
    requires f.nlink[dp] >= 2
    ensures var g := WithoutDir(f, dp, off); TreeOk(g.dirs, Live(g), g.up, g.depth, g.slot, d)
  {
    var i := f.dirs[dp][off].inum;
    var g := WithoutDir(f, dp, off);
    Look(f, i);
    Look(f, dp);
    Look(f, d);
    assert EntryOk(f.kind, f.dirs, Live(f), f.up, f.slot, dp, off);
    assert i != dp;
    assert Live(g) == Live(f)[i := false];
  }

  lemma RemoveDirKeeps(f: Fs, dp: nat, off: nat)
    requires Sound(f) && dp < |f.kind| && Live(f)[dp] && 2 <= off < |f.dirs[dp]| && 0 < f.dirs[dp][off].inum < |f.kind|
    requires f.kind[f.dirs[dp][off].inum] == Directory && EmptyDir(f.dirs[f.dirs[dp][off].inum])
    ensures f.nlink[f.dirs[dp][off].inum] == 1 && f.nlink[dp] >= 2
    ensures Sound(WithoutDir(f, dp, off))
  {
    var i := f.dirs[dp][off].inum;
    EmptyHasOneLink(f, dp, off);
    ParentStaysLive(f, dp, off);
    Look(f, dp);
    var g := WithoutDir(f, dp, off);
    assert EntryOk(f.kind, f.dirs, Live(f), f.up, f.slot, dp, off);
    assert Live(g) == Live(f)[i := false];
    forall x: nat | 0 < x < |g.kind| ensures CountOk(g.kind, g.nlink, g.dirs, Live(g), g.pending, x) {
      RemoveDirCounts(f, dp, off, x);
    }
    forall d: nat | d < |g.kind| ensures DirOk(g.kind, g.dirs, Live(g), g.up, d)
        && TreeOk(g.dirs, Live(g), g.up, g.depth, g.slot, d) {
      RemoveDirDir(f, dp, off, d);
      RemoveDirTree(f, dp, off, d);
    }
    forall p: nat, k: nat | p < |g.kind| ensures EntryOk(g.kind, g.dirs, Live(g), g.up, g.slot, p, k) {
      assert EntryOk(f.kind, f.dirs, Live(f), f.up, f.slot, p, k);
    }
  }

  // ----- what the invariant says -----

  /** The directory n levels up. */
  ghost function Climb(up: seq<nat>, d: nat, n: nat): nat
    decreases n
  {
    if n == 0 || d >= |up| then d else Climb(up, up[d], n - 1)
  }

  /** From every live directory ".." leads to the root. */
  lemma {:induction false} RootReached(f: Fs, d: nat) returns (n: nat)
    requires Sound(f) && d < |f.kind| && Live(f)[d]
    ensures Climb(f.up, d, n) == ROOTINO
    decreases f.depth[d]
  {
    Look(f, d);
    if d == ROOTINO {
      n := 0;
    } else {
      n := RootReached(f, f.up[d]);
      n := n + 1;
    }
  }

  /** A live directory has one name that is not a dot entry. */
  lemma OneParent(f: Fs, p: nat, k: nat, q: nat, m: nat)
    requires Sound(f) && p < |f.kind| && q < |f.kind| && Live(f)[p] && Live(f)[q] && 2 <= k < |f.dirs[p]|
        && 2 <= m < |f.dirs[q]|
    requires f.dirs[p][k].inum == f.dirs[q][m].inum != 0 && f.dirs[p][k].inum < |f.kind| && f.kind[f.dirs[p][k].inum]
    == Directory
    ensures p == q && k == m
  {
    assert EntryOk(f.kind, f.dirs, Live(f), f.up, f.slot, p, k) && EntryOk(f.kind, f.dirs, Live(f), f.up, f.slot, q, m);
  }

  // ----- a directory without links -----

  /** A directory made in a directory that has no links brings that one back outside the tree. */
  lemma DirInDead(f: Fs, dp: nat, off: nat, np: nat, name: string)
    requires Sound(f) && 0 < dp < |f.kind| && f.kind[dp] == Directory && f.nlink[dp] == 0 && off <= |f.dirs[dp]|
    requires 0 < np < |f.kind| && f.kind[np] == NoFile
    ensures !Sound(WithDir(f, dp, off, np, name))
  {
    var g := WithDir(f, dp, off, np, name);
    if Sound(g) {
      Look(g, dp);
      assert dp != ROOTINO && Live(g)[dp];
      var p, k := g.up[dp], g.slot[dp];
      assert p != dp && p != np;
      assert Live(f)[p];
      NotNamed(f, dp, p, k);
      assert false;
    }
  }

  // ----- create -----

  lemma RootOnly(f: Fs, n: nat)
    requires n == |f.kind| == |f.nlink| == |f.dirs| == |f.up| == |f.depth| == |f.slot| == |f.pending| && ROOTINO < n
    requires forall i: nat :: i < n ==>
        f.kind[i] == (if i == ROOTINO then Directory else NoFile) && f.nlink[i] == (if i == ROOTINO then 1 else 0)
        && f.dirs[i] == (if i == ROOTINO then Dots(ROOTINO, ROOTINO) else [])
    requires f.up[ROOTINO] == ROOTINO && forall i: nat :: i < n ==> f.pending[i] == 0
    ensures Sound(f)
  {
    forall x: nat | 0 < x < n ensures CountOk(f.kind, f.nlink, f.dirs, Live(f), f.pending, x) {
      var none: Dirs := f.dirs[ROOTINO := []];
      TotalNone(none, Live(f), x, n);
      NamesOfEmpty(f.dirs[ROOTINO], x);
      TotalChange(none, Live(f), f.dirs, Live(f), x, ROOTINO, n);
    }
    assert "."[0] == '.' && |"."| == 1 && |".."| == 2;
  }

  // ----- link counts of 16 bits -----

  const MAXLINK: int := 0x7fff

  /** The value of a short that c is stored in. */
  function Wrap16(c: int): (v: int)
    ensures -0x8000 <= v <= MAXLINK && (v == c <==> -0x8000 <= c <= MAXLINK)
    decreases if c > MAXLINK then c else if c < -0x8000 then -c else 0
  {
    if c > MAXLINK then Wrap16(c - 0x1_0000) else if c < -0x8000 then Wrap16(c + 0x1_0000) else c
  }

  /** Counting on from a wrapped count is counting on and then wrapping. */
  lemma {:induction false} WrapStep(c: int, d: int)
    requires d == 1 || d == -1
    ensures Wrap16(Wrap16(c) + d) == Wrap16(c + d)
    decreases if c > 0 then c else -c
  {
    if c > MAXLINK + 1 {
      WrapStep(c - 0x1_0000, d);
    } else if c < -0x8001 {
      WrapStep(c + 0x1_0000, d);
    } else {
      WrapNear(c, d);
    }
  }

  lemma {:induction false} WrapNear(c: int, d: int)
    requires (d == 1 || d == -1) && -0x8001 <= c <= MAXLINK + 1
    ensures Wrap16(Wrap16(c) + d) == Wrap16(c + d)
  {
    assert Wrap16(0x8000) == -0x8000 && Wrap16(0x8001) == -0x7fff;
    assert Wrap16(-0x8001) == 0x7fff && Wrap16(-0x8002) == 0x7ffe;
  }

  lemma {:induction false} WrapNever(c: int)
    ensures Wrap16(c) != c - 1
  {
    assert Wrap16(0x8000) == -0x8000;
  }

  /** The invariant: all that, and every link count fits in its short. */
  ghost predicate FsOk(f: Fs) { Sound(f) && forall i: nat :: i < |f.nlink| ==> f.nlink[i] <= MAXLINK }

  ghost function Fixed(f: Fs, x: nat, c: int): Fs
    requires x == 0 || x < |f.nlink|
  {
    if x == 0 then f else f.(nlink := f.nlink[x := c])
  }

  /** The invariant, but for file x, if it is not 0: that has c links, and its short what that
      wraps to. */
  ghost predicate Except(f: Fs, x: nat, c: int) {
    && |f.kind| == |f.nlink|
    && (x == 0 || (x < |f.nlink| && f.kind[x] != Directory && f.kind[x] != NoFile && f.nlink[x] == Wrap16(c)))
    && Sound(Fixed(f, x, c)) && forall i: nat :: i < |f.nlink| && (i != x || x == 0) ==> f.nlink[i] <= MAXLINK
  }

  lemma FixedLive(f: Fs, x: nat, c: int)
    requires Except(f, x, c)
    ensures Live(Fixed(f, x, c)) == Live(f)
  {
  }

  /** Then the invariant holds if and only if the count fits. */
  lemma ExceptIff(f: Fs, x: nat, c: int)
    requires Except(f, x, c)
    ensures FsOk(f) <==> x == 0 || c <= MAXLINK
    ensures x != 0 ==> c == Total(f.dirs, Live(f), x) + f.pending[x]
  {
    FixedLive(f, x, c);
    if x != 0 {
      LinksOf(Fixed(f, x, c), x);
      if c <= MAXLINK { assert Fixed(f, x, c) == f; }
      if FsOk(f) { LinksOf(f, x); }
    }
  }

  lemma OkExcept(f: Fs, x: nat)
    requires FsOk(f) && 0 < x < |f.kind| && f.kind[x] != Directory && f.kind[x] != NoFile
    ensures Except(f, x, f.nlink[x])
  {
    LinksOf(f, x);
    assert Fixed(f, x, f.nlink[x]) == f;
  }

  /** The state once file i has a pending link more or less, for d of 1 or -1. */
  ghost function Relinked(f: Fs, i: nat, d: int): Fs
    requires i < |f.nlink| && i < |f.pending| && f.pending[i] + d >= 0
  {
    f.(nlink := f.nlink[i := Wrap16(f.nlink[i] + d)], pending := f.pending[i := f.pending[i] + d])
  }

  lemma RelinkedExcept(f: Fs, i: nat, c: int, d: int)
    requires Except(f, i, c) && i != 0 && (d == 1 || d == -1) && f.pending[i] + d >= 0
    ensures Except(Relinked(f, i, d), i, c + d) && (FsOk(Relinked(f, i, d)) <==> c + d <= MAXLINK)
  {
    var h, g := Fixed(f, i, c), Relinked(f, i, d);
    LinksOf(h, i);
    PendingKeeps(h, i, c + d, f.pending[i] + d);
    WrapStep(c, d);
    assert Fixed(g, i, c + d).nlink == h.nlink[i := c + d];
    ExceptIff(g, i, c + d);
  }

  /** The state once the name at off of dp, for a file, is removed. */
  ghost function Nameless(f: Fs, dp: nat, off: nat): Fs
    requires |f.kind| == |f.nlink| == |f.dirs| && dp < |f.dirs| && off < |f.dirs[dp]| && f.dirs[dp][off].inum < |f.kind|
  {
    f.(dirs := f.dirs[dp := f.dirs[dp][off := Entry(0, "")]],
       nlink := f.nlink[f.dirs[dp][off].inum := f.nlink[f.dirs[dp][off].inum] - 1])
  }

  lemma NamelessExcept(f: Fs, dp: nat, off: nat, x: nat, c: int)
    requires Except(f, x, c) && dp < |f.kind| && Live(f)[dp] && 2 <= off < |f.dirs[dp]|
    requires 0 < f.dirs[dp][off].inum < |f.kind| && f.kind[f.dirs[dp][off].inum] != Directory
    requires f.nlink[f.dirs[dp][off].inum] >= 1
    ensures Except(Nameless(f, dp, off), x, if f.dirs[dp][off].inum == x then c - 1 else c)
  {
    var i, h, g := f.dirs[dp][off].inum, Fixed(f, x, c), Nameless(f, dp, off);
    var c' := if i == x then c - 1 else c;
    FixedLive(f, x, c);
    UnnameKeeps(h, dp, off);
    WrapStep(c, -1);
    assert Fixed(g, x, c').nlink == Unnamed(h, dp, off).nlink;
    assert Fixed(g, x, c') == Unnamed(h, dp, off);
  }

  lemma WithoutDirExcept(f: Fs, dp: nat, off: nat, x: nat, c: int)
    requires Except(f, x, c) && dp < |f.kind| && Live(f)[dp] && 2 <= off < |f.dirs[dp]|
    requires 0 < f.dirs[dp][off].inum < |f.kind| && f.kind[f.dirs[dp][off].inum] == Directory
    requires EmptyDir(f.dirs[f.dirs[dp][off].inum])
    ensures f.nlink[f.dirs[dp][off].inum] == 1 && f.nlink[dp] >= 2 && Except(WithoutDir(f, dp, off), x, c)
  {
    var h := Fixed(f, x, c);
    FixedLive(f, x, c);
    RemoveDirKeeps(h, dp, off);
    assert Fixed(WithoutDir(f, dp, off), x, c).nlink == WithoutDir(h, dp, off).nlink;
    assert Fixed(WithoutDir(f, dp, off), x, c) == WithoutDir(h, dp, off);
  }

  /** The state once file i, with a pending link, has its name in dp. */
  ghost function Named(f: Fs, dp: nat, off: nat, i: nat, name: string): Fs
    requires dp < |f.dirs| && off <= |f.dirs[dp]| && i < |f.pending| && f.pending[i] > 0
  {
    f.(dirs := f.dirs[dp := Put(f.dirs[dp], off, Entry(i, Short(name)))], pending := f.pending[i := f.pending[i] - 1])
  }

  /** Naming a file that has c links keeps the invariant if and only if the directory has links
      and c fits in a short. */
  lemma LinkedValid(f: Fs, dp: nat, off: nat, i: nat, name: string, c: int)
    requires Except(f, i, c) && i != 0 && dp < |f.kind| && f.kind[dp] == Directory && FirstEmpty(f.dirs[dp], off)
    requires Absent(f.dirs[dp], name) && f.pending[i] > 0
    ensures f.nlink[dp] > 0 ==> Except(Named(f, dp, off, i, name), i, c)
    ensures FsOk(Named(f, dp, off, i, name)) <==> f.nlink[dp] > 0 && c <= MAXLINK
  {
    var h, g := Fixed(f, i, c), Named(f, dp, off, i, name);
    FixedLive(f, i, c);
    assert Fixed(g, i, c) == Named(h, dp, off, i, name);
    if f.nlink[dp] > 0 {
      NameKeeps(h, dp, off, i, name);
      ExceptIff(g, i, c);
    } else {
      NoNameInDead(f, g, dp, off, i, name, c);
    }
  }

  lemma NoNameInDead(f: Fs, g: Fs, dp: nat, off: nat, i: nat, name: string, c: int)
    requires Except(f, i, c) && i != 0 && dp < |f.kind| && f.kind[dp] == Directory && off <= |f.dirs[dp]|
    requires f.pending[i] > 0 && f.nlink[dp] <= 0 && g == Named(f, dp, off, i, name)
    ensures !FsOk(g)
  {
    ExceptIff(f, i, c);
    if FsOk(g) {
      LinksOf(g, i);
      assert Live(g) == Live(f);
      TotalPrefix(f.dirs, Live(f), g.dirs, Live(g), i, |f.dirs|);
      WrapNever(c);
      assert false;
    }
  }

  // ----- create, and its link counts -----

  /** What create adds: an inode with one link, its name in dp, and for a directory its "." and
      ".." and the link the latter is. */
  ghost predicate Created(f: Fs, g: Fs, dp: nat, name: string, kd: Kind, ip: nat) {
    && |f.kind| == |f.nlink| == |f.dirs| && dp < |f.kind| && 0 < ip < |f.kind| && f.kind[ip] == NoFile && dp != ip
    && g.kind == f.kind[ip := kd] && g.nlink == (if kd == Directory then f.nlink[ip := 1][dp := Wrap16(f.nlink[dp] + 1)]
        else f.nlink[ip := 1])
    && exists off: nat :: FirstEmpty(f.dirs[dp], off)
        && g.dirs == f.dirs[ip := if kd == Directory then Dots(ip, dp)
        else []][dp := Put(f.dirs[dp], off, Entry(ip, Short(name)))]
  }

  /** The invariant survives create if and only if the directory has links, and for the ".." of a
      new directory room for one more. */
  lemma CreatedValid(f: Fs, g: Fs, dp: nat, off: nat, name: string, kd: Kind, ip: nat)
    requires FsOk(f) && dp < |f.kind| && f.kind[dp] == Directory && kd != NoFile && 0 < ip < |f.kind|
        && f.kind[ip] == NoFile
    requires FirstEmpty(f.dirs[dp], off) && Absent(f.dirs[dp], name)
    requires kd == Directory ==>
        g == WithDir(f, dp, off, ip, name).(nlink := f.nlink[ip := 1][dp := Wrap16(f.nlink[dp] + 1)])
    requires kd != Directory ==> g == f.(kind := f.kind[ip := kd], nlink := f.nlink[ip := 1],
        dirs := f.dirs[dp := Put(f.dirs[dp], off, Entry(ip, Short(name)))])
    ensures FsOk(g) <==> f.nlink[dp] > 0 && (kd == Directory ==> f.nlink[dp] < MAXLINK)
  {
    if kd == Directory {
      DirCreatedValid(f, g, dp, off, name, ip);
    } else {
      FileCreatedValid(f, g, dp, off, name, kd, ip);
    }
  }

  lemma DirCreatedValid(f: Fs, g: Fs, dp: nat, off: nat, name: string, ip: nat)
    requires FsOk(f) && dp < |f.kind| && f.kind[dp] == Directory && 0 < ip < |f.kind| && f.kind[ip] == NoFile
    requires FirstEmpty(f.dirs[dp], off) && Absent(f.dirs[dp], name)
    requires g == WithDir(f, dp, off, ip, name).(nlink := f.nlink[ip := 1][dp := Wrap16(f.nlink[dp] + 1)])
    ensures FsOk(g) <==> 0 < f.nlink[dp] < MAXLINK
  {
    assert dp != 0 && dp != ip;
    if f.nlink[dp] == MAXLINK {
      assert g.nlink[dp] == -0x8000;
      if FsOk(g) {
        LinksOf(g, dp);
        assert false;
      }
    } else {
      LinksOf(f, dp);
      assert g.nlink == WithDir(f, dp, off, ip, name).nlink;
      assert g == WithDir(f, dp, off, ip, name);
      if f.nlink[dp] > 0 { MakeDirKeeps(f, dp, off, ip, name); } else { DirInDead(f, dp, off, ip, name); }
    }
  }

  lemma FileCreatedValid(f: Fs, g: Fs, dp: nat, off: nat, name: string, kd: Kind, ip: nat)
    requires FsOk(f) && dp < |f.kind| && f.kind[dp] == Directory && kd != NoFile && kd != Directory && 0 < ip < |f.kind|
    requires f.kind[ip] == NoFile && FirstEmpty(f.dirs[dp], off) && Absent(f.dirs[dp], name)
    requires g == f.(kind := f.kind[ip := kd], nlink := f.nlink[ip := 1],
        dirs := f.dirs[dp := Put(f.dirs[dp], off, Entry(ip, Short(name)))])
    ensures FsOk(g) <==> f.nlink[dp] > 0
  {
    FreeInode(f, ip);
    KindKeeps(f, ip, kd);
    var h := f.(kind := f.kind[ip := kd], dirs := f.dirs[ip := []]);
    assert h.dirs == f.dirs;
    LinksOf(f, ip);
    LinksOf(h, ip);
    PendingKeeps(h, ip, 1, 1);
    var j := h.(nlink := h.nlink[ip := 1], pending := h.pending[ip := 1]);
    OkExcept(j, ip);
    LinkedValid(j, dp, off, ip, name, 1);
    assert j.pending[ip := 0] == f.pending;
    assert Named(j, dp, off, ip, name) == g;
  }
}
