/** A file with as many links as its count can hold, on directories no longer than a file can be
    (kernel/fs.h, kernel/file.h). */
module LinkLimit {
  import opened DirEntries
  import opened DirTree

  /** The entries of 16 bytes that the largest file holds. */
  const MAXENTRIES := 268 * 1024 / 16

  /** Name number k: two characters that are neither NUL nor '/'. */
  function Digits(k: nat): (s: string)
    requires k < 182 * 182
    ensures |s| == 2 && s[0] >= 'A'
  {
    [(65 + k / 182) as char, (65 + k % 182) as char]
  }

  lemma DigitsDiffer(j: nat, k: nat)
    requires j < 182 * 182 && k < 182 * 182 && Digits(j) == Digits(k)
    ensures j == k
  {
    assert Digits(j)[0] == Digits(k)[0] && Digits(j)[1] == Digits(k)[1];
    assert j == j / 182 * 182 + j % 182 && k == k / 182 * 182 + k % 182;
  }

  /** The first n numbered names, for inode i. */
  ghost function Numbered(i: nat, n: nat): (es: seq<Entry>)
    requires n <= 182 * 182
    ensures |es| == n && forall k: nat {:trigger es[k]} :: k < n ==> es[k] == Entry(i, Digits(k))
  {
    if n == 0 then [] else Numbered(i, n - 1) + [Entry(i, Digits(n - 1))]
  }

  ghost predicate Unnumbered(s: string) {
    |s| != 2 || s[0] < 'A'
  }

  /** All entries are in use, and none has a numbered name. */
  ghost predicate Packed(es: seq<Entry>) {
    forall k: nat {:trigger es[k]} :: k < |es| ==> es[k].inum != 0 && Unnumbered(Short(es[k].name))
  }

  lemma NextName(es: seq<Entry>, i: nat, n: nat)
    requires Packed(es) && n < 182 * 182 && i != 0
    ensures FirstEmpty(es + Numbered(i, n), |es| + n) && Absent(es + Numbered(i, n), Digits(n))
    ensures Short(Digits(n)) == Digits(n)
    ensures Put(es + Numbered(i, n), |es| + n, Entry(i, Digits(n))) == es + Numbered(i, n + 1)
  {
    var all := es + Numbered(i, n);
    forall k: nat ensures !Matches(all, Digits(n), k) {
      if k < |all| {
        if k < |es| {
          assert all[k] == es[k];
        } else {
          assert all[k] == Numbered(i, n)[k - |es|];
          if Digits(k - |es|) == Digits(n) { DigitsDiffer(k - |es|, n); }
        }
      }
    }
    forall k | 0 <= k < |all| ensures all[k].inum != 0 {
      if k < |es| { assert all[k] == es[k]; } else { assert all[k] == Numbered(i, n)[k - |es|]; }
    }
  }

  /** The state once file i has n numbered names in dp, for which links were pending. */
  ghost function WithNames(f: Fs, dp: nat, i: nat, n: nat): Fs
    requires dp < |f.dirs| && i < |f.pending| && n <= f.pending[i] && n <= 182 * 182
  {
    f.(dirs := f.dirs[dp := f.dirs[dp] + Numbered(i, n)], pending := f.pending[i := f.pending[i] - n])
  }

  lemma OneNameMore(f: Fs, dp: nat, i: nat, n: nat)
    requires dp < |f.dirs| && i < |f.pending| && 0 < n <= f.pending[i] && n <= 182 * 182 && Packed(f.dirs[dp]) && i != 0
    ensures var h, off := WithNames(f, dp, i, n - 1), |f.dirs[dp]| + n - 1;
            && FirstEmpty(h.dirs[dp], off) && Absent(h.dirs[dp], Digits(n - 1)) && Short(Digits(n - 1)) == Digits(n - 1)
            && WithNames(f, dp, i, n) == h.(dirs := h.dirs[dp := Put(h.dirs[dp], off, Entry(i, Digits(n - 1)))],
                                            pending := h.pending[i := h.pending[i] - 1])
  {
    NextName(f.dirs[dp], i, n - 1);
  }

  lemma NoNames(f: Fs, dp: nat, i: nat)
    requires dp < |f.dirs| && i < |f.pending|
    ensures WithNames(f, dp, i, 0) == f
  {
    assert f.dirs[dp] + Numbered(i, 0) == f.dirs[dp];
    assert f.dirs[dp := f.dirs[dp]] == f.dirs;
    assert f.pending[i := f.pending[i] - 0] == f.pending;
  }

  lemma AddName(f: Fs, h: Fs, dp: nat, i: nat, n: nat)
    requires dp < |f.dirs| && 0 < i < |f.pending| && 0 < n <= f.pending[i] && n <= 182 * 182 && Packed(f.dirs[dp])
    requires h == WithNames(f, dp, i, n - 1) && Sound(h) && dp < |h.kind|
    requires Live(h)[dp] && i < |h.kind| && h.kind[i] == File
    ensures Sound(WithNames(f, dp, i, n))
  {
    OneNameMore(f, dp, i, n);
    NameKeeps(h, dp, |f.dirs[dp]| + n - 1, i, Digits(n - 1));
  }

  lemma {:induction false} AddNames(f: Fs, dp: nat, i: nat, n: nat)
    requires Sound(f) && dp < |f.kind| && Live(f)[dp] && Packed(f.dirs[dp])
    requires 0 < i < |f.kind| && f.kind[i] == File && n <= f.pending[i] && n <= 182 * 182
    ensures Sound(WithNames(f, dp, i, n))
  {
    if n == 0 {
      NoNames(f, dp, i);
    } else {
      AddNames(f, dp, i, n - 1);
      AddName(f, WithNames(f, dp, i, n - 1), dp, i, n);
    }
  }

  /** A root, an unused inode for a file, and a directory in the root. */
  ghost function Small(): Fs {
    var dots := Dots(ROOTINO, ROOTINO);
    var none := [0, 0, 0, 0];
    Fs([NoFile, Directory, NoFile, NoFile], [0, 1, 0, 0], [[], dots, [], []], [0, 1, 0, 0], none, none, none)
  }

  lemma Start() returns (f: Fs)
    ensures Sound(f) && |f.kind| == 4 && f.nlink == [0, 2, MAXLINK, 1] && f.pending == [0, 0, MAXLINK, 0]
    ensures f.kind == [NoFile, Directory, File, Directory]
    ensures f.dirs == [[], Dots(1, 1) + [Entry(3, "d")], [], Dots(3, 1)]
  {
    RootOnly(Small(), 4);
    var es := Small().dirs[1];
    assert !Matches(es, "d", 0) && !Matches(es, "d", 1);
    MakeDirKeeps(Small(), 1, 2, 3, "d");
    f := WithDir(Small(), 1, 2, 3, "d");
    assert f.dirs == [[], Dots(1, 1) + [Entry(3, "d")], [], Dots(3, 1)];
    KindKeeps(f, 2, File);
    f := f.(kind := f.kind[2 := File], dirs := f.dirs[2 := []]);
    LinksOf(f, 2);
    PendingKeeps(f, 2, MAXLINK, MAXLINK);
    f := f.(nlink := f.nlink[2 := MAXLINK], pending := f.pending[2 := MAXLINK]);
  }

  /** There is a state that meets the invariant, with directories no longer than a file can be, in
      which a file has MAXLINK links and its directory room for one more name. */
  lemma CountFull() returns (f: Fs)
    ensures FsOk(f) && |f.kind| == 4 && f.kind[2] == File && f.nlink[2] == MAXLINK && f.pending[2] == 0
    ensures f.kind[3] == Directory && f.nlink[3] > 0 && Absent(f.dirs[3], Digits(16383))
    ensures |f.dirs[1]| <= MAXENTRIES && |f.dirs[3]| < MAXENTRIES
  {
    var s := Start();
    assert Packed(s.dirs[1]);
    AddNames(s, 1, 2, 16384);
    var t := WithNames(s, 1, 2, 16384);
    assert Packed(t.dirs[3]);
    AddNames(t, 3, 2, 16383);
    f := WithNames(t, 3, 2, 16383);
    NextName(t.dirs[3], 2, 16383);
  }
}
