/** Directory contents and the counting of names (kernel/fs.c, kernel/sysfile.c). */
module DirEntries {
  const DIRSIZ: nat := 14

  /** struct dirent; inum 0 marks an empty slot. */
  datatype Entry = Entry(inum: nat, name: string)

  datatype Kind = NoFile | Directory | File | Device

  /** Names are compared by their first DIRSIZ characters, and stored with as many. */
  function Short(name: string): (r: string)
    ensures r <= name && |r| == if |name| < DIRSIZ then |name| else DIRSIZ
  {
    if |name| > DIRSIZ then name[..DIRSIZ] else name
  }

  lemma ShortTwice(name: string)
    ensures Short(Short(name)) == Short(name)
  {
  }

  /** namecmp, which is strncmp of DIRSIZ characters: whether the names match. */
  method Namecmp(s: string, t: string) returns (same: bool)
    ensures same <==> Short(s) == Short(t)
  {
    var n := 0;
    while n < DIRSIZ && n < |s| && n < |t| && s[n] == t[n]
      invariant n <= DIRSIZ && n <= |s| && n <= |t| && s[..n] == t[..n]
    {
      n := n + 1;
    }
    same := n == DIRSIZ || (n == |s| && n == |t|);
    AgreeTo(s, t, n);
  }

  /** Where the comparison stops, it has the answer. */
  lemma AgreeTo(s: string, t: string, n: nat)
    requires n <= DIRSIZ && n <= |s| && n <= |t| && s[..n] == t[..n]
    requires n < DIRSIZ && n < |s| && n < |t| ==> s[n] != t[n]
    ensures Short(s) == Short(t) <==> n == DIRSIZ || (n == |s| && n == |t|)
  {
    if n == DIRSIZ {
      assert Short(s) == s[..n] && Short(t) == t[..n];
    } else if n == |s| && n == |t| {
      assert s == s[..n] && t == t[..n];
    } else if n < |s| && n < |t| {
      assert Short(s)[n] == s[n] && Short(t)[n] == t[n];
    }
  }

  /** The character of the NUL-terminated name at k. */
  function CharAt(name: string, k: nat): char { if k < |name| then name[k] else '\0' }

  /** Two names match if and only if they agree up to the end of either or DIRSIZ characters. */
  lemma NamesMatch(s: string, t: string)
    requires '\0' !in s && '\0' !in t
    ensures Short(s) == Short(t) <==> forall k: nat :: k < DIRSIZ ==> CharAt(s, k) == CharAt(t, k)
  {
    if Short(s) == Short(t) {
      forall k: nat | k < DIRSIZ ensures CharAt(s, k) == CharAt(t, k) {
        if k < |s| { assert Short(s)[k] == s[k]; }
        if k < |t| { assert Short(t)[k] == t[k]; }
      }
    }
    if forall k: nat :: k < DIRSIZ ==> CharAt(s, k) == CharAt(t, k) {
      assert |s| < DIRSIZ ==> CharAt(s, |s|) == CharAt(t, |s|);
      assert |t| < DIRSIZ ==> CharAt(s, |t|) == CharAt(t, |t|);
      forall k: nat | k < |Short(s)| && k < |Short(t)| ensures Short(s)[k] == Short(t)[k] {
        assert CharAt(s, k) == CharAt(t, k);
      }
    }
  }

  /** The entry at k matches the name. */
  predicate Matches(es: seq<Entry>, name: string, k: nat) {
    k < |es| && es[k].inum != 0 && Short(name) == Short(es[k].name)
  }

  ghost predicate Absent(es: seq<Entry>, name: string) { forall k: nat {:trigger Matches(es, name, k)} ::
      !Matches(es, name, k) }

  /** No two entries have the same name. */
  ghost predicate Unique(es: seq<Entry>) {
    forall j: nat, k: nat {:trigger Matches(es, es[j].name, k)} ::
        j < |es| && es[j].inum != 0 && Matches(es, es[j].name, k) ==> j == k
  }

  /** An entry at slot off, which is one of the slots or the end. */
  function Put(es: seq<Entry>, off: nat, e: Entry): (r: seq<Entry>)
    requires off <= |es|
    ensures off < |r| && r[off] == e && |r| == (if off == |es| then |es| + 1 else |es|)
  {
    if off == |es| then es + [e] else es[off := e]
  }

  // ----- counting -----

  /** How many of the first n entries, other than the first, have the inode number i. */
  ghost function NamesTo(es: seq<Entry>, i: nat, n: nat): nat {
    if n <= 1 || n > |es| then 0 else NamesTo(es, i, n - 1) + if es[n - 1].inum == i then 1 else 0
  }

  /** How many entries of the directory, other than ".", name inode i. */
  ghost function Names(es: seq<Entry>, i: nat): nat { NamesTo(es, i, |es|) }

  /** How many entries of the first n live directories name inode i. */
  ghost function TotalTo(dirs: seq<seq<Entry>>, live: seq<bool>, i: nat, n: nat): nat
    requires n <= |dirs| == |live|
  {
    if n == 0 then 0 else TotalTo(dirs, live, i, n - 1) + if live[n - 1] then Names(dirs[n - 1], i) else 0
  }

  ghost function Total(dirs: seq<seq<Entry>>, live: seq<bool>, i: nat): nat
    requires |dirs| == |live|
  {
    TotalTo(dirs, live, i, |dirs|)
  }

  /** Changing entries from n on does not change the count before n. */
  lemma {:induction false} NamesPrefix(es: seq<Entry>, fs: seq<Entry>, i: nat, n: nat)
    requires n <= |es| && n <= |fs| && forall k :: 0 <= k < n ==> es[k] == fs[k]
    ensures NamesTo(es, i, n) == NamesTo(fs, i, n)
  {
    if n > 1 { NamesPrefix(es, fs, i, n - 1); }
  }

  ghost function One(b: bool): nat { if b then 1 else 0 }

  /** Replacing the entry at k changes the count of the two inodes concerned. */
  lemma {:induction false} NamesReplace(es: seq<Entry>, k: nat, e: Entry, i: nat, n: nat)
    requires 0 < k < n <= |es|
    ensures NamesTo(es[k := e], i, n) + One(es[k].inum == i) == NamesTo(es, i, n) + One(e.inum == i)
  {
    if n == k + 1 {
      NamesPrefix(es[k := e], es, i, k);
    } else {
      NamesReplace(es, k, e, i, n - 1);
    }
  }

  /** Putting an entry in an empty slot or at the end adds one name. */
  lemma NamesPut(es: seq<Entry>, off: nat, e: Entry, i: nat)
    requires 0 < off <= |es| && (off < |es| ==> es[off].inum == 0) && i != 0
    ensures Names(Put(es, off, e), i) == Names(es, i) + One(e.inum == i)
  {
    if off == |es| {
      NamesPrefix(es + [e], es, i, |es|);
    } else {
      NamesReplace(es, off, e, i, |es|);
    }
  }

  lemma {:induction false} NamesPositive(es: seq<Entry>, i: nat, k: nat, n: nat)
    requires 0 < k < n <= |es| && es[k].inum == i
    ensures NamesTo(es, i, n) >= 1
  {
    if k < n - 1 { NamesPositive(es, i, k, n - 1); }
  }

  lemma {:induction false} NamesNone(es: seq<Entry>, i: nat, n: nat)
    requires n <= |es| && forall k :: 0 < k < n ==> es[k].inum != i
    ensures NamesTo(es, i, n) == 0
  {
    if n > 1 { NamesNone(es, i, n - 1); }
  }

  /** What directory d contributes. */
  ghost function Share(dirs: seq<seq<Entry>>, live: seq<bool>, i: nat, d: nat): nat
    requires d < |dirs| == |live|
  {
    if live[d] then Names(dirs[d], i) else 0
  }

  lemma {:induction false} TotalPrefix(dirs: seq<seq<Entry>>, live: seq<bool>, dirs': seq<seq<Entry>>,
      live': seq<bool>, i: nat, n: nat)
    requires |dirs| == |live| == |dirs'| == |live'| && n <= |dirs|
    requires forall d :: 0 <= d < n ==> Share(dirs, live, i, d) == Share(dirs', live', i, d)
    ensures TotalTo(dirs, live, i, n) == TotalTo(dirs', live', i, n)
  {
    if n > 0 {
      TotalPrefix(dirs, live, dirs', live', i, n - 1);
      assert Share(dirs, live, i, n - 1) == Share(dirs', live', i, n - 1);
    }
  }

  /** If only directory d changes what it contributes, the total changes as much. */
  lemma {:induction false} TotalChange(dirs: seq<seq<Entry>>, live: seq<bool>, dirs': seq<seq<Entry>>,
      live': seq<bool>, i: nat, d: nat, n: nat)
    requires |dirs| == |live| == |dirs'| == |live'| && d < n <= |dirs|
    requires forall x :: 0 <= x < |dirs| && x != d ==> Share(dirs, live, i, x) == Share(dirs', live', i, x)
    ensures TotalTo(dirs', live', i, n) + Share(dirs, live, i, d)
            == TotalTo(dirs, live, i, n) + Share(dirs', live', i, d)
  {
    if n == d + 1 {
      TotalPrefix(dirs, live, dirs', live', i, d);
    } else {
      TotalChange(dirs, live, dirs', live', i, d, n - 1);
      assert Share(dirs, live, i, n - 1) == Share(dirs', live', i, n - 1);
    }
  }

  /** An inode that is named has a positive total. */
  lemma {:induction false} TotalPositive(dirs: seq<seq<Entry>>, live: seq<bool>, i: nat, d: nat, k: nat, n: nat)
    requires d < n <= |dirs| == |live| && live[d] && 0 < k < |dirs[d]| && dirs[d][k].inum == i
    ensures TotalTo(dirs, live, i, n) >= 1
  {
    if n == d + 1 {
      NamesPositive(dirs[d], i, k, |dirs[d]|);
    } else {
      TotalPositive(dirs, live, i, d, k, n - 1);
    }
  }
}
