/** The directory operations of the file system calls (kernel/fs.c, kernel/sysfile.c). */
module Directories {
  import opened Common
  import opened DirEntries
  import opened DirTree

  class Directories {
    var kind: seq<Kind>
    var nlink: seq<int>     // shorts
    var dirs: Dirs
    ghost var up: seq<nat>
    ghost var depth: seq<nat>
    ghost var slot: seq<nat>
    ghost var pending: seq<nat>

    ghost function State(): Fs
      reads this
    {
      Fs(kind, nlink, dirs, up, depth, slot, pending)
    }

    ghost predicate Valid()
      reads this
    {
      FsOk(State())
    }

    /** dirlookup: the inode number and slot of the first entry with this name, or 0. */
    method Dirlookup(dp: nat, name: string) returns (inum: nat, off: nat)
      requires dp < |dirs|
      ensures inum == 0 <==> Absent(dirs[dp], name)
      ensures inum != 0 ==> Matches(dirs[dp], name, off) && inum == dirs[dp][off].inum && forall k: nat :: k < off ==>
          !Matches(dirs[dp], name, k)
    {
      off := 0;
      while off < |dirs[dp]|
        invariant off <= |dirs[dp]| && forall k: nat :: k < off ==> !Matches(dirs[dp], name, k)
      {
        var de := dirs[dp][off];
        if de.inum != 0 {
          var same := Namecmp(name, de.name);
          if same {
            assert Matches(dirs[dp], name, off);
            return de.inum, off;
          }
        }
        off := off + 1;
      }
      inum := 0;
    }

    /** dirlink, where room says whether there is space to make the directory longer. */
    method Dirlink(dp: nat, name: string, inum: nat, room: bool) returns (rc: int, ghost off: nat)
      requires dp < |dirs|
      modifies this`dirs
      ensures rc == 0 || rc == -1
      ensures rc == 0 ==>
          Absent(old(dirs)[dp], name) && FirstEmpty(old(dirs)[dp], off)
          && dirs == old(dirs)[dp := Put(old(dirs)[dp], off, Entry(inum, Short(name)))]
      ensures rc == -1 ==> dirs == old(dirs) && (!Absent(dirs[dp], name) || !room)
    {
      off := 0;
      var found, at := Dirlookup(dp, name);
      if found != 0 {
        return -1, 0;
      }
      var o := 0;
      while o < |dirs[dp]|
        invariant o <= |dirs[dp]| && dirs == old(dirs) && forall k :: 0 <= k < o ==> dirs[dp][k].inum != 0
      {
        if dirs[dp][o].inum == 0 {
          break;
        }
        o := o + 1;
      }
      off := o;
      if o == |dirs[dp]| && !room {
        return -1, off;
      }
      dirs := dirs[dp := Put(dirs[dp], o, Entry(inum, Short(name)))];
      rc := 0;
    }

    /** isdirempty */
    method Isdirempty(dp: nat) returns (empty: bool)
      requires dp < |dirs|
      ensures empty <==> forall k :: 2 <= k < |dirs[dp]| ==> dirs[dp][k].inum == 0
    {
      var off := 2;
      while off < |dirs[dp]|
        invariant 2 <= off && forall k :: 2 <= k < off && k < |dirs[dp]| ==> dirs[dp][k].inum == 0
      {
        if dirs[dp][off].inum != 0 {
          return false;
        }
        off := off + 1;
      }
      return true;
    }

    /** A file system with nothing but its root, whose "." and ".." are the root. */
    constructor (n: nat)
      requires ROOTINO < n
      ensures Valid() && |kind| == n && dirs[ROOTINO] == Dots(ROOTINO, ROOTINO) && nlink[ROOTINO] == 1
      ensures forall i :: 0 <= i < n && i != ROOTINO ==> kind[i] == NoFile
    {
      kind := seq(n, i => if i == ROOTINO then Directory else NoFile);
      nlink := seq(n, i => if i == ROOTINO then 1 else 0);
      dirs := seq(n, i => if i == ROOTINO then [Entry(ROOTINO, "."), Entry(ROOTINO, "..")] else []);
      up := seq(n, i => ROOTINO);
      depth := seq(n, i => 0);
      slot := seq(n, i => 0);
      pending := seq(n, i => 0);
      new;
      RootOnly(State(), n);
    }

    /** ialloc: the first free inode, now of the given kind, or 0. */
    method Ialloc(kd: Kind) returns (inum: nat)
      requires Valid() && kd != NoFile
      modifies this`kind
      ensures inum == 0 ==> kind == old(kind) && forall i :: 0 < i < |kind| ==> kind[i] != NoFile
      ensures inum != 0 ==>
          inum < |old(kind)| && old(kind)[inum] == NoFile && kind == old(kind)[inum := kd]
          && forall i :: 0 < i < inum ==> kind[i] != NoFile
    {
      inum := 1;
      while inum < |kind|
        invariant 0 < inum && kind == old(kind) && forall i :: 0 < i < inum && i < |kind| ==> kind[i] != NoFile
      {
        if kind[inum] == NoFile {
          kind := kind[inum := kd];
          return;
        }
        inum := inum + 1;
      }
      inum := 0;
    }

    /** iput, of the last reference or another: an inode without links is truncated and freed. */
    method Iput(ip: nat, last: bool)
      requires 0 < ip < |kind| == |nlink| == |dirs|
      modifies this`kind, this`dirs
      ensures old(Valid()) ==> Valid()
      ensures kind == (if last && nlink[ip] == 0 then old(kind)[ip := NoFile] else old(kind))
      ensures dirs == (if last && nlink[ip] == 0 then old(dirs)[ip := []] else old(dirs))
    {
      if last && nlink[ip] == 0 {
        ghost var f := State();
        dirs := dirs[ip := []];
        kind := kind[ip := NoFile];
        if Sound(f) { KindKeeps(f, ip, NoFile); }
      }
    }

    /** The "." and ".." of a new directory. */
    method MakeDots(ip: nat, dp: nat, roomDot: bool, roomUp: bool) returns (rc: int)
      requires 0 < ip < |dirs| && dirs[ip] == []
      modifies this`dirs
      ensures rc == 0 || (rc == -1 && (!roomDot || !roomUp))
      ensures |dirs| == |old(dirs)| && dirs[ip := []] == old(dirs) && (rc == 0 ==> dirs[ip] == Dots(ip, dp))
    {
      ghost var off;
      rc, off := Dirlink(ip, ".", ip, roomDot);
      if rc < 0 {
        return;
      }
      assert off == 0 && Short(".") == "." && dirs[ip] == [Entry(ip, ".")];
      assert !Matches(dirs[ip], "..", 0);
      rc, off := Dirlink(ip, "..", dp, roomUp);
      assert rc == 0 ==> off == 1 && Short("..") == ".." && dirs[ip] == Dots(ip, dp);
    }

    /** The part of create after ialloc: "." and "..", then the name in dp. */
    method Populate(dp: nat, name: string, kd: Kind, ip: nat, room: bool, roomDot: bool, roomUp: bool)
        returns (rc: int, ghost off: nat)
      requires dp < |dirs| && 0 < ip < |dirs| && dp != ip && dirs[ip] == [] && Absent(dirs[dp], name)
      modifies this`dirs
      ensures |dirs| == |old(dirs)|
      ensures rc == 0 ==>
          FirstEmpty(old(dirs)[dp], off)
          && dirs == old(dirs)[ip := if kd == Directory then Dots(ip, dp) else []]
                              [dp := Put(old(dirs)[dp], off, Entry(ip, Short(name)))]
      ensures rc != 0 ==> rc == -1 && dirs[ip := []] == old(dirs) && (!room || !roomDot || !roomUp)
    {
      off := 0;
      if kd == Directory {
        rc := MakeDots(ip, dp, roomDot, roomUp);
        if rc < 0 {
          return;
        }
      }
      rc, off := Dirlink(dp, name, ip, room);
    }

    /** The fail path of create: the new inode is freed. */
    method Discard(ip: nat, ghost f: Fs)
      requires 0 < ip < |kind| == |nlink| == |dirs| && |f.kind| == |f.nlink| == |f.dirs| == |dirs|
      requires kind[ip := NoFile] == f.kind && nlink[ip := 0] == f.nlink && dirs[ip := []] == f.dirs
      modifies this`kind, this`nlink, this`dirs
      ensures kind == f.kind && nlink == f.nlink && dirs == f.dirs
    {
      nlink := nlink[ip := 0];
      Iput(ip, true);
    }

    /** The part of create after ialloc gave it ip: ends with the inode made, or freed again. */
    method Install(dp: nat, name: string, kd: Kind, ip: nat, room: bool, roomDot: bool, roomUp: bool, ghost f: Fs)
        returns (ok: bool)
      requires FsOk(f) && dp < |f.kind| && f.kind[dp] == Directory && kd != NoFile && Absent(f.dirs[dp], name)
      requires 0 < ip < |f.kind| && f.kind[ip] == NoFile && State() == f.(kind := f.kind[ip := kd])
      modifies this
      ensures !ok ==> State() == f && (!room || !roomDot || !roomUp)
      ensures ok ==>
          Created(f, State(), dp, name, kd, ip)
          && (Valid() <==> f.nlink[dp] > 0 && (kd == Directory ==> f.nlink[dp] < MAXLINK))
    {
      FreeInode(f, ip);
      nlink := nlink[ip := 1];
      var rc;
      ghost var off;
      rc, off := Populate(dp, name, kd, ip, room, roomDot, roomUp);
      if rc < 0 {
        Discard(ip, f);
        return false;
      }
      if kd == Directory {
        nlink := nlink[dp := Wrap16(nlink[dp] + 1)];
        up, depth, slot := up[ip := dp], depth[ip := depth[dp] + 1], slot[ip := off];
        assert State() == WithDir(f, dp, off, ip, name).(nlink := f.nlink[ip := 1][dp := Wrap16(f.nlink[dp] + 1)]);
      } else {
        assert dirs == f.dirs[dp := Put(f.dirs[dp], off, Entry(ip, Short(name)))];
      }
      CreatedValid(f, State(), dp, off, name, kd, ip);
      ok := true;
    }

    /** create: an existing file, a new inode with its name in dp, or 0 with nothing changed. */
    method Create(dp: nat, name: string, kd: Kind, room: bool, roomDot: bool, roomUp: bool) returns (ip: nat)
      requires Valid() && dp < |kind| && kind[dp] == Directory && kd != NoFile
      modifies this
      ensures ip == 0 ==> State() == old(State())
      ensures ip == 0 && Absent(old(dirs)[dp], name) ==> !room || !roomDot || !roomUp || forall i :: 0 < i < |kind| ==>
          kind[i] != NoFile
      ensures !Absent(old(dirs)[dp], name) ==>
          State() == old(State()) && (ip != 0 ==> kd == File && Existing(State(), dp, name, ip))
      ensures ip == 0 && kd == File ==> forall i: nat :: !Existing(State(), dp, name, i)
      ensures ip != 0 && Absent(old(dirs)[dp], name) ==> Created(old(State()), State(), dp, name, kd, ip)
      ensures Valid() <==>
          ip == 0 || !Absent(old(dirs)[dp], name)
          || (old(nlink)[dp] > 0 && (kd == Directory ==> old(nlink)[dp] < MAXLINK))
    {
      var found, at := Dirlookup(dp, name);
      Look(State(), dp);
      if found != 0 {
        if kd == File && (kind[found] == File || kind[found] == Device) {
          return found;
        }
        return 0;
      }
      ghost var f := State();
      ip := Ialloc(kd);
      if ip == 0 {
        return;
      }
      var ok := Install(dp, name, kd, ip, room, roomDot, roomUp, f);
      if !ok {
        return 0;
      }
    }

    /** The part of sys_unlink after its checks: the entry at off of dp, for ip, goes away with a
        link; a directory takes the link of its ".." along. */
    method RemoveEntry(dp: nat, ip: nat, off: nat, ghost x: nat, ghost c: int) returns (ghost c': int)
      requires Except(State(), x, c) && dp < |kind| && Live(State())[dp] && 2 <= off < |dirs[dp]|
      requires 0 < ip < |kind| && dirs[dp][off].inum == ip && nlink[ip] >= 1
      requires kind[ip] == Directory ==> EmptyDir(dirs[ip])
      modifies this`nlink, this`dirs
      ensures Except(State(), x, c') && c' == (if ip == x then c - 1 else c) && Removed(old(State()), State(), dp, off)
    {
      ghost var g := EntryRemoved(State(), dp, off, x, c);
      c' := if ip == x then c - 1 else c;
      dirs := dirs[dp := dirs[dp][off := Entry(0, "")]];
      if kind[ip] == Directory {
        nlink := nlink[dp := nlink[dp] - 1];
      }
      nlink := nlink[ip := nlink[ip] - 1];
      assert State() == g;
    }

    /** sys_unlink, from the locked directory on: a name other than "." and ".." goes away, unless
        it is that of a directory with entries. ok is false at the panic for a link count below 1:
        with the invariant (x == 0) that is never reached, and when file x has c links, exactly if
        the name is one of x and its wrapped count is below 1. */
    method Unlink(dp: nat, name: string, ghost x: nat, ghost c: int) returns (ok: bool, rc: int, ghost c': int)
      requires Except(State(), x, c) && dp < |kind| && kind[dp] == Directory
      modifies this`nlink, this`dirs
      ensures ok <==> !(x != 0 && !Dot(name) && old(nlink)[x] < 1 && NamesFile(old(State()), dp, name, x))
      ensures ok ==> Except(State(), x, c') && (x == 0 ==> Valid()) && (rc == 0 || rc == -1)
      ensures !ok || rc == -1 ==> State() == old(State()) && c' == c
      ensures ok && rc == -1 ==> Dot(name) || Absent(dirs[dp], name) || HasFullDir(State(), dp, name)
      ensures ok && rc == 0 ==> !Dot(name) && !HasFullDir(old(State()), dp, name)
      ensures ok && rc == 0 ==> exists off: nat ::
          Matches(old(dirs)[dp], name, off) && Removed(old(State()), State(), dp, off) && Absent(dirs[dp], name)
    {
      ghost var h := Fixed(State(), x, c);
      FixedLive(State(), x, c);
      ok, rc, c' := true, -1, c;
      if Dot(name) {
        return;
      }
      var ip, off := Dirlookup(dp, name);
      if ip == 0 {
        return;
      }
      NamedSlot(h, dp, name, off);
      NamedHasLinks(h, dp, off);
      if nlink[ip] < 1 {
        return false, -1, c;
      }
      if kind[ip] == Directory {
        var empty := Isdirempty(ip);
        if !empty {
          return;
        }
      }
      ClearedIsAbsent(dirs[dp], name, off);
      c' := RemoveEntry(dp, ip, off, x, c);
      rc := 0;
    }

    /** All is well but that inode x has c links, which may be more than its count holds. */
    ghost predicate CountIs(x: nat, c: int)
      reads this
    {
      forall j: nat {:trigger Except(State(), j, c)} :: j == x ==> Except(State(), j, c)
    }

    /** sys_link, first part: the file gains a link whose name is to come. */
    method LinkBegin(ip: nat) returns (rc: int)
      requires Valid() && 0 < ip < |kind| && kind[ip] != NoFile
      modifies this`nlink, this`pending
      ensures (rc == -1 || rc == 0) && (rc == -1 <==> kind[ip] == Directory)
      ensures rc == -1 ==> State() == old(State())
      ensures rc == 0 ==> nlink == old(nlink)[ip := Wrap16(old(nlink)[ip] + 1)]
      ensures rc == 0 ==> |old(pending)| == |kind| && pending == old(pending)[ip := old(pending)[ip] + 1]
      ensures rc == 0 ==> Except(State(), ip, old(nlink)[ip] + 1)
      ensures Valid() <==> rc == -1 || old(nlink)[ip] < MAXLINK
    {
      if kind[ip] == Directory {
        return -1;
      }
      AddLink(ip);
      assert Except(State(), ip, old(nlink)[ip] + 1);
      ExceptIff(State(), ip, old(nlink)[ip] + 1);
      rc := 0;
    }

    /** ip->nlink++ */
    method AddLink(ip: nat)
      requires Valid() && 0 < ip < |kind| && kind[ip] != NoFile && kind[ip] != Directory
      modifies this`nlink, this`pending
      ensures nlink == old(nlink)[ip := Wrap16(old(nlink)[ip] + 1)]
      ensures |old(pending)| == |kind| && pending == old(pending)[ip := old(pending)[ip] + 1]
      ensures CountIs(ip, old(nlink)[ip] + 1) && 0 <= old(nlink)[ip] <= MAXLINK
    {
      ghost var f := State();
      LinksOf(f, ip);
      OkExcept(f, ip);
      RelinkedExcept(f, ip, f.nlink[ip], 1);
      nlink := nlink[ip := Wrap16(nlink[ip] + 1)];
      pending := pending[ip := pending[ip] + 1];
      assert State() == Relinked(f, ip, 1);
      assert Except(State(), ip, old(nlink)[ip] + 1);
    }

    /** sys_link, the bad path: the link that got no name is taken back, also from a count that
        wrapped. */
    method LinkAbort(ip: nat, ghost c: int)
      requires ip != 0 && Except(State(), ip, c) && pending[ip] > 0
      modifies this`nlink, this`pending
      ensures Except(State(), ip, c - 1) && (Valid() <==> c - 1 <= MAXLINK)
      ensures pending == old(pending)[ip := old(pending)[ip] - 1]
      ensures nlink == old(nlink)[ip := Wrap16(old(nlink)[ip] - 1)]
    {
      ghost var f := State();
      RelinkedExcept(f, ip, c, -1);
      nlink := nlink[ip := Wrap16(nlink[ip] - 1)];
      pending := pending[ip := pending[ip] - 1];
      assert State() == Relinked(f, ip, -1);
    }

    /** sys_link, second part: the link gets its name, or is taken back. File ip has c links, the
        pending one included. */
    method LinkEnd(ip: nat, parent: Option<nat>, name: string, room: bool, ghost c: int) returns (rc: int)
      requires 0 < ip < |kind| && |pending| == |nlink| == |dirs| == |kind| && CountIs(ip, c) && pending[ip] > 0
      requires parent.Some? ==> parent.value < |kind| && kind[parent.value] == Directory
      modifies this`nlink, this`pending, this`dirs
      ensures (rc == 0 || rc == -1) && pending == old(pending)[ip := old(pending)[ip] - 1]
      ensures rc == -1 ==> dirs == old(dirs) && nlink == old(nlink)[ip := Wrap16(old(nlink)[ip] - 1)]
      ensures rc == -1 ==> (parent.None? || !Absent(dirs[parent.value], name) || !room)
      ensures rc == 0 ==> parent.Some? && nlink == old(nlink) && Absent(old(dirs)[parent.value], name)
      ensures rc == 0 ==> exists off: nat ::
          FirstEmpty(old(dirs)[parent.value], off)
          && dirs == old(dirs)[parent.value := Put(old(dirs)[parent.value], off, Entry(ip, Short(name)))]
      ensures rc == 0 ==> NamesFile(State(), parent.value, name, ip)
      ensures rc == 0 && old(nlink)[parent.value] > 0 ==> CountIs(ip, c)
      ensures rc == -1 ==> CountIs(ip, c - 1) && (Valid() <==> c - 1 <= MAXLINK)
      ensures rc == 0 ==> (Valid() <==> c <= MAXLINK && old(nlink)[parent.value] > 0)
    {
      assert Except(State(), ip, c);
      ghost var f := State();
      rc := -1;
      ghost var off := 0;
      if parent.Some? {
        rc, off := Dirlink(parent.value, name, ip, room);
      }
      if rc < 0 {
        LinkAbort(ip, c);
        assert Except(State(), ip, c - 1);
        return;
      }
      LinkedValid(f, parent.value, off, ip, name, c);
      pending := pending[ip := pending[ip] - 1];
      ShortTwice(name);
      assert Matches(dirs[parent.value], name, off);
      assert State() == Named(f, parent.value, off, ip, name);
      assert nlink[parent.value] > 0 ==> Except(State(), ip, c);
    }

    /** sys_link, both parts: afterwards the invariant holds if and only if no link was made, or
        the file had fewer than MAXLINK and the directory has some. */
    method Link(ip: nat, parent: Option<nat>, name: string, room: bool) returns (rc: int)
      requires Valid() && 0 < ip < |kind| && kind[ip] != NoFile
      requires parent.Some? ==> parent.value < |kind| && kind[parent.value] == Directory
      modifies this`nlink, this`pending, this`dirs
      ensures rc == -1 ==> nlink == old(nlink) && dirs == old(dirs) && pending == old(pending)
      ensures rc == -1 ==> kind[ip] == Directory || parent.None? || !Absent(dirs[parent.value], name) || !room
      ensures rc == 0 ==> parent.Some? && kind[ip] != Directory && Absent(old(dirs)[parent.value], name)
      ensures rc == 0 ==> nlink == old(nlink)[ip := Wrap16(old(nlink)[ip] + 1)] && pending == old(pending)
      ensures rc == 0 ==> NamesFile(State(), parent.value, name, ip)
      ensures rc == 0 && old(nlink)[parent.value] > 0 ==> CountIs(ip, old(nlink)[ip] + 1)
      ensures rc == 0 || rc == -1
      ensures Valid() <==> rc == -1 || (old(nlink)[ip] < MAXLINK && old(nlink)[parent.value] > 0)
    {
      if kind[ip] == Directory {
        return -1;
      }
      ghost var c := nlink[ip];
      AddLink(ip);
      WrapStep(c + 1, -1);
      PutBack(old(nlink), ip, Wrap16(c + 1));
      PutBack(old(pending), ip, old(pending)[ip] + 1);
      rc := LinkEnd(ip, parent, name, room, c + 1);
    }

    /** A file with MAXLINK links gets one more name in a directory that has links, and then
        unlink of that name comes to its panic. */
    method OneLinkTooMany(ip: nat, dp: nat, name: string) returns (rc: int, ok: bool)
      requires Valid() && 0 < ip < |kind| && kind[ip] != NoFile && kind[ip] != Directory && nlink[ip] == MAXLINK
      requires dp < |kind| && kind[dp] == Directory && nlink[dp] > 0 && Absent(dirs[dp], name) && !Dot(name)
      modifies this`nlink, this`pending, this`dirs
      ensures |nlink| == |kind| && rc == 0 && nlink[ip] == -0x8000 && !Valid() && !ok
    {
      rc := Link(ip, Some(dp), name, true);
      var r;
      ghost var c;
      assert Wrap16(MAXLINK + 1) == -0x8000;
      assert Except(State(), ip, MAXLINK + 1);
      ok, r, c := Unlink(dp, name, ip, MAXLINK + 1);
    }
  }

  lemma PutBack(s: seq<int>, i: nat, v: int)
    requires i < |s|
    ensures s[i := v][i := s[i]] == s
  {
  }

  /** The first entry of dp with this name is for file or device i. */
  ghost predicate Existing(f: Fs, dp: nat, name: string, i: nat) {
    && dp < |f.dirs| && i < |f.kind| && (f.kind[i] == File || f.kind[i] == Device)
    && exists k: nat :: Matches(f.dirs[dp], name, k) && f.dirs[dp][k].inum == i && forall j: nat :: j < k ==>
        !Matches(f.dirs[dp], name, j)
  }

  /** The name in dp is one of inode x. */
  ghost predicate NamesFile(f: Fs, dp: nat, name: string, x: nat) {
    dp < |f.dirs| && exists k: nat :: Matches(f.dirs[dp], name, k) && f.dirs[dp][k].inum == x
  }

  predicate Dot(name: string) { Short(name) == "." || Short(name) == ".." }

  /** The name is that of a directory with entries. */
  ghost predicate HasFullDir(f: Fs, dp: nat, name: string) {
    dp < |f.dirs| == |f.kind| && exists k: nat ::
        Matches(f.dirs[dp], name, k) && f.dirs[dp][k].inum < |f.kind| && f.kind[f.dirs[dp][k].inum] == Directory
        && !EmptyDir(f.dirs[f.dirs[dp][k].inum])
  }

  /** The entry is cleared, its inode has a link less, and so has dp if that was a directory. */
  ghost predicate Removed(f: Fs, g: Fs, dp: nat, off: nat) {
    && |f.kind| == |f.nlink| == |f.dirs| && dp < |f.dirs| && off < |f.dirs[dp]| && f.dirs[dp][off].inum < |f.kind|
    && g.dirs == f.dirs[dp := f.dirs[dp][off := Entry(0, "")]]
    && var i := f.dirs[dp][off].inum;
       var drop: nat := if f.kind[i] == Directory then 1 else 0;
       f.nlink[dp] >= drop && f.nlink[i] >= 1 && i != dp
       && g.nlink == f.nlink[dp := f.nlink[dp] - drop][i := f.nlink[i] - 1]
  }

  /** Removing an entry keeps the invariant, but for the file with the wrapped count. */
  lemma EntryRemoved(f: Fs, dp: nat, off: nat, x: nat, c: int) returns (g: Fs)
    requires Except(f, x, c) && dp < |f.kind| && Live(f)[dp] && 2 <= off < |f.dirs[dp]|
    requires 0 < f.dirs[dp][off].inum < |f.kind| && f.nlink[f.dirs[dp][off].inum] >= 1
    requires f.kind[f.dirs[dp][off].inum] == Directory ==> EmptyDir(f.dirs[f.dirs[dp][off].inum])
    ensures Except(g, x, if f.dirs[dp][off].inum == x then c - 1 else c) && Removed(f, g, dp, off)
    ensures g == f.(dirs := g.dirs, nlink := g.nlink)
  {
    FixedLive(f, x, c);
    NamedHasLinks(Fixed(f, x, c), dp, off);
    if f.kind[f.dirs[dp][off].inum] == Directory {
      WithoutDirExcept(f, dp, off, x, c);
      g := WithoutDir(f, dp, off);
    } else {
      NamelessExcept(f, dp, off, x, c);
      g := Nameless(f, dp, off);
      assert f.nlink[dp := f.nlink[dp] - 0] == f.nlink;
    }
  }

  /** A name other than "." and ".." is only found in a directory with links, after those two. */
  lemma NamedSlot(f: Fs, dp: nat, name: string, off: nat)
    requires Sound(f) && dp < |f.kind| && f.kind[dp] == Directory && !Dot(name) && Matches(f.dirs[dp], name, off)
    ensures Live(f)[dp] && off >= 2 && 0 < f.dirs[dp][off].inum < |f.kind|
    ensures forall k: nat :: Matches(f.dirs[dp], name, k) ==> k == off
  {
    Look(f, dp);
    assert Short(".") == "." && Short("..") == "..";
    forall k: nat | Matches(f.dirs[dp], name, k) ensures k == off {
      assert Matches(f.dirs[dp], f.dirs[dp][k].name, off);
    }
  }

  /** What is named has a link: unlink does not panic. */
  lemma NamedHasLinks(f: Fs, dp: nat, off: nat)
    requires Sound(f) && dp < |f.kind| && Live(f)[dp] && 2 <= off < |f.dirs[dp]| && 0 < f.dirs[dp][off].inum < |f.kind|
    ensures f.nlink[f.dirs[dp][off].inum] >= 1 && f.dirs[dp][off].inum != dp
  {
    var i := f.dirs[dp][off].inum;
    Look(f, i);
    Look(f, dp);
    TotalPositive(f.dirs, Live(f), i, dp, off, |f.dirs|);
    assert EntryOk(f.kind, f.dirs, Live(f), f.up, f.slot, dp, off);
  }

  lemma ClearedIsAbsent(es: seq<Entry>, name: string, off: nat)
    requires off < |es| && forall k: nat :: Matches(es, name, k) ==> k == off
    ensures Absent(es[off := Entry(0, "")], name)
  {
    var fs := es[off := Entry(0, "")];
    forall k: nat ensures !Matches(fs, name, k) {
      if k != off { assert Matches(fs, name, k) ==> Matches(es, name, k); }
    }
  }
}
