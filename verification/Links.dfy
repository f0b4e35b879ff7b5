/** sysfile.c and the directory part of fs.c: names, references to inodes, link, unlink and create.

    System calls run one after another here. A path is its elements and the inode the walk starts from. `ref`
    and `valid` are the inode cache's; ilock's lock itself has nothing to exclude. */
module Links {
  import opened Basics
  import opened Directories

  // ---- what the walks compute ----

  /** The first used dirent with this name. */
  function Lookup(ents: seq<Dirent>, name: Name, from: nat): (k: nat)
    requires from <= |ents|
    ensures from <= k <= |ents|
    ensures k < |ents| ==> ents[k].inum != 0 && ents[k].name == name
    ensures forall j :: from <= j < k ==> ents[j].inum == 0 || ents[j].name != name
    decreases |ents| - from
  {
    if from == |ents| || (ents[from].inum != 0 && ents[from].name == name) then from else Lookup(ents, name, from + 1)
  }

  predicate Has(ents: seq<Dirent>, name: Name) {
    Lookup(ents, name, 0) < |ents|
  }

  lemma HasOrAbsent(ents: seq<Dirent>, name: Name)
    ensures Has(ents, name) <==> !Absent(ents, name)
  {
    if Has(ents, name) {
      assert ents[Lookup(ents, name, 0)].name == name;
    }
  }

  /** namex: follow the names, each in the directory reached so far. */
  function Walk(s: Inodes, cur: nat, names: seq<Name>): Option<nat>
    decreases |names|
  {
    if names == [] then Some(cur)
    else if cur >= |s| || s[cur].typ != Dir || !Has(s[cur].ents, names[0]) then None
    else Walk(s, s[cur].ents[Lookup(s[cur].ents, names[0], 0)].inum, names[1..])
  }

  /** nameiparent: the directory that is to hold the last name. */
  function WalkParent(s: Inodes, cur: nat, names: seq<Name>): Option<nat> {
    if names == [] then None
    else
      var r := Walk(s, cur, names[..|names| - 1]);
      if r.Some? && r.value < |s| && s[r.value].typ == Dir then r else None
  }

  /** The first used dirent called `name` holds the number `i`. */
  predicate NamesFirst(ents: seq<Dirent>, name: Name, i: nat) {
    exists j :: 0 <= j < |ents| && UsedAs(ents, j, name) && ents[j].inum == i
                && forall l :: 0 <= l < j ==> !UsedAs(ents, l, name)
  }

  predicate UsedAs(ents: seq<Dirent>, j: nat, name: Name)
    requires j < |ents|
  {
    ents[j].inum != 0 && ents[j].name == name
  }

  /** A path as inodes: each but the last is a directory whose first dirent of the next name holds the next one. */
  predicate Chain(s: Inodes, names: seq<Name>, chain: seq<nat>) {
    && |chain| == |names| + 1
    && forall k :: 0 <= k < |names| ==>
         chain[k] < |s| && s[chain[k]].typ == Dir && NamesFirst(s[chain[k]].ents, names[k], chain[k + 1])
  }

  /** The names lead from `start` to `i`. */
  ghost predicate LeadsTo(s: Inodes, start: nat, names: seq<Name>, i: nat) {
    exists chain :: Chain(s, names, chain) && chain[0] == start && chain[|names|] == i
  }

  lemma LookupNames(ents: seq<Dirent>, name: Name, i: nat)
    ensures NamesFirst(ents, name, i) <==> Has(ents, name) && ents[Lookup(ents, name, 0)].inum == i
  {
    var k := Lookup(ents, name, 0);
    if k < |ents| {
      assert UsedAs(ents, k, name);
      if NamesFirst(ents, name, i) {
        var j :| 0 <= j < |ents| && UsedAs(ents, j, name) && ents[j].inum == i
                 && forall l :: 0 <= l < j ==> !UsedAs(ents, l, name);
        assert j == k;
      }
    }
  }

  lemma {:induction false} WalkChain(s: Inodes, cur: nat, names: seq<Name>) returns (chain: seq<nat>)
    requires Walk(s, cur, names).Some?
    ensures Chain(s, names, chain) && chain[0] == cur && chain[|names|] == Walk(s, cur, names).value
    decreases |names|
  {
    hide Lookup, NamesFirst;
    if names == [] {
      chain := [cur];
    } else {
      var next := s[cur].ents[Lookup(s[cur].ents, names[0], 0)].inum;
      LookupNames(s[cur].ents, names[0], next);
      var rest := WalkChain(s, next, names[1..]);
      chain := [cur] + rest;
      forall k | 0 <= k < |names|
        ensures chain[k] < |s| && s[chain[k]].typ == Dir && NamesFirst(s[chain[k]].ents, names[k], chain[k + 1])
      {
        if k > 0 {
          assert names[1..][k - 1] == names[k] && rest[k - 1] == chain[k] && rest[k - 1 + 1] == chain[k + 1];
        }
      }
    }
  }

  lemma {:induction false} ChainWalk(s: Inodes, names: seq<Name>, chain: seq<nat>)
    requires Chain(s, names, chain)
    ensures Walk(s, chain[0], names) == Some(chain[|names|])
    decreases |names|
  {
    hide Lookup, NamesFirst;
    if names != [] {
      LookupNames(s[chain[0]].ents, names[0], chain[1]);
      forall k | 0 <= k < |names[1..]|
        ensures var c := chain[1..];
                c[k] < |s| && s[c[k]].typ == Dir && NamesFirst(s[c[k]].ents, names[1..][k], c[k + 1])
      {
        assert names[1..][k] == names[k + 1] && chain[1..][k] == chain[k + 1];
        assert chain[1..][k + 1] == chain[k + 1 + 1];
      }
      ChainWalk(s, names[1..], chain[1..]);
    }
  }

  /** A walk finds exactly the inode that the names lead to. */
  lemma WalkLeads(s: Inodes, cur: nat, names: seq<Name>, i: nat)
    ensures Walk(s, cur, names) == Some(i) <==> LeadsTo(s, cur, names, i)
  {
    hide Walk, NamesFirst;
    if Walk(s, cur, names) == Some(i) {
      var chain := WalkChain(s, cur, names);
      assert Chain(s, names, chain);
    }
    if LeadsTo(s, cur, names, i) {
      var chain :| Chain(s, names, chain) && |chain| == |names| + 1 && chain[0] == cur && chain[|names|] == i;
      ChainWalk(s, names, chain);
    }
  }

  /** Entries of linked directories name inodes in use with links. */
  predicate EntryAt(s: Inodes, d: nat, k: nat)
    requires d < |s| && k < |s[d].ents|
  {
    var i := s[d].ents[k].inum;
    i != 0 ==> i < |s| && s[i].typ != Unused && s[i].nlink > 0
  }

  predicate Sound(s: Inodes) {
    forall d: nat, k: nat :: 0 < d < |s| && Linked(s, d) && k < |s[d].ents| ==> EntryAt(s, d, k)
  }

  lemma EntrySound(s: Inodes, d: nat, k: nat)
    requires Inv(s) && 0 < d < |s| && Linked(s, d) && k < |s[d].ents|
    ensures EntryAt(s, d, k)
  {
    hide CountsOk, ChildrenOk, ParentsOk, Names;
    assert DirAt(s, d);
    if k >= 2 && s[d].ents[k].inum != 0 {
      EntryNames(s, d, k);
    }
  }

  lemma InvSound(s: Inodes)
    requires Inv(s)
    ensures Sound(s)
  {
    hide CountsOk, DirsOk, ChildrenOk, ParentsOk, RootOk, UnusedOk, EntryAt;
    forall d: nat, k: nat | 0 < d < |s| && Linked(s, d) && k < |s[d].ents|
      ensures EntryAt(s, d, k)
    {
      EntrySound(s, d, k);
    }
  }

  // ---- references ----

  /** A free inode has no references; an inode without links has one, with its contents loaded. */
  predicate RefsOk(s: Inodes, ref: seq<nat>, valid: seq<bool>) {
    |ref| == |valid| == |s| && RefsOkBut(s, ref, valid, -1)
  }

  predicate RefsOkBut(s: Inodes, ref: seq<nat>, valid: seq<bool>, but: int)
    requires |ref| == |valid| == |s|
  {
    forall i :: 0 <= i < |s| && i != but ==>
      && (s[i].typ == Unused ==> ref[i] == 0)
      && (s[i].typ != Unused && s[i].nlink == 0 ==> ref[i] > 0 && valid[i])
  }

  function Freed(s: Inodes, i: nat): Inodes
    requires i < |s|
  {
    s[i := Ino(Unused, 0, [])]
  }

  /** Freeing an inode without links leaves every other count alone, and nothing names it. */
  lemma FreeOk(s: Inodes, i: nat)
    requires Inv(s) && 0 < i < |s| && s[i].nlink == 0
    ensures Inv(Freed(s, i))
    ensures forall d: nat, k: nat :: !Names(s, d, k, i)
  {
    hide ChildrenOk, ParentsOk, DirsOk, Places;
    var s' := Freed(s, i);
    forall j: nat | 0 < j < |s'|
      ensures CountOk(s', j)
    {
      assert CountOk(s, j);
      PlacesChange(s, s', j, 0, 0);
    }
    forall d: nat, k: nat
      ensures !Names(s, d, k, i)
    {
      assert CountOk(s, i);
      if Names(s, d, k, i) {
        SomePlace(s, i, d, k);
      }
    }
    FreeDirs(s, i);
  }

  lemma FreeDirs(s: Inodes, i: nat)
    requires Inv(s) && 0 < i < |s| && s[i].nlink == 0
    ensures DirsOk(Freed(s, i)) && ChildrenOk(Freed(s, i)) && ParentsOk(Freed(s, i))
  {
    hide CountsOk;
    var s' := Freed(s, i);
    forall d: nat
      ensures Linked(s', d) <==> Linked(s, d)
      ensures Linked(s, d) ==> d != i
    {
    }
    forall d: nat | 0 < d < |s'| && Linked(s', d)
      ensures DirAt(s', d)
    {
      assert DirAt(s, d);
    }
    forall d: nat, k: nat | 0 < d < |s'| && Linked(s', d) && 2 <= k < |s'[d].ents|
      ensures ChildAt(s', d, k)
    {
      assert ChildAt(s, d, k);
    }
    forall e: nat | 1 < e < |s'| && Linked(s', e)
      ensures |s'[e].ents| >= 2 && HasParent(s', e)
    {
      assert HasParent(s, e);
      var p := s[e].ents[1].inum;
      var l: nat :| 2 <= l < |s[p].ents| && Names(s, p, l, e);
      assert Names(s', p, l, e);
    }
  }

  /** A walk from a linked directory, or from anything with a link, ends at something with a link. */
  lemma WalkStep(s: Inodes, cur: nat, name: Name)
    requires Sound(s) && 0 < cur < |s| && s[cur].nlink > 0 && s[cur].typ == Dir && Has(s[cur].ents, name)
    ensures var i := s[cur].ents[Lookup(s[cur].ents, name, 0)].inum;
            0 < i < |s| && s[i].typ != Unused && s[i].nlink > 0
  {
    assert EntryAt(s, cur, Lookup(s[cur].ents, name, 0));
  }

  class Fs {
    var ino: Inodes
    var ref: seq<nat>
    var valid: seq<bool>

    ghost predicate Valid()
      reads this
    {
      Inv(ino) && RefsOk(ino, ref, valid)
    }

    /** The file system as mkfs makes it, before anything is opened: a root that is its own parent. */
    constructor (ninodes: nat)
      requires ninodes > ROOTINO
      ensures Valid() && ino == Fresh(ninodes) && forall i :: 0 <= i < ninodes ==> ref[i] == 0
    {
      ino := Fresh(ninodes);
      ref := seq(ninodes, i => 0);
      valid := seq(ninodes, i => false);
      FreshOk(ninodes);
    }

    // ---- fs.c ----

    /** A reference to inode `i`, with the cache entry recycled if nobody had one. */
    method Iget(i: nat)
      requires |ref| == |valid| && i < |ref|
      modifies `ref, `valid
      ensures ref == old(ref)[i := old(ref)[i] + 1]
      ensures valid == if old(ref)[i] == 0 then old(valid)[i := false] else old(valid)
    {
      if ref[i] == 0 {
        valid := valid[i := false];
      }
      ref := ref[i := ref[i] + 1];
    }

    /** Panics without a reference, or on an inode that is free on disk. */
    method Ilock(i: nat) returns (ok: bool)
      requires |ref| == |valid| == |ino| && i < |ref|
      modifies `valid
      ensures ok <==> ref[i] > 0 && (old(valid)[i] || ino[i].typ != Unused)
      ensures valid == if ref[i] > 0 then old(valid)[i := true] else old(valid)
    {
      if ref[i] < 1 {
        return false;
      }
      if !valid[i] {
        valid := valid[i := true];
        if ino[i].typ == Unused {
          return false;
        }
      }
      ok := true;
    }

    /** Drop a reference. The last one to an inode without links frees it and its contents. */
    method Iput(i: nat)
      requires |ref| == |valid| == |ino| && i < |ref| && ref[i] > 0
      modifies this
      ensures ref == Less(old(ref), i)
      ensures if old(valid)[i] && old(ino)[i].nlink == 0 && old(ref)[i] == 1
              then ino == Freed(old(ino), i) && valid == old(valid)[i := false]
              else ino == old(ino) && valid == old(valid)
    {
      if valid[i] && ino[i].nlink == 0 {
        if ref[i] == 1 {
          ino := ino[i := Ino(Unused, 0, [])];
          valid := valid[i := false];
        }
      }
      ref := ref[i := ref[i] - 1];
    }

    /** The first used dirent called `name`, with a new reference to its inode. */
    method Dirlookup(d: nat, name: Name) returns (r: Option<nat>, off: nat)
      requires |ref| == |valid| == |ino| && d < |ino| && ino[d].typ == Dir
      requires InumsOk(ino, d)
      modifies `ref, `valid
      ensures r.Some? <==> Has(ino[d].ents, name)
      ensures r.None? ==> ref == old(ref) && valid == old(valid)
      ensures r.Some? ==> off == Lookup(ino[d].ents, name, 0) && r.value == ino[d].ents[off].inum < |ref|
      ensures r.Some? ==> ref == old(ref)[r.value := old(ref)[r.value] + 1]
      ensures r.Some? ==> valid == if old(ref)[r.value] == 0 then old(valid)[r.value := false] else old(valid)
    {
      off := 0;
      while off < |ino[d].ents|
        invariant off <= |ino[d].ents| && Lookup(ino[d].ents, name, 0) == Lookup(ino[d].ents, name, off)
        invariant ref == old(ref) && valid == old(valid)
      {
        var de := ino[d].ents[off];
        if de.inum != 0 && de.name == name {
          Iget(de.inum);
          return Some(de.inum), off;
        }
        off := off + 1;
      }
      r := None;
    }

    /** The first free dirent, or the end. */
    method FindSlot(d: nat) returns (off: nat)
      requires d < |ino|
      ensures FreeSlot(ino[d].ents, off)
    {
      off := 0;
      while off < |ino[d].ents| && ino[d].ents[off].inum != 0
        invariant off <= |ino[d].ents|
        invariant forall j :: 0 <= j < off ==> ino[d].ents[j].inum != 0
      {
        off := off + 1;
      }
    }

    /** Add an entry in the first free dirent; false if the name is there. Where every dirent is taken and the
        directory has the largest size a file can have, writei refuses and the kernel panics. */
    method Dirlink(d: nat, name: Name, i: nat) returns (ok: bool, panicked: bool, ghost k: nat)
      requires RefsOk(ino, ref, valid) && d < |ino| && ino[d].typ == Dir && EntriesFit(ino, d)
      modifies this
      ensures panicked <==> Absent(old(ino)[d].ents, name) && DirFull(old(ino)[d].ents)
      ensures ok <==> Absent(old(ino)[d].ents, name) && !panicked
      ensures ref == old(ref) && RefsOk(ino, ref, valid)
      ensures !ok ==> ino == old(ino)
      ensures ok ==> FreeSlot(old(ino)[d].ents, k) && ino == WithEntry(old(ino), d, k, Dirent(i, name))
    {
      HasOrAbsent(ino[d].ents, name);
      var r, off := Dirlookup(d, name);
      k, panicked := 0, false;
      if r.Some? {
        Iput(r.value);
        return false, false, k;
      }
      off := FindSlot(d);
      if off * DIRENT + DIRENT > MAXDIRENTS * DIRENT {
        return false, true, off; // writei refuses the range: panic("dirlink")
      }
      ino := ino[d := ino[d].(ents := Put(ino[d].ents, off, Dirent(i, name)))];
      return true, false, off;
    }

    /** One element of namex's loop: from `cur` to the inode its entry names, exchanging the references. */
    method Descend(cur: nat, name: Name) returns (r: Option<nat>)
      requires Walkable(ino) && RefsOk(ino, ref, valid) && Reachable(ino, cur) && ref[cur] > 0
      modifies this
      ensures ino == old(ino) && RefsOk(ino, ref, valid)
      ensures r == if ino[cur].typ == Dir && Has(ino[cur].ents, name)
                   then Some(ino[cur].ents[Lookup(ino[cur].ents, name, 0)].inum) else None
      ensures r.None? ==> ref == Less(old(ref), cur)
      ensures r.Some? ==> Reachable(ino, r.value)
      ensures r.Some? ==> ref == Moved(old(ref), cur, r.value)
    {
      hide Sound, Lookup;
      var _ := Ilock(cur);
      if ino[cur].typ != Dir {
        Iput(cur);
        return None;
      }
      var off: nat;
      r, off := Dirlookup(cur, name);
      if r.Some? {
        WalkStep(ino, cur, name);
      }
      Iput(cur);
    }

    /** namex without nameiparent. `cur` comes with a reference, which the result's replaces. */
    method Namex(start: nat, names: seq<Name>) returns (r: Option<nat>)
      requires Walkable(ino) && RefsOk(ino, ref, valid) && Reachable(ino, start) && ref[start] > 0
      modifies this
      ensures ino == old(ino) && RefsOk(ino, ref, valid)
      ensures r == Walk(ino, start, names)
      ensures forall i: nat :: r == Some(i) <==> LeadsTo(ino, start, names, i)
      ensures r.None? ==> ref == Less(old(ref), start)
      ensures r.Some? ==> Reachable(ino, r.value) && ref == Moved(old(ref), start, r.value)
    {
      hide Walkable, RefsOk, Moved, Less, LeadsTo;
      forall i: nat
        ensures Walk(ino, start, names) == Some(i) <==> LeadsTo(ino, start, names, i)
      {
        WalkLeads(ino, start, names, i);
      }
      var cur, i := start, 0;
      RefsSize(ino, ref, valid);
      MovedSelf(ref, start);
      assert names[0..] == names;
      while i < |names|
        invariant i <= |names| && ino == old(ino) && RefsOk(ino, ref, valid)
        invariant Reachable(ino, cur) && |ref| == |ino| && ref == Moved(old(ref), start, cur)
        invariant Walk(ino, start, names) == Walk(ino, cur, names[i..])
      {
        assert names[i..][0] == names[i] && names[i..][1..] == names[i + 1..];
        MovedHas(old(ref), start, cur);
        r := Descend(cur, names[i]);
        RefsSize(ino, ref, valid);
        if r.None? {
          MovedBack(old(ref), start, cur);
          return;
        }
        MovedTrans(old(ref), start, cur, r.value);
        cur := r.value;
        i := i + 1;
      }
      assert names[i..] == [];
      r := Some(cur);
    }

    /** Where a path starts: the root, or the current directory, to which the process holds a reference. */
    method Start(cwd: Option<nat>) returns (cur: nat)
      requires RefsOk(ino, ref, valid) && Reachable(ino, StartOf(cwd)) && (cwd.Some? ==> ref[cwd.value] > 0)
      modifies `ref, `valid
      ensures RefsOk(ino, ref, valid) && cur == StartOf(cwd)
      ensures cur == if cwd.Some? then cwd.value else 1
      ensures |old(ref)| == |ref| == |ino| && ref == Up(old(ref), cur)
    {
      if cwd.None? {
        Iget(ROOTINO);
        return ROOTINO;
      }
      ref := ref[cwd.value := ref[cwd.value] + 1]; // idup
      cur := cwd.value;
    }

    /** nameiparent: the directory that holds or is to hold the last name. */
    method Nameiparent(start: nat, names: seq<Name>) returns (r: Option<nat>)
      requires Walkable(ino) && RefsOk(ino, ref, valid) && Reachable(ino, start) && ref[start] > 0
      modifies this
      ensures ino == old(ino) && RefsOk(ino, ref, valid)
      ensures r == WalkParent(ino, start, names)
      ensures forall i: nat :: r == Some(i) <==>
                names != [] && LeadsTo(ino, start, names[..|names| - 1], i) && i < |ino| && ino[i].typ == Dir
      ensures r.None? ==> ref == Less(old(ref), start)
      ensures r.Some? ==> Reachable(ino, r.value) && ino[r.value].typ == Dir && ref == Moved(old(ref), start, r.value)
    {
      hide Walkable, Walk, LeadsTo;
      if names == [] {
        Iput(start);
        return None;
      }
      r := Namex(start, names[..|names| - 1]);
      if r.Some? {
        var _ := Ilock(r.value);
        if ino[r.value].typ != Dir {
          MovedBack(old(ref), start, r.value);
          Iput(r.value);
          r := None;
        }
      }
    }

    /** Drop a reference between system calls: an inode is freed exactly when it has no link and this was the
        last reference. */
    method Drop(i: nat)
      requires Valid() && i < |ino| && ref[i] > 0
      modifies this
      ensures Valid() && ref == Less(old(ref), i)
      ensures ino == if old(ino)[i].nlink == 0 && old(ref)[i] == 1 then Freed(old(ino), i) else old(ino)
      ensures old(ino)[i].nlink == 0 ==> forall d: nat, k: nat :: !Names(old(ino), d, k, i)
    {
      hide CountsOk, DirsOk, ChildrenOk, ParentsOk, Names;
      if ino[i].nlink == 0 {
        FreeOk(ino, i);
      }
      Iput(i);
    }

    // ---- sysfile.c ----

    /** namei: the inode at the path, with a new reference. open without O_CREATE keeps it. */
    method Namei(cwd: Option<nat>, path: seq<Name>) returns (r: Option<nat>)
      requires Walkable(ino) && RefsOk(ino, ref, valid) && Reachable(ino, StartOf(cwd))
                 && (cwd.Some? ==> ref[cwd.value] > 0)
      modifies this
      ensures ino == old(ino) && RefsOk(ino, ref, valid) && r == Walk(ino, StartOf(cwd), path)
      ensures forall i: nat :: r == Some(i) <==> LeadsTo(ino, if cwd.Some? then cwd.value else 1, path, i)
      ensures r.None? ==> ref == old(ref)
      ensures r.Some? ==> Reachable(ino, r.value) && |ref| == |ino| && ref == Up(old(ref), r.value)
    {
      hide Walkable, Walk, Moved, Less, LeadsTo;
      var start := Start(cwd);
      r := Namex(start, path);
      UpAndBack(old(ref), start);
      if r.Some? {
        MovedUpAndBack(old(ref), start, r.value);
      }
    }

    /** nameiparent and dirlink, with the references they take given back. */
    method LinkInto(cwd: Option<nat>, path: seq<Name>, i: nat) returns (ok: bool, panicked: bool, ghost k: nat)
      requires Walkable(ino) && RefsOk(ino, ref, valid) && Reachable(ino, StartOf(cwd))
                 && (cwd.Some? ==> ref[cwd.value] > 0)
      modifies this
      ensures panicked <==> Crowded(old(ino), StartOf(cwd), path)
      ensures !panicked ==> RefsOk(ino, ref, valid) && ref == old(ref)
      ensures !ok ==> ino == old(ino)
      ensures ok <==> HasRoom(old(ino), StartOf(cwd), path) && !panicked
      ensures ok ==>
                var d := WalkParent(old(ino), StartOf(cwd), path).value;
                && Linked(old(ino), d) && 0 < d && FreeSlot(old(ino)[d].ents, k) && k <= |old(ino)[d].ents|
                && ino == WithEntry(old(ino), d, k, Dirent(i, path[|path| - 1]))
    {
      hide Walkable, Walk, FreeSlot, Absent, Moved, Less, DirFull;
      k, panicked := 0, false;
      var start := Start(cwd);
      var dp := Nameiparent(start, path);
      UpAndBack(old(ref), start);
      if dp.None? {
        return false, false, k;
      }
      MovedHas(Up(old(ref), start), start, dp.value);
      MovedUpAndBack(old(ref), start, dp.value);
      DirFits(ino, dp.value);
      ok, panicked, k := Dirlink(dp.value, path[|path| - 1], i);
      if !panicked {
        Iput(dp.value);
      }
    }

    /** sys_link from `ip->nlink++` on, with the count taken back where it says `bad`. */
    method AddName(i: nat, cwd: Option<nat>, path: seq<Name>) returns (ok: bool, panicked: bool, ghost k: nat)
      requires Valid() && Reachable(ino, i) && ino[i].typ != Dir
      requires Reachable(ino, StartOf(cwd)) && (cwd.Some? ==> ref[cwd.value] > 0)
      modifies this
      ensures panicked <==> Crowded(old(ino), StartOf(cwd), path)
      ensures panicked ==> ino == old(ino)[i := old(ino)[i].(nlink := old(ino)[i].nlink + 1)]
      ensures !panicked ==> Valid() && ref == old(ref) && |ino| == |old(ino)| && ino[i].nlink > 0
      ensures ok <==> HasRoom(old(ino), StartOf(cwd), path) && !panicked
      ensures !ok && !panicked ==> ino == old(ino)
      ensures ok ==> |path| > 0 && WalkParent(old(ino), StartOf(cwd), path).Some?
      ensures ok ==> Linking(old(ino), ino, WalkParent(old(ino), StartOf(cwd), path).value, k, path[|path| - 1], i)
    {
      hide Inv, Walkable, Walk, WalkParent, FreeSlot, Absent, Link, Linking, DirFull;
      ghost var s := ino;
      InvWalkable(s);
      ino := ino[i := ino[i].(nlink := ino[i].nlink + 1)];
      Bumped(s, i);
      WalkSame(s, ino, StartOf(cwd), path);
      ok, panicked, k := LinkInto(cwd, path, i);
      if panicked {
        return;
      }
      if ok {
        RoomParts(s, StartOf(cwd), path);
        IsLink(s, WalkParent(s, StartOf(cwd), path).value, k, path[|path| - 1], i);
        LinkedFile(s, WalkParent(s, StartOf(cwd), path).value, k, path[|path| - 1], i);
      } else {
        ino := ino[i := ino[i].(nlink := ino[i].nlink - 1)]; // bad:
        assert ino == s;
      }
    }

    /** Another name for a file; nothing has changed when it cannot be made. A panic exactly if the name would be
        new in a full directory. */
    method SysLink(c0: Option<nat>, path: seq<Name>, c1: Option<nat>, newPath: seq<Name>)
      returns (ok: bool, panicked: bool, ghost k: nat)
      requires Valid()
      requires c0.Some? ==> Reachable(ino, c0.value) && ref[c0.value] > 0
      requires c1.Some? ==> Reachable(ino, c1.value) && ref[c1.value] > 0
      modifies this
      ensures panicked <==> Linkable(old(ino), StartOf(c0), path) && Crowded(old(ino), StartOf(c1), newPath)
      ensures panicked ==>
                var i := Walk(old(ino), StartOf(c0), path).value;
                i < |old(ino)| && ino == old(ino)[i := old(ino)[i].(nlink := old(ino)[i].nlink + 1)]
      ensures !panicked ==> Valid() && ref == old(ref)
      ensures ok <==> Linkable(old(ino), StartOf(c0), path) && HasRoom(old(ino), StartOf(c1), newPath) && !panicked
      ensures !ok && !panicked ==> ino == old(ino)
      ensures ok ==> Linking(old(ino), ino, WalkParent(old(ino), StartOf(c1), newPath).value, k, newPath[|newPath| - 1],
                             Walk(old(ino), StartOf(c0), path).value)
    {
      hide Inv, Walkable, Walk, WalkParent, HasRoom, Less, Linking, Crowded;
      InvWalkable(ino);
      k, panicked := 0, false;
      var r := Namei(c0, path);
      if r.None? {
        return false, false, k;
      }
      var i := r.value;
      UpDown(old(ref), i);
      UpKeeps(old(ref), i);
      var _ := Ilock(i);
      if ino[i].typ == Dir {
        Iput(i);
        return false, false, k;
      }
      ok, panicked, k := AddName(i, c1, newPath);
      if !panicked {
        Iput(i);
      }
    }

    /** Nothing but "." and "..". */
    method Isdirempty(i: nat) returns (empty: bool)
      requires i < |ino|
      ensures empty <==> Empty(ino[i].ents)
    {
      var off := 2;
      while off < |ino[i].ents|
        invariant forall l :: 2 <= l < off && l < |ino[i].ents| ==> ino[i].ents[l].inum == 0
      {
        if ino[i].ents[off].inum != 0 {
          return false;
        }
        off := off + 1;
      }
      empty := true;
    }

    /** Remove a name. The inode goes with its last name unless somebody still refers to it. */
    method SysUnlink(cwd: Option<nat>, path: seq<Name>) returns (ok: bool)
      requires Valid() && (cwd.Some? ==> Reachable(ino, cwd.value) && ref[cwd.value] > 0)
      modifies this
      ensures Valid() && ref == old(ref)
      ensures ok <==> Unlinkable(old(ino), StartOf(cwd), path)
      ensures !ok ==> ino == old(ino)
      ensures ok ==> Unlinking(old(ino), ino, old(ref), WalkParent(old(ino), StartOf(cwd), path).value,
                               path[|path| - 1])
    {
      hide Inv, Walkable, Walk, Moved, Less, Empty;
      ghost var s := ino;
      InvWalkable(ino);
      var start := Start(cwd);
      var r := Nameiparent(start, path);
      UpAndBack(old(ref), start);
      if r.None? {
        return false;
      }
      var dp := r.value;
      MovedHas(Up(old(ref), start), start, dp);
      MovedUpAndBack(old(ref), start, dp);
      DirFits(ino, dp);
      ok := UnlinkIn(dp, path[|path| - 1], old(ref));
    }

    /** Both inodes given back where neither can go away. */
    method PutBoth(i: nat, dp: nat, ghost ref0: seq<nat>)
      requires Valid() && i < |ino| && dp < |ino| && ino[i].nlink > 0 && ino[dp].nlink > 0
      requires |ref0| == |ino| && ref == ref0[dp := ref0[dp] + 1][i := ref0[dp := ref0[dp] + 1][i] + 1]
      modifies this
      ensures Valid() && ref == ref0 && ino == old(ino)
    {
      hide Inv;
      TwoRefs(ref0, dp, i);
      Iput(i);
      Iput(dp);
    }

    /** sys_unlink once the parent directory is at hand. */
    method UnlinkIn(dp: nat, name: Name, ghost ref0: seq<nat>) returns (ok: bool)
      requires Valid() && 0 < dp < |ino| && Linked(ino, dp) && EntriesFit(ino, dp)
      requires |ref0| == |ino| && ref == ref0[dp := ref0[dp] + 1]
      modifies this
      ensures Valid() && ref == ref0
      ensures ok <==> NameFree(old(ino), dp, name)
      ensures !ok ==> ino == old(ino)
      ensures ok ==> Unlinking(old(ino), ino, ref0, dp, name)
    {
      hide Inv, Empty, Lookup, Unlink, Removed, Unlinking;
      ghost var s := ino;
      UpAndBack(ref0, dp);
      if name == "." || name == ".." {
        Iput(dp);
        return false;
      }
      var r, off := Dirlookup(dp, name);
      if r.None? {
        Iput(dp);
        return false;
      }
      var i := r.value;
      FoundEntry(s, dp, off, name);
      var _ := Ilock(i);
      assert ino[i].nlink >= 1; // else panic("unlink: nlink < 1")
      TwoRefs(ref0, dp, i);
      if ino[i].typ == Dir {
        var empty := Isdirempty(i);
        if !empty {
          PutBoth(i, dp, ref0);
          return false;
        }
      }
      RemoveEntry(dp, off, i, ref0);
      IsUnlinking(s, ino, ref0, dp, off, name);
      ok := true;
    }

    /** The rest of sys_unlink: clear the dirent, count the links down, give both inodes back. */
    method RemoveEntry(dp: nat, off: nat, i: nat, ghost ref0: seq<nat>)
      requires Valid() && Removable(ino, dp, off) && i == ino[dp].ents[off].inum
      requires |ref0| == |ino| && ref == ref0[dp := ref0[dp] + 1][i := ref0[dp := ref0[dp] + 1][i] + 1] && valid[i]
      modifies this
      ensures Valid() && ref == ref0 && Removed(old(ino), ino, ref0, dp, off)
    {
      hide Inv, Empty, Unlink, Less, Removable;
      ghost var s := ino;
      RemovableParts(s, dp, off);
      UnlinkOk(s, dp, off);
      UnlinkStays(s, dp, off);
      UnlinkIs(s, dp, off);
      TwoRefs(ref0, dp, i);
      var wasDir := ino[i].typ == Dir;
      ino := ino[dp := ino[dp].(ents := Directories.Put(ino[dp].ents, off, Dirent(0, "")))];
      if wasDir {
        ino := ino[dp := ino[dp].(nlink := ino[dp].nlink - 1)];
      }
      Iput(dp);
      ino := ino[i := ino[i].(nlink := ino[i].nlink - 1)];
      assert ino == Unlink(s, dp, off);
      DropLast(i, ref0);
    }

    /** iput of a loaded inode when every other reference is as in `ref0`. */
    method DropLast(i: nat, ghost ref0: seq<nat>)
      requires Inv(ino) && |ref0| == |ref| == |valid| == |ino| && 0 < i < |ino| && ref[i] > 0 && ref0 == Less(ref, i)
                 && valid[i]
      requires RefsOkBut(ino, ref, valid, i)
      requires ino[i].typ != Unused
      modifies this
      ensures Valid() && ref == ref0
      ensures ino == if old(ino)[i].nlink == 0 && ref0[i] == 0 then Freed(old(ino), i) else old(ino)
    {
      hide Inv;
      if ino[i].nlink == 0 {
        FreeOk(ino, i);
      }
      Iput(i);
    }

    /** The first free inode, marked with its type; a panic (None) exactly if there is none. */
    method Ialloc(typ: Typ) returns (r: Option<nat>)
      requires RefsOk(ino, ref, valid) && typ != Unused
      modifies this
      ensures r.None? <==> !HasFree(old(ino))
      ensures r.None? ==> ino == old(ino) && ref == old(ref) && valid == old(valid)
      ensures r.Some? ==> FirstFree(old(ino), r.value) && ino == old(ino)[r.value := Ino(typ, 0, [])]
      ensures r.Some? ==> |ref| == |valid| == |ino| == |old(ref)|
      ensures r.Some? ==> ref == Up(old(ref), r.value) && old(ref)[r.value] == 0 && RefsOkBut(ino, ref, valid, r.value)
    {
      var i := 1;
      while i < |ino| && ino[i].typ != Unused
        invariant 0 < i && forall j :: 1 <= j < i && j < |ino| ==> ino[j].typ != Unused
      {
        i := i + 1;
      }
      if i >= |ino| {
        return None; // panic("ialloc: no inodes")
      }
      ino := ino[i := Ino(typ, 0, [])];
      Iget(i);
      r := Some(i);
    }

    /** create: the inode now at the path, with a new reference; nothing if the directory is missing or the name
        is taken by something that cannot be opened as a file. A panic (not ok) exactly if the name is new and
        no inode is free or the directory is full. */
    method Create(cwd: Option<nat>, path: seq<Name>, typ: Typ) returns (ok: bool, r: Option<nat>)
      requires Valid() && typ != Unused
      requires Reachable(ino, StartOf(cwd)) && (cwd.Some? ==> ref[cwd.value] > 0)
      modifies this
      ensures ok || !HasFree(old(ino)) ==> Valid()
      ensures ok <==> !NameMissing(old(ino), WalkParent(old(ino), StartOf(cwd), path), path)
                      || (HasFree(old(ino)) && !DirFull(old(ino)[WalkParent(old(ino), StartOf(cwd), path).value].ents))
      ensures !HasFree(old(ino)) ==> ino == old(ino)
      ensures ok && r.None? ==> ino == old(ino) && ref == old(ref)
      ensures ok && r.Some? ==> r.value < |old(ref)| && ref == Up(old(ref), r.value)
      ensures ok ==> CreateResult(old(ino), ino, WalkParent(old(ino), StartOf(cwd), path), path, typ, r)
    {
      hide Inv, Walkable, Walk, WalkParent, Moved, Less, CreateIn, HasFree, DirFull;
      ghost var s := ino;
      InvWalkable(ino);
      var start := Start(cwd);
      var dp := Nameiparent(start, path);
      UpAndBack(old(ref), start);
      ParentParts(s, start, path);
      if dp.None? {
        return true, None;
      }
      MovedHas(Up(old(ref), start), start, dp.value);
      MovedUpAndBack(old(ref), start, dp.value);
      DirFits(ino, dp.value);
      ok, r := CreateAt(dp.value, path[|path| - 1], typ, old(ref));
    }

    /** create once the parent directory is at hand. */
    method CreateAt(dp: nat, name: Name, typ: Typ, ghost ref0: seq<nat>) returns (ok: bool, r: Option<nat>)
      requires Valid() && 0 < dp < |ino| && Linked(ino, dp) && EntriesFit(ino, dp) && typ != Unused
      requires |ref0| == |ino| && ref == Up(ref0, dp)
      modifies this
      ensures ok || !HasFree(old(ino)) ==> Valid()
      ensures ok <==> Has(old(ino)[dp].ents, name) || (HasFree(old(ino)) && !DirFull(old(ino)[dp].ents))
      ensures !HasFree(old(ino)) ==> ino == old(ino)
      ensures ok && r.None? ==> ino == old(ino) && ref == ref0
      ensures ok && r.Some? ==> r.value < |ref0| && ref == Up(ref0, r.value)
      ensures ok ==> CreateIn(old(ino), ino, dp, name, typ, r)
    {
      hide Inv, Lookup, Absent, DirFull, HasFree;
      ghost var s := ino;
      UpAndBack(ref0, dp);
      HasOrAbsent(ino[dp].ents, name);
      var found, off := Dirlookup(dp, name);
      if found.Some? {
        Iput(dp);
        var i := found.value;
        InvSound(s);
        assert EntryAt(s, dp, off);
        var _ := Ilock(i);
        if typ == File && ino[i].typ == File {
          return true, found;
        }
        Iput(i);
        return true, None;
      }
      ok, r := CreateNew(dp, name, typ, ref0);
    }

    /** create for a name that is not taken. */
    method CreateNew(dp: nat, name: Name, typ: Typ, ghost ref0: seq<nat>) returns (ok: bool, r: Option<nat>)
      requires Valid() && 0 < dp < |ino| && Linked(ino, dp) && EntriesFit(ino, dp) && typ != Unused
      requires |ref0| == |ino| && ref == Up(ref0, dp) && Absent(ino[dp].ents, name)
      modifies this
      ensures ok <==> HasFree(old(ino)) && !DirFull(old(ino)[dp].ents)
      ensures ok || !HasFree(old(ino)) ==> Valid()
      ensures !HasFree(old(ino)) ==> ino == old(ino)
      ensures ok ==> r.Some? && r.value < |ref0| && ref == Up(ref0, r.value)
      ensures ok ==> CreateIn(old(ino), ino, dp, name, typ, r)
    {
      hide Inv, Lookup, Absent, HasFree, CreateIn, FreeSlot, Less, FirstFree, DirFull;
      ghost var s := ino;
      var made := NewInode(dp, typ);
      if made.None? {
        return false, None;
      }
      var i := made.value;
      TwoRefs(ref0, dp, i);
      FitsStill(s, ino, dp, i);
      ghost var k;
      var full;
      ok, full, k := Dirlink(dp, name, i);
      if full {
        return false, None; // panic("dirlink")
      }
      assert ok; // else panic("create: dirlink")
      IsCreate(s, ino, dp, k, name, i, typ);
      Iput(dp);
      r := Some(i);
    }

    /** ialloc and the fields of the new inode; a directory also counts in its parent and gets "." and "..". */
    method NewInode(dp: nat, typ: Typ) returns (r: Option<nat>)
      requires Valid() && 0 < dp < |ino| && Linked(ino, dp) && typ != Unused
      modifies this
      ensures r.None? <==> !HasFree(old(ino))
      ensures r.None? ==> Valid() && ino == old(ino)
      ensures r.Some? ==>
                var i := r.value;
                && FirstFree(old(ino), i) && 0 < i < |old(ino)| && i != dp && old(ino)[i].typ == Unused
                && ino == old(ino)[i := Ino(typ, 1, DotsOf(typ, i, dp))]
                                  [dp := old(ino)[dp].(nlink := old(ino)[dp].nlink + (if typ == Dir then 1 else 0))]
                && RefsOk(ino, ref, valid) && |old(ref)| == |ref| && ref == Up(old(ref), i)
    {
      hide Inv, HasFree;
      r := Ialloc(typ);
      if r.None? {
        return;
      }
      var i := r.value;
      InvUsed(old(ino), dp, i);
      var _ := Ilock(i);
      ino := ino[i := ino[i].(nlink := 1)];
      if typ == Dir {
        ino := ino[dp := ino[dp].(nlink := ino[dp].nlink + 1)]; // for ".."
        Dots(i, dp);
      }
    }

    /** "." and ".." of a new directory. */
    method Dots(i: nat, dp: nat)
      requires RefsOk(ino, ref, valid) && 0 < i < |ino| && ino[i] == Ino(Dir, 1, []) && 0 < dp < |ino|
                 && ino[dp].nlink > 0
      modifies this
      ensures RefsOk(ino, ref, valid) && ref == old(ref)
      ensures ino == old(ino)[i := Ino(Dir, 1, DotsOf(Dir, i, dp))]
    {
      hide RefsOk;
      var ok, full, k := Dirlink(i, ".", i);
      assert ok;
      assert ino[i].ents == [Dirent(i, ".")];
      ghost var j;
      ok, full, j := Dirlink(i, "..", dp);
      assert ok; // else panic("create dots")
      assert ino[i].ents == [Dirent(i, "."), Dirent(dp, "..")];
    }

    // ---- any sequence of calls ----

    /** Whether `cwd` can be where a process is: referenced, and not unlinked. */
    method Stands(cwd: Option<nat>) returns (ok: bool)
      requires Valid()
      ensures ok <==> cwd.None? || (Reachable(ino, cwd.value) && cwd.value < |ref| && ref[cwd.value] > 0)
    {
      ok := cwd.None? || (Reachable(ino, cwd.value) && cwd.value < |ref| && ref[cwd.value] > 0);
    }

    /** One call; the kernel is still up afterwards unless it halts on a full inode table or directory. A call that
        panics has not committed, so what it leaves is the state before it. */
    method Call(c: Syscall) returns (up: bool)
      requires Valid()
      modifies this
      ensures Valid()
      ensures up <==> !(CanCall(old(ino), old(ref), c) && Halts(old(ino), c))
      ensures up ==> Did(old(ino), old(ref), ino, ref, c)
      ensures !up ==> ino == old(ino) && ref == old(ref)
    {
      hide Inv, RefsOk, HasFree, Walk, WalkParent, DirFull, Linkable, Crowded, NameMissing, HasRoom, Unlinkable,
           Unlinking, Linking, CreateResult, Freed, Less, Up;
      InvWalkable(ino);
      Sizes();
      up := true;
      var was, wasRef, wasValid := ino, ref, valid;
      if c.Close? {
        if c.i < |ino| && c.i < |ref| && ref[c.i] > 0 {
          Drop(c.i);
        }
        return;
      }
      var stands := Stands(c.cwd);
      if !stands {
        return;
      }
      match c
      case Make(cwd, path, typ) =>
        if typ != Unused {
          var r;
          up, r := Create(cwd, path, typ);
        }
        if !up {
          ino, ref, valid := was, wasRef, wasValid;
        }
      case MakeLink(cwd, path, newPath) =>
        var ok, panicked, k := SysLink(cwd, path, cwd, newPath);
        if panicked {
          up := false;
          ino, ref, valid := was, wasRef, wasValid;
        } else if ok {
          RoomParts(was, StartOf(cwd), newPath);
          LinkableParts(was, StartOf(cwd), path);
          assert LinkedIn(was, ino, WalkParent(was, StartOf(cwd), newPath).value, newPath[|newPath| - 1],
                          Walk(was, StartOf(cwd), path).value);
        } else {
          RoomMissing(was, StartOf(cwd), newPath);
        }
      case Remove(cwd, path) =>
        UnlinkableParts(was, StartOf(cwd), path);
        var _ := SysUnlink(cwd, path);
      case OpenFile(cwd, path) =>
        var _ := Namei(cwd, path);
    }

    lemma Sizes()
      requires Valid()
      ensures |ref| == |valid| == |ino|
    {
    }

    /** Over every sequence of calls, with absolute paths or from any directory that is in use and linked, the
        counts stay right. Each state follows from the one before by what its call does; the run ends early only at
        a call that halts the kernel. */
    method Run(calls: seq<Syscall>) returns (ghost trace: seq<Moment>)
      requires Valid()
      modifies this
      ensures Valid()
      ensures History(trace, calls) && trace[0] == old(Moment(ino, ref)) && trace[|trace| - 1] == Moment(ino, ref)
      ensures |trace| <= |calls| ==>
                CanCall(ino, ref, calls[|trace| - 1]) && Halts(ino, calls[|trace| - 1])
    {
      hide Inv, RefsOk, Did, CanCall, Halts;
      trace := [Moment(ino, ref)];
      var k, up := 0, true;
      while k < |calls| && up
        invariant 0 <= k <= |calls| && Valid() && History(trace, calls)
        invariant |trace| == (if up then k else k - 1) + 1 && trace[|trace| - 1] == Moment(ino, ref)
        invariant trace[0] == old(Moment(ino, ref))
        invariant !up ==> CanCall(ino, ref, calls[k - 1]) && Halts(ino, calls[k - 1])
        decreases |calls| - k
      {
        up := Call(calls[k]);
        if up {
          trace := trace + [Moment(ino, ref)];
        }
        k := k + 1;
      }
    }
  }

  /** The inodes and the references to them at one moment. */
  datatype Moment = Moment(ino: Inodes, ref: seq<nat>)

  /** What a call that returns does: to the inodes, and to the references that processes hold. */
  ghost predicate Did(s: Inodes, ref: seq<nat>, s': Inodes, ref': seq<nat>, c: Syscall) {
    if !CanCall(s, ref, c) then s' == s && ref' == ref else
    match c
    case Make(cwd, path, typ) =>
      if typ == Unused then s' == s && ref' == ref
      else exists r: Option<nat> :: CreateResult(s, s', WalkParent(s, StartOf(cwd), path), path, typ, r)
                                    && (r.None? ==> ref' == ref)
                                    && (r.Some? ==> r.value < |ref| && ref' == Up(ref, r.value))
    case MakeLink(cwd, path, newPath) =>
      && ref' == ref
      && if Linkable(s, StartOf(cwd), path) && HasRoom(s, StartOf(cwd), newPath) then
           |newPath| > 0 && LinkedIn(s, s', WalkParent(s, StartOf(cwd), newPath).value, newPath[|newPath| - 1],
                                     Walk(s, StartOf(cwd), path).value)
         else s' == s
    case Remove(cwd, path) =>
      && ref' == ref
      && if Unlinkable(s, StartOf(cwd), path) then
           |path| > 0 && Unlinking(s, s', ref, WalkParent(s, StartOf(cwd), path).value, path[|path| - 1])
         else s' == s
    case OpenFile(cwd, path) =>
      var r := Walk(s, StartOf(cwd), path);
      s' == s && (r.None? ==> ref' == ref) && (r.Some? ==> r.value < |ref| && ref' == Up(ref, r.value))
    case Close(i) =>
      if i < |s| && i < |ref| && ref[i] > 0 then
        ref' == Less(ref, i) && s' == if s[i].nlink == 0 && ref[i] == 1 then Freed(s, i) else s
      else s' == s && ref' == ref
  }

  /** Inode `i` has got the name `name` in directory `d`. */
  ghost predicate LinkedIn(s: Inodes, s': Inodes, d: nat, name: Name, i: nat) {
    exists k: nat :: Linking(s, s', d, k, name, i)
  }

  ghost predicate History(trace: seq<Moment>, calls: seq<Syscall>) {
    && 1 <= |trace| <= |calls| + 1
    && forall k :: 0 <= k < |trace| - 1 ==>
         Did(trace[k].ino, trace[k].ref, trace[k + 1].ino, trace[k + 1].ref, calls[k])
  }

  /** A reference to `i` in exchange for one to `cur`. */
  function Moved(ref: seq<nat>, cur: nat, i: nat): seq<nat>
    requires cur < |ref| && i < |ref| && ref[cur] > 0
  {
    var up := ref[i := ref[i] + 1];
    up[cur := up[cur] - 1]
  }

  function StartOf(cwd: Option<nat>): nat {
    if cwd.Some? then cwd.value else ROOTINO
  }

  predicate Reachable(s: Inodes, i: nat) {
    0 < i < |s| && s[i].typ != Unused && s[i].nlink > 0
  }

  predicate InumsOk(s: Inodes, d: nat)
    requires d < |s|
  {
    forall k :: 0 <= k < |s[d].ents| ==> s[d].ents[k].inum < |s|
  }

  predicate Walkable(s: Inodes) {
    Sound(s) && forall d: nat :: d < |s| && Linked(s, d) ==> InumsOk(s, d)
  }

  function Less(ref: seq<nat>, i: nat): (r: seq<nat>)
    requires i < |ref| && ref[i] > 0
    ensures |r| == |ref|
  {
    ref[i := ref[i] - 1]
  }

  lemma RefsSize(s: Inodes, ref: seq<nat>, valid: seq<bool>)
    requires RefsOk(s, ref, valid)
    ensures |ref| == |valid| == |s|
  {
  }

  lemma MovedSelf(ref: seq<nat>, i: nat)
    requires i < |ref| && ref[i] > 0
    ensures Moved(ref, i, i) == ref
  {
  }

  lemma MovedHas(ref: seq<nat>, start: nat, cur: nat)
    requires start < |ref| && cur < |ref| && ref[start] > 0
    ensures Moved(ref, start, cur)[cur] > 0
  {
  }

  lemma MovedTrans(ref: seq<nat>, start: nat, cur: nat, i: nat)
    requires start < |ref| && cur < |ref| && i < |ref| && ref[start] > 0 && Moved(ref, start, cur)[cur] > 0
    ensures Moved(Moved(ref, start, cur), cur, i) == Moved(ref, start, i)
  {
  }

  lemma MovedBack(ref: seq<nat>, start: nat, cur: nat)
    requires start < |ref| && cur < |ref| && ref[start] > 0
    ensures Moved(ref, start, cur)[cur] > 0
    ensures Less(Moved(ref, start, cur), cur) == Less(ref, start)
  {
  }

  lemma InvWalkable(s: Inodes)
    requires Inv(s)
    ensures Walkable(s) && Reachable(s, ROOTINO)
  {
    hide CountsOk, ChildrenOk, ParentsOk, Sound;
    InvSound(s);
    forall d: nat | d < |s| && Linked(s, d)
      ensures InumsOk(s, d)
    {
      assert DirAt(s, d);
    }
  }

  /** The first path leads to something that is not a directory. */
  predicate Linkable(s: Inodes, start: nat, path: seq<Name>) {
    var i := Walk(s, start, path);
    i.Some? && i.value < |s| && s[i.value].typ != Dir
  }

  /** The path's last name is not yet in its directory. */
  predicate HasRoom(s: Inodes, start: nat, path: seq<Name>) {
    var d := WalkParent(s, start, path);
    d.Some? && d.value < |s| && Absent(s[d.value].ents, path[|path| - 1])
  }

  /** Bytes of a dirent, and dirents in a file of MAXFILE blocks (project1). */
  const DIRENT := 16
  const MAXDIRENTS := 4480

  /** No dirent is free that writei can reach, and none can be added. */
  predicate DirFull(ents: seq<Dirent>) {
    |ents| >= MAXDIRENTS && forall j :: 0 <= j < MAXDIRENTS ==> ents[j].inum != 0
  }

  /** The path's last name would be new in a directory that is full. */
  predicate Crowded(s: Inodes, start: nat, path: seq<Name>) {
    HasRoom(s, start, path) && DirFull(s[WalkParent(s, start, path).value].ents)
  }

  lemma RoomParts(s: Inodes, start: nat, path: seq<Name>)
    requires HasRoom(s, start, path)
    ensures |path| > 0 && WalkParent(s, start, path).Some?
  {
  }

  lemma RoomMissing(s: Inodes, start: nat, path: seq<Name>)
    ensures Crowded(s, start, path) ==> HasRoom(s, start, path)
  {
  }

  lemma LinkableParts(s: Inodes, start: nat, path: seq<Name>)
    requires Linkable(s, start, path)
    ensures Walk(s, start, path).Some?
  {
  }

  lemma UnlinkableParts(s: Inodes, start: nat, path: seq<Name>)
    ensures Unlinkable(s, start, path) ==> |path| > 0 && WalkParent(s, start, path).Some?
  {
  }

  predicate Linking(s: Inodes, s': Inodes, d: nat, k: nat, name: Name, i: nat) {
    NewName(s, d, k, name) && i < |s| && s' == Link(s, d, k, name, i)
  }

  lemma IsLink(s: Inodes, d: nat, k: nat, name: Name, i: nat)
    requires Inv(s) && Reachable(s, i) && s[i].typ != Dir && 0 < d && Linked(s, d)
    requires FreeSlot(s[d].ents, k) && Absent(s[d].ents, name)
    ensures Linking(s, Link(s, d, k, name, i), d, k, name, i) && Inv(Link(s, d, k, name, i))
  {
    hide CountsOk, DirsOk, ChildrenOk, ParentsOk, RootOk, UnusedOk, FreeSlot, Absent, Link;
    LinkOk(s, d, k, name, i);
  }

  lemma LinkedFile(s: Inodes, d: nat, k: nat, name: Name, i: nat)
    requires Inv(s) && Reachable(s, i) && s[i].typ != Dir && 0 < d && Linked(s, d) && k <= |s[d].ents|
    ensures Link(s, d, k, name, i) == WithEntry(WithNlink(s, i, s[i].nlink + 1), d, k, Dirent(i, name))
    ensures i != d && |Link(s, d, k, name, i)| == |s| && Link(s, d, k, name, i)[i].nlink > 0
  {
  }

  /** The inodes named in a directory exist and have links. */
  predicate EntriesFit(s: Inodes, d: nat)
    requires d < |s|
  {
    InumsOk(s, d) && forall k :: 0 <= k < |s[d].ents| && s[d].ents[k].inum != 0 ==> s[s[d].ents[k].inum].nlink > 0
  }

  lemma DirFits(s: Inodes, d: nat)
    requires Walkable(s) && 0 < d && Linked(s, d)
    ensures EntriesFit(s, d)
  {
    assert InumsOk(s, d);
    forall k | 0 <= k < |s[d].ents| && s[d].ents[k].inum != 0
      ensures s[s[d].ents[k].inum].nlink > 0
    {
      assert EntryAt(s, d, k);
    }
  }

  function Up(ref: seq<nat>, i: nat): (r: seq<nat>)
    requires i < |ref|
    ensures |r| == |ref|
  {
    ref[i := ref[i] + 1]
  }

  lemma UpDown(ref: seq<nat>, i: nat)
    requires i < |ref|
    ensures Up(ref, i)[i] > 0 && Less(Up(ref, i), i) == ref
  {
  }

  lemma UpKeeps(ref: seq<nat>, i: nat)
    requires i < |ref|
    ensures forall j :: 0 <= j < |ref| && ref[j] > 0 ==> Up(ref, i)[j] > 0
  {
  }

  lemma UpAndBack(ref: seq<nat>, i: nat)
    requires i < |ref|
    ensures Less(Up(ref, i), i) == ref
  {
  }

  lemma MovedUpAndBack(ref: seq<nat>, start: nat, i: nat)
    requires start < |ref| && i < |ref|
    ensures var up := Moved(Up(ref, start), start, i);
            up[i] > 0 && up == Up(ref, i) && Less(up, i) == ref
  {
  }

  /** Raising the count of a file hides nothing from a walk. */
  lemma Bumped(s: Inodes, i: nat)
    requires Inv(s) && Walkable(s) && Reachable(s, i) && s[i].typ != Dir
    ensures Walkable(WithNlink(s, i, s[i].nlink + 1))
    ensures forall j: nat :: Reachable(s, j) ==> Reachable(WithNlink(s, i, s[i].nlink + 1), j)
  {
    hide Inv;
    var s' := WithNlink(s, i, s[i].nlink + 1);
    forall d: nat, k: nat | 0 < d < |s'| && Linked(s', d) && k < |s'[d].ents|
      ensures EntryAt(s', d, k)
    {
      assert EntryAt(s, d, k);
    }
    forall d: nat | d < |s'| && Linked(s', d)
      ensures InumsOk(s', d)
    {
      assert InumsOk(s, d);
    }
  }

  lemma {:induction false} WalkSame(s: Inodes, s': Inodes, cur: nat, names: seq<Name>)
    requires |s'| == |s| && forall i :: 0 <= i < |s| ==> s'[i].typ == s[i].typ && s'[i].ents == s[i].ents
    ensures Walk(s', cur, names) == Walk(s, cur, names)
    ensures WalkParent(s', cur, names) == WalkParent(s, cur, names)
    decreases |names|
  {
    hide Lookup;
    if names != [] {
      if cur < |s| && s[cur].typ == Dir && Has(s[cur].ents, names[0]) {
        WalkSame(s, s', s[cur].ents[Lookup(s[cur].ents, names[0], 0)].inum, names[1..]);
      }
      WalkSame(s, s', cur, names[..|names| - 1]);
    }
  }

  // ---- unlink ----

  /** The name is in the directory, is not "." or "..", and does not lead to a directory with entries. */
  predicate NameFree(s: Inodes, d: nat, name: Name)
    requires d < |s|
  {
    var off := Lookup(s[d].ents, name, 0);
    && name != "." && name != ".." && off < |s[d].ents| && s[d].ents[off].inum < |s|
    && (s[s[d].ents[off].inum].typ == Dir ==> Empty(s[s[d].ents[off].inum].ents))
  }

  predicate Unlinkable(s: Inodes, start: nat, path: seq<Name>) {
    var d := WalkParent(s, start, path);
    d.Some? && d.value < |s| && NameFree(s, d.value, path[|path| - 1])
  }

  /** The entry is gone and counted out; the inode is free if that was its last name and it is not in use. */
  predicate Removed(s: Inodes, s': Inodes, ref: seq<nat>, d: nat, k: nat) {
    |ref| == |s| && Removable(s, d, k) &&
    var i := s[d].ents[k].inum;
    s[i].nlink > 0 && s[d].nlink > 0 &&
    var u := Unlink(s, d, k);
    i < |u| && s' == if u[i].nlink == 0 && ref[i] == 0 then Freed(u, i) else u
  }

  predicate Unlinking(s: Inodes, s': Inodes, ref: seq<nat>, d: nat, name: Name) {
    d < |s| && Removed(s, s', ref, d, Lookup(s[d].ents, name, 0))
  }

  lemma IsUnlinking(s: Inodes, s': Inodes, ref: seq<nat>, d: nat, k: nat, name: Name)
    requires d < |s| && k == Lookup(s[d].ents, name, 0) && Removed(s, s', ref, d, k)
    ensures Unlinking(s, s', ref, d, name)
  {
    hide Removed, Lookup;
  }

  lemma RemovableParts(s: Inodes, d: nat, k: nat)
    requires Inv(s) && Removable(s, d, k)
    ensures 0 < d < |s| && Linked(s, d) && k < |s[d].ents| && 0 < s[d].ents[k].inum < |s|
    ensures s[s[d].ents[k].inum].typ != Unused
  {
    hide Inv, Empty;
    UnlinkParts(s, d, k);
  }

  lemma FoundEntry(s: Inodes, d: nat, k: nat, name: Name)
    requires Inv(s) && 0 < d < |s| && Linked(s, d) && k < |s[d].ents| && s[d].ents[k].inum != 0
               && s[d].ents[k].name == name
    requires name != "." && name != ".."
    ensures k >= 2 && 0 < s[d].ents[k].inum < |s| && s[s[d].ents[k].inum].nlink > 0
    ensures s[s[d].ents[k].inum].typ != Unused
  {
    hide CountsOk, ChildrenOk, ParentsOk;
    assert DirAt(s, d);
    EntryNames(s, d, k);
  }

  lemma TwoRefs(ref: seq<nat>, d: nat, i: nat)
    requires d < |ref| && i < |ref|
    ensures var up := ref[d := ref[d] + 1];
            var up2 := up[i := up[i] + 1];
            && up2[i] > 0 && up2[d] > 0 && Less(up2, i) == up && Less(up, d) == ref
            && Less(up2, d) == ref[i := ref[i] + 1] && Less(ref[i := ref[i] + 1], i) == ref
  {
  }

  /** The directory keeps a link, so putting it back cannot free it. */
  lemma UnlinkStays(s: Inodes, d: nat, k: nat)
    requires Inv(s) && Removable(s, d, k)
    ensures s[d].ents[k].inum != d
    ensures s[s[d].ents[k].inum].typ == Dir ==> s[d].nlink >= 2
  {
    hide Inv, Unlink, Empty;
    UnlinkParts(s, d, k);
  }

  lemma UnlinkIs(s: Inodes, d: nat, k: nat)
    requires Inv(s) && Removable(s, d, k)
    ensures s[s[d].ents[k].inum].nlink > 0 && s[d].nlink > 0
    ensures var i := s[d].ents[k].inum;
            i != d && Unlink(s, d, k) ==
            s[d := Ino(Dir, s[d].nlink - (if s[i].typ == Dir then 1 else 0),
                       Directories.Put(s[d].ents, k, Dirent(0, "")))]
             [i := s[i].(nlink := s[i].nlink - 1)]
  {
    hide Inv, Unlink, Empty;
    UnlinkParts(s, d, k);
  }

  // ---- create ----

  predicate HasFree(s: Inodes) {
    |s| > 0 && exists i :: 1 <= i < |s| && s[i].typ == Unused
  }

  predicate FirstFree(s: Inodes, i: nat) {
    0 < i < |s| && s[i].typ == Unused && forall j :: 1 <= j < i ==> s[j].typ != Unused
  }

  /** A taken name yields its inode if both are files, a new one the first free inode. */
  ghost predicate CreateIn(s: Inodes, s': Inodes, d: nat, name: Name, typ: Typ, r: Option<nat>) {
    && d < |s|
    && var k := Lookup(s[d].ents, name, 0);
       if k < |s[d].ents| then
         && s' == s && s[d].ents[k].inum < |s|
         && r == if typ == File && s[s[d].ents[k].inum].typ == File then Some(s[d].ents[k].inum) else None
       else
         && r.Some? && FirstFree(s, r.value)
         && exists l :: NewName(s, d, l, name) && s' == Directories.Create(s, d, l, name, r.value, typ)
  }

  ghost predicate CreateResult(s: Inodes, s': Inodes, d: Option<nat>, path: seq<Name>, typ: Typ, r: Option<nat>) {
    if d.None? then r.None? && s' == s
    else |path| > 0 && CreateIn(s, s', d.value, path[|path| - 1], typ, r)
  }

  /** The directory is there and does not have the name. */
  predicate NameMissing(s: Inodes, d: Option<nat>, path: seq<Name>) {
    d.Some? && d.value < |s| && |path| > 0 && !Has(s[d.value].ents, path[|path| - 1])
  }

  /** The process is where it can be. */
  predicate CanCall(s: Inodes, ref: seq<nat>, c: Syscall) {
    c.Close? || c.cwd.None? || (Reachable(s, c.cwd.value) && c.cwd.value < |ref| && ref[c.cwd.value] > 0)
  }

  /** The calls that end in a panic: a new name for which there is no inode, or no room in its directory. */
  predicate Halts(s: Inodes, c: Syscall) {
    match c
    case Make(cwd, path, typ) =>
      var d := WalkParent(s, StartOf(cwd), path);
      typ != Unused && NameMissing(s, d, path) && (!HasFree(s) || DirFull(s[d.value].ents))
    case MakeLink(cwd, path, newPath) => Linkable(s, StartOf(cwd), path) && Crowded(s, StartOf(cwd), newPath)
    case Remove(_, _) => false
    case OpenFile(_, _) => false
    case Close(_) => false
  }

  lemma ParentParts(s: Inodes, start: nat, path: seq<Name>)
    ensures WalkParent(s, start, path).Some? ==> |path| > 0
  {
  }

  lemma InvUsed(s: Inodes, d: nat, i: nat)
    requires Inv(s) && d < |s| && s[d].typ == Dir && i < |s| && s[i].typ == Unused
    ensures i != d && s[i].nlink == 0 && s[i].ents == []
  {
    hide CountsOk, DirsOk, ChildrenOk, ParentsOk;
  }

  /** The parent's entries still name inodes with links. */
  lemma FitsStill(s: Inodes, s': Inodes, d: nat, i: nat)
    requires d < |s| == |s'| && i < |s| && i != d && EntriesFit(s, d) && s'[d].ents == s[d].ents
    requires s'[i].nlink > 0 && s'[d].nlink >= s[d].nlink
    requires forall j :: 0 <= j < |s| && j != i && j != d ==> s'[j] == s[j]
    ensures EntriesFit(s', d)
  {
    forall k | 0 <= k < |s'[d].ents| && s'[d].ents[k].inum != 0
      ensures s'[s'[d].ents[k].inum].nlink > 0
    {
      assert s[s[d].ents[k].inum].nlink > 0;
    }
  }

  function DotsOf(typ: Typ, i: nat, d: nat): seq<Dirent> {
    if typ == Dir then [Dirent(i, "."), Dirent(d, "..")] else []
  }

  lemma IsCreate(s: Inodes, s': Inodes, d: nat, k: nat, name: Name, i: nat, typ: Typ)
    requires Inv(s) && Creatable(s, d, k, name, i, typ) && FirstFree(s, i) && i != d
    requires s' == s[i := Ino(typ, 1, DotsOf(typ, i, d))]
                    [d := Ino(Dir, s[d].nlink + (if typ == Dir then 1 else 0),
                              Directories.Put(s[d].ents, k, Dirent(i, name)))]
    ensures CreateIn(s, s', d, name, typ, Some(i)) && Inv(s')
  {
    hide CountsOk, DirsOk, ChildrenOk, ParentsOk, RootOk, UnusedOk, Directories.Create, Lookup, FirstFree;
    CreateParts(s, d, k, name, i, typ);
    assert s' == Directories.Create(s, d, k, name, i, typ);
    CreateOk(s, d, k, name, i, typ);
    HasOrAbsent(s[d].ents, name);
  }

  // ---- what a lookup finds afterwards ----

  lemma NamesHere(ents: seq<Dirent>, j: nat, name: Name)
    requires j < |ents| && UsedAs(ents, j, name) && forall l :: 0 <= l < j ==> !UsedAs(ents, l, name)
    ensures forall i: nat :: NamesFirst(ents, name, i) <==> i == ents[j].inum
  {
  }

  lemma NamesNone(ents: seq<Dirent>, name: Name)
    requires forall l :: 0 <= l < |ents| ==> !UsedAs(ents, l, name)
    ensures forall i: nat :: !NamesFirst(ents, name, i)
  {
  }

  /** A dirent that changes from or to other names does not matter to a lookup. */
  lemma NamesSame(ents: seq<Dirent>, ents': seq<Dirent>, name: Name, i: nat)
    requires |ents| <= |ents'|
    requires forall l :: 0 <= l < |ents'| ==>
               (UsedAs(ents', l, name) <==> l < |ents| && UsedAs(ents, l, name))
               && (UsedAs(ents', l, name) ==> ents'[l].inum == ents[l].inum)
    ensures NamesFirst(ents', name, i) <==> NamesFirst(ents, name, i)
  {
    if NamesFirst(ents', name, i) {
      var j :| 0 <= j < |ents'| && UsedAs(ents', j, name) && ents'[j].inum == i
               && forall l :: 0 <= l < j ==> !UsedAs(ents', l, name);
      assert UsedAs(ents, j, name);
      forall l | 0 <= l < j
        ensures !UsedAs(ents, l, name)
      {
        assert !UsedAs(ents', l, name);
      }
    }
    if NamesFirst(ents, name, i) {
      var j :| 0 <= j < |ents| && UsedAs(ents, j, name) && ents[j].inum == i
               && forall l :: 0 <= l < j ==> !UsedAs(ents, l, name);
      assert UsedAs(ents', j, name);
    }
  }

  /** In the directory the new name finds the inode, and every other name what it found before. */
  lemma PutNames(ents: seq<Dirent>, k: nat, name: Name, i: nat, n: Name, j: nat)
    requires FreeSlot(ents, k) && Absent(ents, name) && i != 0
    ensures NamesFirst(Directories.Put(ents, k, Dirent(i, name)), n, j)
            <==> if n == name then j == i else NamesFirst(ents, n, j)
  {
    hide NamesFirst;
    var ents' := Directories.Put(ents, k, Dirent(i, name));
    if n == name {
      NamesHere(ents', k, name);
    } else {
      NamesSame(ents, ents', n, j);
    }
  }

  /** A cleared dirent's name finds nothing any more, every other name what it found before. */
  lemma ClearNames(ents: seq<Dirent>, k: nat, n: Name, j: nat)
    requires k < |ents| && ents[k].inum != 0
    requires forall l, m :: 0 <= l < m < |ents| && ents[l].inum != 0 && ents[m].inum != 0 ==>
               ents[l].name != ents[m].name
    ensures NamesFirst(Directories.Put(ents, k, Dirent(0, "")), n, j)
            <==> n != ents[k].name && NamesFirst(ents, n, j)
  {
    hide NamesFirst;
    var ents' := Directories.Put(ents, k, Dirent(0, ""));
    if n == ents[k].name {
      NamesNone(ents', n);
    } else {
      NamesSame(ents, ents', n, j);
    }
  }

  /** After link the new name finds the file, and every name in every directory what it found before. */
  lemma LinkFinds(s: Inodes, d: nat, k: nat, name: Name, i: nat, e: nat, n: Name, j: nat)
    requires Inv(s) && Reachable(s, i) && s[i].typ != Dir && NewName(s, d, k, name) && e < |s|
    ensures NamesFirst(Link(s, d, k, name, i)[e].ents, n, j)
            <==> if e == d && n == name then j == i else NamesFirst(s[e].ents, n, j)
  {
    hide Inv, NamesFirst;
    if e == d {
      PutNames(s[d].ents, k, name, i, n, j);
    }
  }

  /** After create the name finds the new inode, which has the type asked for and one link; a new directory finds
      itself and its parent; every other name finds what it found before. */
  lemma CreateFinds(s: Inodes, d: nat, k: nat, name: Name, i: nat, typ: Typ, e: nat, n: Name, j: nat)
    requires Inv(s) && Creatable(s, d, k, name, i, typ) && e < |s|
    ensures var s' := Directories.Create(s, d, k, name, i, typ);
            && i != d && s'[i].typ == typ && s'[i].nlink == 1
            && (e != i ==> (NamesFirst(s'[e].ents, n, j)
                            <==> if e == d && n == name then j == i else NamesFirst(s[e].ents, n, j)))
            && (e == i ==> (NamesFirst(s'[e].ents, n, j)
                            <==> typ == Dir && ((n == "." && j == i) || (n == ".." && j == d))))
  {
    hide Inv, NamesFirst, Directories.Create;
    CreateParts(s, d, k, name, i, typ);
    PutNames(s[d].ents, k, name, i, n, j);
    if e == i {
      DotNames(i, d, typ, n, j);
    }
  }

  lemma DotNames(i: nat, d: nat, typ: Typ, n: Name, j: nat)
    requires i != 0 && d != 0
    ensures var ents := if typ == Dir then [Dirent(i, "."), Dirent(d, "..")] else [];
            NamesFirst(ents, n, j) <==> typ == Dir && ((n == "." && j == i) || (n == ".." && j == d))
  {
    hide NamesFirst;
    var ents := if typ == Dir then [Dirent(i, "."), Dirent(d, "..")] else [];
    if typ == Dir && n == "." {
      NamesHere(ents, 0, n);
    } else if typ == Dir && n == ".." {
      NamesHere(ents, 1, n);
    } else {
      NamesNone(ents, n);
    }
  }

  /** After unlink the name finds nothing, and every other name what it found before. */
  lemma UnlinkFinds(s: Inodes, d: nat, k: nat, e: nat, n: Name, j: nat)
    requires Inv(s) && Removable(s, d, k) && e < |s|
    ensures s[s[d].ents[k].inum].nlink > 0 && s[d].nlink > 0
    ensures NamesFirst(Unlink(s, d, k)[e].ents, n, j)
            <==> !(e == d && n == s[d].ents[k].name) && NamesFirst(s[e].ents, n, j)
  {
    hide CountsOk, ChildrenOk, ParentsOk, NamesFirst, Unlink, Empty;
    UnlinkParts(s, d, k);
    assert DirAt(s, d);
    if e == d {
      ClearNames(s[d].ents, k, n, j);
    }
  }

  // ---- runs ----

  /** A call by a process in directory `cwd`, or with an absolute path. chdir is an OpenFile whose reference the
      process keeps. */
  datatype Syscall =
    | Make(cwd: Option<nat>, path: seq<Name>, typ: Typ)
    | MakeLink(cwd: Option<nat>, path: seq<Name>, newPath: seq<Name>)
    | Remove(cwd: Option<nat>, path: seq<Name>)
    | OpenFile(cwd: Option<nat>, path: seq<Name>)
    | Close(i: nat)

  function Fresh(n: nat): (s: Inodes)
    requires n > ROOTINO
    ensures |s| == n
  {
    seq(n, i => if i == ROOTINO then Ino(Dir, 1, [Dirent(ROOTINO, "."), Dirent(ROOTINO, "..")]) else Ino(Unused, 0, []))
  }

  lemma FreshOk(n: nat)
    requires n > ROOTINO
    ensures Inv(Fresh(n))
  {
    var s := Fresh(n);
    forall i: nat | 0 < i < |s|
      ensures CountOk(s, i)
    {
      if i == ROOTINO {
        OnePlace(s, i, ROOTINO, 1);
      } else {
        NoPlaces(s, i);
      }
    }
  }
}
