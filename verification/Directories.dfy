/** Directories and link counts, as values.

    A directory is its sequence of dirents; a dirent with inode number 0 is free. Inodes are written through, so
    one copy of each stands for the inode cache and the disk. */
module Directories {
  type Name = string

  datatype Typ = Unused | Dir | File | Dev

  datatype Dirent = Dirent(inum: nat, name: Name)

  datatype Ino = Ino(typ: Typ, nlink: nat, ents: seq<Dirent>)

  type Inodes = seq<Ino>

  const ROOTINO := 1

  /** A directory with at least one link. */
  predicate Linked(s: Inodes, d: nat) {
    d < |s| && s[d].typ == Dir && s[d].nlink > 0
  }

  /** Entry `k` of linked directory `d` counts as a link to `i`. */
  predicate Names(s: Inodes, d: nat, k: nat, i: nat) {
    Linked(s, d) && k < |s[d].ents| && s[d].ents[k].inum == i && s[d].ents[k].name != "."
  }

  /** The entries other than "." that name inode `i` in linked directories. */
  function Places(s: Inodes, i: nat): set<(nat, nat)> {
    set d: nat, k: nat | d < |s| && k < |s[d].ents| && Names(s, d, k, i) :: (d, k)
  }

  predicate CountOk(s: Inodes, i: nat)
    requires i < |s|
  {
    s[i].nlink == |Places(s, i)|
  }

  predicate CountsOk(s: Inodes) {
    forall i: nat :: 0 < i < |s| ==> CountOk(s, i)
  }

  /** "." and ".." come first and only there; names are used once. */
  predicate DirAt(s: Inodes, d: nat)
    requires d < |s|
  {
    var ents := s[d].ents;
    && |ents| >= 2 && ents[0] == Dirent(d, ".") && ents[1].name == ".." && Linked(s, ents[1].inum)
    && (forall k :: 0 <= k < |ents| ==> ents[k].inum < |s|)
    && (forall k :: 2 <= k < |ents| && ents[k].inum != 0 ==> ents[k].name != "." && ents[k].name != "..")
    && (forall k, l :: 0 <= k < l < |ents| && ents[k].inum != 0 && ents[l].inum != 0 ==> ents[k].name != ents[l].name)
  }

  predicate DirsOk(s: Inodes) {
    forall d: nat :: 0 < d < |s| && Linked(s, d) ==> DirAt(s, d)
  }

  /** An entry past the first two that names a directory is that directory's only one, and its "..". */
  predicate ChildAt(s: Inodes, d: nat, k: nat)
    requires Linked(s, d) && k < |s[d].ents|
  {
    var e := s[d].ents[k].inum;
    0 < e < |s| && s[e].typ == Dir ==>
      && e != ROOTINO && Linked(s, e) && |s[e].ents| >= 2 && s[e].ents[1].inum == d
      && forall l :: 2 <= l < |s[d].ents| && l != k ==> s[d].ents[l].inum != e
  }

  predicate ChildrenOk(s: Inodes) {
    forall d: nat, k: nat :: 0 < d < |s| && Linked(s, d) && 2 <= k < |s[d].ents| ==> ChildAt(s, d, k)
  }

  /** Every linked directory but the root has an entry in its parent. */
  predicate HasParent(s: Inodes, e: nat)
    requires e < |s| && |s[e].ents| >= 2
  {
    var d := s[e].ents[1].inum;
    d < |s| && exists k: nat :: 2 <= k < |s[d].ents| && Names(s, d, k, e)
  }

  predicate ParentsOk(s: Inodes) {
    forall e: nat :: 1 < e < |s| && Linked(s, e) ==> |s[e].ents| >= 2 && HasParent(s, e)
  }

  predicate RootOk(s: Inodes) {
    Linked(s, ROOTINO) && |s[ROOTINO].ents| >= 2 && s[ROOTINO].ents[1].inum == ROOTINO
  }

  predicate UnusedOk(s: Inodes) {
    && |s| > 0 && s[0].typ == Unused
    && forall i :: 0 <= i < |s| ==> (s[i].typ == Unused ==> s[i].nlink == 0) && (s[i].typ != Dir ==> s[i].ents == [])
  }

  predicate Inv(s: Inodes) {
    CountsOk(s) && DirsOk(s) && ChildrenOk(s) && ParentsOk(s) && RootOk(s) && UnusedOk(s)
  }

  // ---- the changes ----

  function Put(ents: seq<Dirent>, k: nat, de: Dirent): (r: seq<Dirent>)
    requires k <= |ents|
    ensures |r| == if k < |ents| then |ents| else |ents| + 1
    ensures forall j :: 0 <= j < |r| ==> r[j] == if j == k then de else ents[j]
  {
    if k < |ents| then ents[k := de] else ents + [de]
  }

  /** dirlink's place: the first free dirent, or the end. */
  predicate FreeSlot(ents: seq<Dirent>, k: nat) {
    k <= |ents| && (k < |ents| ==> ents[k].inum == 0) && forall j :: 0 <= j < k ==> ents[j].inum != 0
  }

  predicate Absent(ents: seq<Dirent>, name: Name) {
    forall j :: 0 <= j < |ents| && ents[j].inum != 0 ==> ents[j].name != name
  }

  function WithEntry(s: Inodes, d: nat, k: nat, de: Dirent): Inodes
    requires d < |s| && k <= |s[d].ents|
  {
    s[d := s[d].(ents := Put(s[d].ents, k, de))]
  }

  function WithNlink(s: Inodes, i: nat, n: nat): Inodes
    requires i < |s|
  {
    s[i := s[i].(nlink := n)]
  }

  /** One more name for file `i`. */
  function Link(s: Inodes, d: nat, k: nat, name: Name, i: nat): Inodes
    requires d < |s| && k <= |s[d].ents| && i < |s|
  {
    WithEntry(WithNlink(s, i, s[i].nlink + 1), d, k, Dirent(i, name))
  }

  /** A new inode `i` under one name; a directory also counts as a link to its parent. */
  function Create(s: Inodes, d: nat, k: nat, name: Name, i: nat, typ: Typ): Inodes
    requires d < |s| && k <= |s[d].ents| && i < |s|
  {
    var ents := if typ == Dir then [Dirent(i, "."), Dirent(d, "..")] else [];
    var s1 := s[i := Ino(typ, 1, ents)];
    var s2 := if typ == Dir then WithNlink(s1, d, s1[d].nlink + 1) else s1;
    if k <= |s2[d].ents| then WithEntry(s2, d, k, Dirent(i, name)) else s2
  }

  /** Entry `k` of `d` cleared, and the counts with it. */
  function Unlink(s: Inodes, d: nat, k: nat): Inodes
    requires d < |s| && k < |s[d].ents| && s[d].ents[k].inum < |s|
    requires s[s[d].ents[k].inum].nlink > 0 && s[d].nlink > 0
  {
    var i := s[d].ents[k].inum;
    var s1 := WithEntry(s, d, k, Dirent(0, ""));
    var s2 := if s[i].typ == Dir then WithNlink(s1, d, s1[d].nlink - 1) else s1;
    if s2[i].nlink > 0 then WithNlink(s2, i, s2[i].nlink - 1) else s2
  }

  // ---- counting ----

  lemma PlacesIn(s: Inodes, i: nat, d: nat, k: nat)
    ensures (d, k) in Places(s, i) <==> Names(s, d, k, i)
  {
  }

  /** A change of the places of `j` by at most one. */
  lemma PlacesChange(s: Inodes, s': Inodes, j: nat, d: nat, k: nat)
    requires forall e: nat, l: nat :: (e, l) != (d, k) ==> (Names(s', e, l, j) <==> Names(s, e, l, j))
    ensures |Places(s', j)| == |Places(s, j)| + (if Names(s', d, k, j) then 1 else 0)
              - (if Names(s, d, k, j) then 1 else 0)
  {
    hide Names;
    var a, b := Places(s, j), Places(s', j);
    forall e: nat, l: nat
      ensures (e, l) in a - {(d, k)} <==> (e, l) in b - {(d, k)}
    {
      PlacesIn(s, j, e, l);
      PlacesIn(s', j, e, l);
    }
    assert a - {(d, k)} == b - {(d, k)};
    PlacesIn(s, j, d, k);
    PlacesIn(s', j, d, k);
    Minus(a, (d, k));
    Minus(b, (d, k));
  }

  lemma Minus<T>(a: set<T>, x: T)
    ensures |a| == |a - {x}| + if x in a then 1 else 0
  {
    if x in a {
      assert a == a - {x} + {x};
    } else {
      assert a == a - {x};
    }
  }

  lemma NoPlaces(s: Inodes, i: nat)
    requires forall d: nat, k: nat :: !Names(s, d, k, i)
    ensures |Places(s, i)| == 0
  {
    assert Places(s, i) == {};
  }

  lemma SomePlace(s: Inodes, i: nat, d: nat, k: nat)
    requires Names(s, d, k, i)
    ensures |Places(s, i)| > 0
  {
    PlacesIn(s, i, d, k);
  }

  lemma OnePlace(s: Inodes, i: nat, d: nat, k: nat)
    requires Names(s, d, k, i) && forall e: nat, l: nat :: Names(s, e, l, i) ==> e == d && l == k
    ensures |Places(s, i)| == 1
  {
    assert Places(s, i) == {(d, k)};
  }

  // ---- link ----

  lemma SlotFree(s: Inodes, d: nat, k: nat)
    requires Inv(s) && 0 < d && Linked(s, d) && FreeSlot(s[d].ents, k)
    ensures k >= 2 && forall i: nat :: i > 0 ==> !Names(s, d, k, i)
  {
    hide CountsOk, ChildrenOk, ParentsOk;
    assert DirAt(s, d);
  }

  predicate NewName(s: Inodes, d: nat, k: nat, name: Name) {
    0 < d < |s| && Linked(s, d) && FreeSlot(s[d].ents, k) && Absent(s[d].ents, name)
  }

  lemma NameFresh(s: Inodes, d: nat, k: nat, name: Name)
    requires Inv(s) && NewName(s, d, k, name)
    ensures name != "." && name != ".." && 2 <= k
  {
    hide CountsOk, ChildrenOk, ParentsOk;
    SlotFree(s, d, k);
    assert DirAt(s, d);
  }

  lemma LinkNames(s: Inodes, d: nat, k: nat, name: Name, i: nat)
    requires Inv(s) && NewName(s, d, k, name) && 0 < i < |s| && s[i].typ in {File, Dev}
    ensures forall e: nat :: Linked(Link(s, d, k, name, i), e) <==> Linked(s, e)
    ensures forall e: nat, l: nat, j: nat :: j > 0 ==>
              (Names(Link(s, d, k, name, i), e, l, j) <==> Names(s, e, l, j) || (e == d && l == k && j == i))
  {
    hide CountsOk, ChildrenOk, ParentsOk, DirsOk;
    NameFresh(s, d, k, name);
    SlotFree(s, d, k);
  }

  lemma LinkCounts(s: Inodes, d: nat, k: nat, name: Name, i: nat)
    requires Inv(s) && NewName(s, d, k, name) && 0 < i < |s| && s[i].typ in {File, Dev}
    ensures CountsOk(Link(s, d, k, name, i))
  {
    hide ChildrenOk, ParentsOk, DirsOk, Names, Places;
    var s' := Link(s, d, k, name, i);
    SlotFree(s, d, k);
    forall j: nat | 0 < j < |s'|
      ensures CountOk(s', j)
    {
      assert CountOk(s, j);
      LinkNames(s, d, k, name, i);
      PlacesChange(s, s', j, d, k);
    }
  }

  lemma LinkDirs(s: Inodes, d: nat, k: nat, name: Name, i: nat)
    requires Inv(s) && NewName(s, d, k, name) && 0 < i < |s| && s[i].typ in {File, Dev}
    ensures DirsOk(Link(s, d, k, name, i))
  {
    hide CountsOk, ParentsOk, ChildrenOk, Names, DirAt, Linked, Absent;
    var s' := Link(s, d, k, name, i);
    LinkNames(s, d, k, name, i);
    forall e: nat | 0 < e < |s'| && Linked(s', e)
      ensures DirAt(s', e)
    {
      LinkDirAt(s, d, k, name, i, e);
    }
  }

  lemma LinkDirAt(s: Inodes, d: nat, k: nat, name: Name, i: nat, e: nat)
    requires Inv(s) && NewName(s, d, k, name) && 0 < i < |s| && s[i].typ in {File, Dev}
    requires 0 < e < |s| && DirAt(s, e)
    requires forall j: nat :: Linked(Link(s, d, k, name, i), j) <==> Linked(s, j)
    ensures DirAt(Link(s, d, k, name, i), e)
  {
    hide CountsOk, ParentsOk, ChildrenOk, DirsOk, Names;
    NameFresh(s, d, k, name);
  }

  lemma LinkChildren(s: Inodes, d: nat, k: nat, name: Name, i: nat)
    requires Inv(s) && NewName(s, d, k, name) && 0 < i < |s| && s[i].typ in {File, Dev}
    ensures ChildrenOk(Link(s, d, k, name, i))
  {
    hide CountsOk, ParentsOk, DirAt, Names, Absent;
    var s' := Link(s, d, k, name, i);
    NameFresh(s, d, k, name);
    LinkNames(s, d, k, name, i);
    forall e: nat, l: nat | 0 < e < |s'| && Linked(s', e) && 2 <= l < |s'[e].ents|
      ensures ChildAt(s', e, l)
    {
      if e != d || l != k {
        assert ChildAt(s, e, l);
      }
    }
  }

  lemma LinkParents(s: Inodes, d: nat, k: nat, name: Name, i: nat)
    requires Inv(s) && NewName(s, d, k, name) && 0 < i < |s| && s[i].typ in {File, Dev}
    ensures ParentsOk(Link(s, d, k, name, i)) && RootOk(Link(s, d, k, name, i)) && UnusedOk(Link(s, d, k, name, i))
  {
    hide CountsOk, ChildrenOk, Names;
    var s' := Link(s, d, k, name, i);
    NameFresh(s, d, k, name);
    LinkNames(s, d, k, name, i);
    forall e: nat | 1 < e < |s'| && Linked(s', e)
      ensures |s'[e].ents| >= 2 && HasParent(s', e)
    {
      assert DirAt(s, e) && HasParent(s, e);
      var p := s[e].ents[1].inum;
      var l: nat :| 2 <= l < |s[p].ents| && Names(s, p, l, e);
      assert Names(s', p, l, e);
      assert s'[e].ents[1] == s[e].ents[1];
    }
  }

  lemma LinkOk(s: Inodes, d: nat, k: nat, name: Name, i: nat)
    requires Inv(s) && NewName(s, d, k, name) && 0 < i < |s| && s[i].typ in {File, Dev}
    ensures Inv(Link(s, d, k, name, i))
  {
    hide CountsOk, ChildrenOk, ParentsOk, DirsOk, RootOk, UnusedOk, Link;
    LinkCounts(s, d, k, name, i);
    LinkDirs(s, d, k, name, i);
    LinkChildren(s, d, k, name, i);
    LinkParents(s, d, k, name, i);
  }

  // ---- create ----

  predicate Creatable(s: Inodes, d: nat, k: nat, name: Name, i: nat, typ: Typ) {
    NewName(s, d, k, name) && 0 < i < |s| && s[i].typ == Unused && typ in {Dir, File, Dev}
  }

  lemma CreateParts(s: Inodes, d: nat, k: nat, name: Name, i: nat, typ: Typ)
    requires Inv(s) && Creatable(s, d, k, name, i, typ)
    ensures var s' := Create(s, d, k, name, i, typ);
            && i != d && i != ROOTINO && |s'| == |s|
            && s'[i] == Ino(typ, 1, if typ == Dir then [Dirent(i, "."), Dirent(d, "..")] else [])
            && s'[d] == Ino(Dir, s[d].nlink + (if typ == Dir then 1 else 0), Put(s[d].ents, k, Dirent(i, name)))
            && forall j :: 0 <= j < |s| && j != i && j != d ==> s'[j] == s[j]
  {
    hide CountsOk, ChildrenOk, ParentsOk, DirsOk;
  }

  /** Nothing names a free inode. */
  lemma FreeUnnamed(s: Inodes, i: nat, d: nat, k: nat)
    requires Inv(s) && 0 < i < |s| && s[i].typ == Unused
    ensures !Names(s, d, k, i) && !Names(s, i, k, d)
  {
    hide ChildrenOk, ParentsOk, DirsOk, Places;
    assert CountOk(s, i);
    if Names(s, d, k, i) {
      SomePlace(s, i, d, k);
    }
  }

  lemma CreateNames(s: Inodes, d: nat, k: nat, name: Name, i: nat, typ: Typ)
    requires Inv(s) && Creatable(s, d, k, name, i, typ)
    ensures forall e: nat :: Linked(Create(s, d, k, name, i, typ), e) <==> Linked(s, e) || (e == i && typ == Dir)
    ensures forall e: nat, l: nat, j: nat :: j > 0 ==>
              (Names(Create(s, d, k, name, i, typ), e, l, j) <==>
               Names(s, e, l, j) || (e == d && l == k && j == i) || (typ == Dir && e == i && l == 1 && j == d))
  {
    hide Inv, Create;
    CreateParts(s, d, k, name, i, typ);
    NameFresh(s, d, k, name);
    SlotFree(s, d, k);
  }

  lemma CreateCounts(s: Inodes, d: nat, k: nat, name: Name, i: nat, typ: Typ)
    requires Inv(s) && Creatable(s, d, k, name, i, typ)
    ensures CountsOk(Create(s, d, k, name, i, typ))
  {
    hide ChildrenOk, ParentsOk, DirsOk, Names, Places, Create;
    var s' := Create(s, d, k, name, i, typ);
    SlotFree(s, d, k);
    CreateParts(s, d, k, name, i, typ);
    forall j: nat | 0 < j < |s'|
      ensures CountOk(s', j)
    {
      assert CountOk(s, j);
      CreateNames(s, d, k, name, i, typ);
      FreeUnnamed(s, i, j, 1);
      if j == d && typ == Dir {
        PlacesChange(s, s', j, i, 1);
      } else {
        PlacesChange(s, s', j, d, k);
      }
    }
  }

  lemma CreateDirs(s: Inodes, d: nat, k: nat, name: Name, i: nat, typ: Typ)
    requires Inv(s) && Creatable(s, d, k, name, i, typ)
    ensures DirsOk(Create(s, d, k, name, i, typ))
  {
    hide CountsOk, ParentsOk, ChildrenOk, Names, Create;
    var s' := Create(s, d, k, name, i, typ);
    NameFresh(s, d, k, name);
    CreateNames(s, d, k, name, i, typ);
    CreateParts(s, d, k, name, i, typ);
    forall e: nat | 0 < e < |s'| && Linked(s', e)
      ensures DirAt(s', e)
    {
      if e != i {
        assert DirAt(s, e);
      }
    }
  }

  lemma CreateChildren(s: Inodes, d: nat, k: nat, name: Name, i: nat, typ: Typ)
    requires Inv(s) && Creatable(s, d, k, name, i, typ)
    ensures ChildrenOk(Create(s, d, k, name, i, typ))
  {
    hide CountsOk, ParentsOk, DirAt, Absent, Create, Names;
    var s' := Create(s, d, k, name, i, typ);
    NameFresh(s, d, k, name);
    CreateNames(s, d, k, name, i, typ);
    CreateParts(s, d, k, name, i, typ);
    forall e: nat, l: nat | 0 < e < |s| && Linked(s, e) && 2 <= l < |s[e].ents|
      ensures s[e].ents[l].inum != i && ChildAt(s, e, l)
    {
      NotFree(s, e, l, i);
    }
    forall e: nat, l: nat | 0 < e < |s'| && Linked(s', e) && 2 <= l < |s'[e].ents|
      ensures ChildAt(s', e, l)
    {
      if e != d || l != k {
        assert ChildAt(s, e, l);
      }
    }
  }

  lemma NotFree(s: Inodes, e: nat, l: nat, i: nat)
    requires Inv(s) && 0 < e < |s| && Linked(s, e) && 2 <= l < |s[e].ents| && 0 < i < |s| && s[i].typ == Unused
    ensures s[e].ents[l].inum != i
  {
    hide CountsOk, ParentsOk, ChildrenOk;
    assert DirAt(s, e);
    FreeUnnamed(s, i, e, l);
  }

  lemma CreateParents(s: Inodes, d: nat, k: nat, name: Name, i: nat, typ: Typ)
    requires Inv(s) && Creatable(s, d, k, name, i, typ)
    ensures var s' := Create(s, d, k, name, i, typ); ParentsOk(s') && RootOk(s') && UnusedOk(s')
  {
    hide CountsOk, ChildrenOk, Names, Create, Absent;
    var s' := Create(s, d, k, name, i, typ);
    NameFresh(s, d, k, name);
    CreateNames(s, d, k, name, i, typ);
    CreateParts(s, d, k, name, i, typ);
    forall e: nat | 1 < e < |s'| && Linked(s', e)
      ensures |s'[e].ents| >= 2 && HasParent(s', e)
    {
      if e == i {
        assert Names(s', d, k, i);
      } else {
        assert DirAt(s, e) && HasParent(s, e);
        var p := s[e].ents[1].inum;
        var l: nat :| 2 <= l < |s[p].ents| && Names(s, p, l, e);
        assert Names(s', p, l, e);
        assert s'[e].ents[1] == s[e].ents[1];
      }
    }
  }

  lemma CreateOk(s: Inodes, d: nat, k: nat, name: Name, i: nat, typ: Typ)
    requires Inv(s) && Creatable(s, d, k, name, i, typ)
    ensures Inv(Create(s, d, k, name, i, typ))
  {
    hide CountsOk, ChildrenOk, ParentsOk, DirsOk, RootOk, UnusedOk, Create;
    CreateCounts(s, d, k, name, i, typ);
    CreateDirs(s, d, k, name, i, typ);
    CreateChildren(s, d, k, name, i, typ);
    CreateParents(s, d, k, name, i, typ);
  }

  // ---- unlink ----

  /** isdirempty: nothing past the first two entries. */
  predicate Empty(ents: seq<Dirent>) {
    forall l :: 2 <= l < |ents| ==> ents[l].inum == 0
  }

  predicate Removable(s: Inodes, d: nat, k: nat) {
    && 0 < d < |s| && Linked(s, d) && 2 <= k < |s[d].ents|
    && 0 < s[d].ents[k].inum < |s|
    && (s[s[d].ents[k].inum].typ == Dir ==> Empty(s[s[d].ents[k].inum].ents))
  }

  lemma EntryNames(s: Inodes, d: nat, k: nat)
    requires Inv(s) && 0 < d < |s| && Linked(s, d) && 2 <= k < |s[d].ents| && s[d].ents[k].inum != 0
    ensures 0 < s[d].ents[k].inum < |s| && Names(s, d, k, s[d].ents[k].inum)
    ensures s[s[d].ents[k].inum].nlink > 0 && s[s[d].ents[k].inum].typ != Unused
  {
    hide ChildrenOk, ParentsOk, Places;
    assert DirAt(s, d);
    var i := s[d].ents[k].inum;
    assert CountOk(s, i);
    SomePlace(s, i, d, k);
  }

  /** An empty directory has one link, its entry in the parent. */
  lemma EmptyOnce(s: Inodes, d: nat, k: nat, e: nat, l: nat)
    requires Inv(s) && Removable(s, d, k) && s[s[d].ents[k].inum].typ == Dir && Names(s, e, l, s[d].ents[k].inum)
    ensures e == d && l == k
  {
    hide CountsOk;
    var i := s[d].ents[k].inum;
    assert ChildAt(s, d, k);
    assert DirAt(s, e);
    if e > 1 {
      assert HasParent(s, e);
    }
    if l >= 2 {
      assert ChildAt(s, e, l);
    }
  }

  lemma EmptyNlink(s: Inodes, d: nat, k: nat)
    requires Inv(s) && Removable(s, d, k) && s[s[d].ents[k].inum].typ == Dir
    ensures s[s[d].ents[k].inum].nlink == 1
              && s[s[d].ents[k].inum].ents[..2] == [Dirent(s[d].ents[k].inum, "."), Dirent(d, "..")]
    ensures s[d].ents[k].inum != d && s[d].ents[k].inum != ROOTINO
  {
    hide ParentsOk, Names, Places;
    var i := s[d].ents[k].inum;
    EntryNames(s, d, k);
    forall e: nat, l: nat | Names(s, e, l, i)
      ensures e == d && l == k
    {
      EmptyOnce(s, d, k, e, l);
    }
    OnePlace(s, i, d, k);
    assert CountOk(s, i);
    assert ChildAt(s, d, k);
    assert DirAt(s, i);
  }

  /** A directory with a child directory has at least two links. */
  lemma ParentTwice(s: Inodes, d: nat, k: nat)
    requires Inv(s) && Removable(s, d, k) && s[s[d].ents[k].inum].typ == Dir
    ensures s[d].nlink >= 2
  {
    hide Places, Names, ChildrenOk, DirsOk;
    var i := s[d].ents[k].inum;
    EmptyNlink(s, d, k);
    UpName(s, i);
    OtherName(s, d, i);
    var e, l := AnyOther(s, d, i);
    PlacesIn(s, d, i, 1);
    PlacesIn(s, d, e, l);
    assert {(i, 1), (e, l)} <= Places(s, d);
    TwoOf(Places(s, d), (i, 1), (e, l));
    assert CountOk(s, d);
  }

  lemma TwoOf<T>(a: set<T>, x: T, y: T)
    requires x in a && y in a && x != y
    ensures |a| >= 2
  {
    assert |{x, y}| == 2;
    assert a == {x, y} + (a - {x, y});
  }

  lemma UpName(s: Inodes, i: nat)
    requires Inv(s) && 0 < i < |s| && Linked(s, i)
    ensures |s[i].ents| >= 2 && Names(s, i, 1, s[i].ents[1].inum)
  {
    hide CountsOk, ParentsOk, ChildrenOk;
    assert DirAt(s, i);
  }

  /** Some entry outside `i` names linked directory `d`. */
  ghost predicate NamedOutside(s: Inodes, d: nat, i: nat) {
    exists e: nat, l: nat :: e != i && Named(s, e, l, d)
  }

  predicate Named(s: Inodes, e: nat, l: nat, d: nat) {
    e < |s| && l < |s[e].ents| && Names(s, e, l, d)
  }

  lemma OtherName(s: Inodes, d: nat, i: nat)
    requires Inv(s) && 0 < d < |s| && Linked(s, d) && i != ROOTINO && i < |s| && i != d
    requires Linked(s, i) && Empty(s[i].ents)
    ensures NamedOutside(s, d, i)
  {
    hide CountsOk, ChildrenOk;
    assert DirAt(s, d);
    if d == ROOTINO {
      assert Named(s, d, 1, d);
    } else {
      assert HasParent(s, d);
      var p := s[d].ents[1].inum;
      var l: nat :| 2 <= l < |s[p].ents| && Names(s, p, l, d);
      assert Named(s, p, l, d);
    }
  }

  lemma AnyOther(s: Inodes, d: nat, i: nat) returns (e: nat, l: nat)
    requires NamedOutside(s, d, i)
    ensures e != i && Names(s, e, l, d)
  {
    e, l :| e != i && Named(s, e, l, d);
  }

  lemma UnlinkParts(s: Inodes, d: nat, k: nat)
    requires Inv(s) && Removable(s, d, k)
    ensures s[s[d].ents[k].inum].nlink > 0 && s[d].nlink > 0
    ensures var i := s[d].ents[k].inum;
            var s' := Unlink(s, d, k);
            && i != d && |s'| == |s| && s[i].typ != Unused
            && s'[i] == s[i].(nlink := s[i].nlink - 1)
            && s'[d] == Ino(Dir, s[d].nlink - (if s[i].typ == Dir then 1 else 0), Put(s[d].ents, k, Dirent(0, "")))
            && (forall j :: 0 <= j < |s| && j != i && j != d ==> s'[j] == s[j])
            && (s[i].typ == Dir ==> s[i].nlink == 1 && s[d].nlink >= 2)
  {
    hide CountsOk, ChildrenOk, ParentsOk, DirsOk, Names, Empty;
    EntryNames(s, d, k);
    if s[s[d].ents[k].inum].typ == Dir {
      EmptyNlink(s, d, k);
      ParentTwice(s, d, k);
    }
  }

  lemma UnlinkNames(s: Inodes, d: nat, k: nat)
    requires Inv(s) && Removable(s, d, k)
    ensures s[s[d].ents[k].inum].nlink > 0 && s[d].nlink > 0
    ensures forall e: nat :: Linked(Unlink(s, d, k), e) <==>
              Linked(s, e) && (e == s[d].ents[k].inum ==> s[e].typ != Dir)
    ensures forall e: nat, l: nat, j: nat :: j > 0 ==>
              (Names(Unlink(s, d, k), e, l, j) <==>
               Names(s, e, l, j) && !(e == d && l == k) && !(s[s[d].ents[k].inum].typ == Dir && e == s[d].ents[k].inum))
  {
    hide Inv, Unlink, Empty;
    UnlinkParts(s, d, k);
  }

  lemma OnlyUp(s: Inodes, d: nat, k: nat, l: nat, j: nat)
    requires Inv(s) && Removable(s, d, k) && s[s[d].ents[k].inum].typ == Dir && j > 0
    ensures Names(s, s[d].ents[k].inum, l, j) <==> l == 1 && j == d
  {
    hide CountsOk, ChildrenOk, ParentsOk, Unlink;
    EmptyNlink(s, d, k);
    var i := s[d].ents[k].inum;
    assert DirAt(s, i);
    assert s[i].ents[..2][1] == s[i].ents[1];
  }

  lemma UnlinkCounts(s: Inodes, d: nat, k: nat)
    requires Inv(s) && Removable(s, d, k)
    ensures s[s[d].ents[k].inum].nlink > 0 && s[d].nlink > 0
    ensures CountsOk(Unlink(s, d, k))
  {
    hide ChildrenOk, ParentsOk, DirsOk, Names, Places, Unlink, Empty;
    UnlinkParts(s, d, k);
    EntryNames(s, d, k);
    var s', i := Unlink(s, d, k), s[d].ents[k].inum;
    forall j: nat | 0 < j < |s'|
      ensures CountOk(s', j)
    {
      assert CountOk(s, j);
      UnlinkNames(s, d, k);
      if s[i].typ == Dir {
        forall l: nat
          ensures Names(s, i, l, j) <==> l == 1 && j == d
        {
          OnlyUp(s, d, k, l, j);
        }
      }
      EntryNot(s, d, k, j);
      if j == d && s[i].typ == Dir {
        PlacesChange(s, s', j, i, 1);
      } else {
        PlacesChange(s, s', j, d, k);
      }
    }
  }

  lemma EntryNot(s: Inodes, d: nat, k: nat, j: nat)
    requires d < |s| && k < |s[d].ents|
    ensures s[d].ents[k].inum != j ==> !Names(s, d, k, j)
  {
  }

  lemma ParentLives(s: Inodes, d: nat, k: nat, e: nat)
    requires Inv(s) && Removable(s, d, k) && 0 < e < |s| && Linked(s, e)
    requires e == s[d].ents[k].inum ==> s[e].typ != Dir
    ensures |s[e].ents| >= 2
    ensures s[e].ents[1].inum == s[d].ents[k].inum ==> s[s[e].ents[1].inum].typ != Dir
  {
    hide CountsOk;
    assert DirAt(s, e);
    assert ChildAt(s, d, k);
    if e > 1 {
      assert HasParent(s, e);
    }
  }

  lemma UnlinkDirs(s: Inodes, d: nat, k: nat)
    requires Inv(s) && Removable(s, d, k)
    ensures s[s[d].ents[k].inum].nlink > 0 && s[d].nlink > 0
    ensures DirsOk(Unlink(s, d, k))
  {
    hide CountsOk, ParentsOk, ChildrenOk, Names, Unlink, Empty;
    UnlinkParts(s, d, k);
    UnlinkNames(s, d, k);
    var s' := Unlink(s, d, k);
    forall e: nat | 0 < e < |s'| && Linked(s', e)
      ensures DirAt(s', e)
    {
      assert DirAt(s, e);
      ParentLives(s, d, k, e);
      UnlinkDirAt(s, d, k, e);
    }
  }

  lemma UnlinkDirAt(s: Inodes, d: nat, k: nat, e: nat)
    requires Inv(s) && Removable(s, d, k) && s[s[d].ents[k].inum].nlink > 0 && s[d].nlink > 0
    requires 0 < e < |s| && Linked(s, e) && DirAt(s, e) && Linked(Unlink(s, d, k), s[e].ents[1].inum)
    ensures DirAt(Unlink(s, d, k), e)
  {
    hide Inv, Unlink, Empty, Linked;
    UnlinkParts(s, d, k);
  }

  lemma UnlinkChildren(s: Inodes, d: nat, k: nat)
    requires Inv(s) && Removable(s, d, k)
    ensures s[s[d].ents[k].inum].nlink > 0 && s[d].nlink > 0
    ensures ChildrenOk(Unlink(s, d, k))
  {
    hide CountsOk, ParentsOk, DirsOk, Names, Unlink, Empty;
    UnlinkParts(s, d, k);
    UnlinkNames(s, d, k);
    var s' := Unlink(s, d, k);
    forall e: nat, l: nat | 0 < e < |s'| && Linked(s', e) && 2 <= l < |s'[e].ents|
      ensures ChildAt(s', e, l)
    {
      assert ChildAt(s, e, l) && ChildAt(s, d, k);
    }
  }

  lemma UnlinkParents(s: Inodes, d: nat, k: nat)
    requires Inv(s) && Removable(s, d, k)
    ensures s[s[d].ents[k].inum].nlink > 0 && s[d].nlink > 0
    ensures var s' := Unlink(s, d, k); ParentsOk(s') && RootOk(s') && UnusedOk(s')
  {
    hide CountsOk, ChildrenOk, DirsOk, Names, Unlink, Empty, HasParent;
    UnlinkParts(s, d, k);
    UnlinkNames(s, d, k);
    var s' := Unlink(s, d, k);
    forall e: nat | 1 < e < |s'| && Linked(s', e)
      ensures |s'[e].ents| >= 2 && HasParent(s', e)
    {
      assert HasParent(s, e);
      UnlinkParentAt(s, d, k, e);
    }
    RootStays(s, d, k);
  }

  lemma RootStays(s: Inodes, d: nat, k: nat)
    requires Inv(s) && Removable(s, d, k)
    ensures s[d].ents[k].inum == ROOTINO ==> s[ROOTINO].typ != Dir
  {
    hide CountsOk, DirsOk, ParentsOk;
    assert ChildAt(s, d, k);
  }

  lemma UnlinkParentAt(s: Inodes, d: nat, k: nat, e: nat)
    requires Inv(s) && Removable(s, d, k) && s[s[d].ents[k].inum].nlink > 0 && s[d].nlink > 0
    requires 1 < e < |s| && Linked(s, e) && |s[e].ents| >= 2 && HasParent(s, e)
    requires e == s[d].ents[k].inum ==> s[e].typ != Dir
    ensures |Unlink(s, d, k)| == |s| && |Unlink(s, d, k)[e].ents| >= 2 && HasParent(Unlink(s, d, k), e)
  {
    hide CountsOk, ChildrenOk, DirsOk, ParentsOk, Names, Unlink, Empty;
    UnlinkParts(s, d, k);
    UnlinkNames(s, d, k);
    ParentLives(s, d, k, e);
    var s' := Unlink(s, d, k);
    var p := s[e].ents[1].inum;
    var l: nat :| 2 <= l < |s[p].ents| && Names(s, p, l, e);
    NamedLinked(s, p, l, e);
    assert Names(s', p, l, e);
    assert s'[e].ents[1] == s[e].ents[1];
  }

  lemma NamedLinked(s: Inodes, p: nat, l: nat, e: nat)
    requires Names(s, p, l, e)
    ensures Linked(s, p) && l < |s[p].ents| && s[p].ents[l].inum == e
  {
  }

  lemma UnlinkOk(s: Inodes, d: nat, k: nat)
    requires Inv(s) && Removable(s, d, k)
    ensures s[s[d].ents[k].inum].nlink > 0 && s[d].nlink > 0
    ensures Inv(Unlink(s, d, k))
  {
    hide CountsOk, ChildrenOk, ParentsOk, DirsOk, RootOk, UnusedOk, Unlink;
    UnlinkCounts(s, d, k);
    UnlinkDirs(s, d, k);
    UnlinkChildren(s, d, k);
    UnlinkParents(s, d, k);
  }
}
