/** A directory that has grown to the largest size a file can have. */
module DirRuns {
  import opened Basics
  import opened Directories
  import opened Links

  function Letter(k: nat): char {
    'a' + (k % 26) as char
  }

  /** A name of three letters for each number. */
  function NameOf(k: nat): Name {
    [Letter(k / 676), Letter(k / 26), Letter(k)]
  }

  lemma LetterIs(k: nat, l: nat)
    requires Letter(k) == Letter(l)
    ensures k % 26 == l % 26
  {
  }

  lemma NamesDiffer(k: nat, l: nat)
    requires k < 17576 && l < 17576 && NameOf(k) == NameOf(l)
    ensures k == l
  {
    hide Letter;
    assert NameOf(k)[0] == NameOf(l)[0] && NameOf(k)[1] == NameOf(l)[1] && NameOf(k)[2] == NameOf(l)[2];
    LetterIs(k / 676, l / 676);
    LetterIs(k / 26, l / 26);
    LetterIs(k, l);
    assert k / 26 / 26 == k / 676 && l / 26 / 26 == l / 676;
  }

  /** The root holds `n` names of inode 2, a file. */
  predicate Filled(s: Inodes, n: nat) {
    && |s| == 200 && s[1].typ == Dir && s[2].typ == File && s[2].nlink > 0
    && |s[1].ents| == n + 2 && s[1].ents[0] == Dirent(1, ".") && s[1].ents[1] == Dirent(1, "..")
    && forall j :: 0 <= j < n ==> s[1].ents[2 + j] == Dirent(2, NameOf(j))
  }

  lemma RoomForName(s: Inodes, n: nat)
    requires Filled(s, n) && n < 17576
    ensures WalkParent(s, 1, [NameOf(n)]) == Some(1)
    ensures HasRoom(s, 1, [NameOf(n)]) && NameMissing(s, Some(1), [NameOf(n)])
    ensures Crowded(s, 1, [NameOf(n)]) <==> n + 2 >= MAXDIRENTS
  {
    hide NameOf;
    ThreeLetters(n);
    assert [NameOf(n)][..0] == [];
    forall j | 0 <= j < |s[1].ents|
      ensures s[1].ents[j].name != NameOf(n) && s[1].ents[j].inum != 0
    {
      if j >= 2 {
        assert s[1].ents[2 + (j - 2)] == Dirent(2, NameOf(j - 2));
        if NameOf(j - 2) == NameOf(n) {
          NamesDiffer(j - 2, n);
        }
      }
    }
  }

  lemma ThreeLetters(n: nat)
    ensures NameOf(n) != "." && NameOf(n) != ".."
  {
  }

  lemma FirstName(s: Inodes, n: nat)
    requires Filled(s, n) && n > 0
    ensures Linkable(s, 1, [NameOf(0)]) && Walk(s, 1, [NameOf(0)]) == Some(2)
  {
    hide NameOf;
    ThreeLetters(0);
    var ents := s[1].ents;
    assert ents[2] == Dirent(2, NameOf(0));
    assert Lookup(ents, NameOf(0), 2) == 2;
    assert Lookup(ents, NameOf(0), 1) == 2;
    assert Lookup(ents, NameOf(0), 0) == 2;
    assert [NameOf(0)][1..] == [];
    assert Walk(s, 2, []) == Some(2);
  }

  lemma AfterLink(s: Inodes, s': Inodes, k: nat, n: nat)
    requires Filled(s, n) && Linking(s, s', 1, k, NameOf(n), 2)
    ensures Filled(s', n + 1)
  {
    hide NameOf;
    AllTaken(s, n);
    assert k == |s[1].ents|;
  }

  lemma AllTaken(s: Inodes, n: nat)
    requires Filled(s, n)
    ensures forall j :: 0 <= j < |s[1].ents| ==> s[1].ents[j].inum != 0
  {
    hide NameOf;
    forall j | 0 <= j < |s[1].ents|
      ensures s[1].ents[j].inum != 0
    {
      if j >= 2 {
        assert s[1].ents[2 + (j - 2)] == Dirent(2, NameOf(j - 2));
      }
    }
  }

  lemma AfterCreate(s': Inodes, r: Option<nat>)
    requires CreateIn(Fresh(200), s', 1, NameOf(0), File, r)
    ensures r == Some(2) && Filled(s', 1)
  {
    hide NameOf;
    ThreeLetters(0);
    var s := Fresh(200);
    assert Lookup(s[1].ents, NameOf(0), 2) == 2;
    assert Lookup(s[1].ents, NameOf(0), 1) == 2;
    assert Lookup(s[1].ents, NameOf(0), 0) == 2;
    assert s[2].typ == Unused;
    var l :| NewName(s, 1, l, NameOf(0)) && s' == Create(s, 1, l, NameOf(0), 2, File);
    assert l == 2;
  }

  lemma FreshRoot()
    ensures Reachable(Fresh(200), 1) && HasFree(Fresh(200))
    ensures WalkParent(Fresh(200), 1, [NameOf(0)]) == Some(1) && !DirFull(Fresh(200)[1].ents)
  {
    hide NameOf;
    assert [NameOf(0)][..0] == [];
    assert Fresh(200)[2].typ == Unused;
  }

  lemma AfterCreated(s': Inodes, r: Option<nat>)
    requires WalkParent(Fresh(200), 1, [NameOf(0)]) == Some(1)
    requires CreateResult(Fresh(200), s', Some(1), [NameOf(0)], File, r)
    ensures Filled(s', 1)
  {
    hide NameOf, CreateIn;
    AfterCreate(s', r);
  }

  lemma StillFull(s: Inodes, s': Inodes)
    requires Filled(s, 4478) && s' == s[2 := s[2].(nlink := s[2].nlink + 1)]
    ensures |s'| == 200 && s'[1].typ == Dir && |s'[1].ents| == MAXDIRENTS
  {
    hide NameOf;
  }

  /** A file and 4477 links to it fill the root; the next link halts the kernel. */
  method FullDirectoryHalts() returns (fs: Fs, ok: bool, panicked: bool)
    ensures fresh(fs) && panicked && |fs.ino| == 200
    ensures fs.ino[1].typ == Dir && |fs.ino[1].ents| == MAXDIRENTS
  {
    hide Inv, RefsOk, Walk, WalkParent, Linkable, HasRoom, Crowded, Linking, CreateIn, NameOf, Filled, NameMissing;
    fs := new Fs(200);
    FreshRoot();
    var made, r := fs.Create(None, [NameOf(0)], File);
    AfterCreated(fs.ino, r);
    var n := 1;
    while n < 4478
      invariant 1 <= n <= 4478 && fs.Valid() && Filled(fs.ino, n)
    {
      RoomForName(fs.ino, n);
      FirstName(fs.ino, n);
      ghost var s, k := fs.ino, 0;
      ok, panicked, k := fs.SysLink(None, [NameOf(0)], None, [NameOf(n)]);
      AfterLink(s, fs.ino, k, n);
      n := n + 1;
    }
    RoomForName(fs.ino, n);
    FirstName(fs.ino, n);
    ghost var s, k := fs.ino, 0;
    ok, panicked, k := fs.SysLink(None, [NameOf(0)], None, [NameOf(n)]);
    StillFull(s, fs.ino);
  }
}
