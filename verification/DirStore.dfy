/** Directories in blocks (project1): a directory's dirents are the bytes of its file, and link, unlink and create are
    transactions on the file system's blocks. */
module DirStore {
  import opened Basics
  import opened Words
  import opened FsLayout
  import opened FsTree
  import opened FsSpace
  import opened FileSys
  import D = Directories
  import K = Links
  import R = RedoLog
  import L = Log
  import C = Commit
  import FileLog

  // ---- dirents as bytes ----

  const DIRSIZ := 14

  const T_DIR := 1
  const T_FILE := 2
  const T_DEV := 3

  predicate NameFits(name: D.Name) {
    |name| <= DIRSIZ && forall k :: 0 <= k < |name| ==> 0 < name[k] as int < 256
  }

  /** strncpy into the name field. */
  function NameBytes(name: D.Name): (b: seq<byte>)
    requires NameFits(name)
    ensures |b| == DIRSIZ
  {
    seq(DIRSIZ, k requires 0 <= k < DIRSIZ => if k < |name| then name[k] as int else 0)
  }

  /** The characters before the first zero. */
  function NameOf(b: seq<byte>): D.Name {
    if b == [] || b[0] == 0 then "" else [b[0] as char] + NameOf(b[1..])
  }

  lemma {:induction false} NameIs(b: seq<byte>, name: D.Name)
    requires |name| <= |b| && forall k :: 0 <= k < |name| ==> 0 < name[k] as int < 256 && b[k] == name[k] as int
    requires |name| < |b| ==> b[|name|] == 0
    ensures NameOf(b) == name
    decreases |name|
  {
    if name != "" {
      NameIs(b[1..], name[1..]);
    }
  }

  predicate DirentFits(de: D.Dirent) {
    de.inum < 0x1_0000 && NameFits(de.name)
  }

  function DirentBytes(de: D.Dirent): (b: seq<byte>)
    requires DirentFits(de)
    ensures |b| == K.DIRENT
  {
    Encode(de.inum, 2) + NameBytes(de.name)
  }

  function DirentOf(b: seq<byte>): D.Dirent
    requires |b| == K.DIRENT
  {
    D.Dirent(Decode(b[..2]), NameOf(b[2..]))
  }

  /** A dirent written to a directory is read back as it was. */
  lemma DirentRoundTrip(de: D.Dirent)
    requires DirentFits(de)
    ensures DirentOf(DirentBytes(de)) == de
  {
    var b := DirentBytes(de);
    assert b[..2] == Encode(de.inum, 2) && b[2..] == NameBytes(de.name);
    assert Limit(1) == 256 && Limit(2) == 65536;
    DecodeEncode(de.inum, 2);
    NameIs(NameBytes(de.name), de.name);
  }

  /** The number in the first two bytes, the name in the other fourteen, zeros behind it. */
  lemma DirentPosition(de: D.Dirent)
    requires DirentFits(de)
    ensures var b := DirentBytes(de);
            && b[0] as int + 0x100 * b[1] as int == de.inum
            && forall k :: 0 <= k < 14 ==> b[2 + k] as int == if k < |de.name| then de.name[k] as int else 0
  {
    ShortBytes(de.inum);
  }

  function EntsOf(f: seq<byte>): (ents: seq<D.Dirent>)
    ensures |ents| == |f| / K.DIRENT
  {
    seq(|f| / K.DIRENT, k requires 0 <= k < |f| / K.DIRENT => DirentOf(f[K.DIRENT * k..K.DIRENT * k + K.DIRENT]))
  }

  lemma SpliceHere(f: seq<byte>, off: nat, b: seq<byte>)
    requires off <= |f|
    ensures |Splice(f, off, b)| == if off + |b| <= |f| then |f| else off + |b|
    ensures Splice(f, off, b)[off..off + |b|] == b
  {
    assert |f[..off]| == off;
  }

  lemma SpliceElsewhere(f: seq<byte>, off: nat, b: seq<byte>, lo: nat, hi: nat)
    requires off <= |f| && lo <= hi <= |f| && (hi <= off || off + |b| <= lo)
    ensures hi <= |Splice(f, off, b)| && Splice(f, off, b)[lo..hi] == f[lo..hi]
  {
  }

  /** Sixteen bytes written at a multiple of sixteen replace or append one dirent. */
  lemma EntsPut(f: seq<byte>, k: nat, b: seq<byte>)
    requires |f| % K.DIRENT == 0 && K.DIRENT * k <= |f| && |b| == K.DIRENT
    ensures |Splice(f, K.DIRENT * k, b)| % K.DIRENT == 0
    ensures EntsOf(Splice(f, K.DIRENT * k, b)) == D.Put(EntsOf(f), k, DirentOf(b))
  {
    hide DirentOf, Splice;
    var g := Splice(f, K.DIRENT * k, b);
    SpliceHere(f, K.DIRENT * k, b);
    forall j | 0 <= j < |g| / K.DIRENT
      ensures EntsOf(g)[j] == D.Put(EntsOf(f), k, DirentOf(b))[j]
    {
      if j != k {
        SpliceElsewhere(f, K.DIRENT * k, b, K.DIRENT * j, K.DIRENT * j + K.DIRENT);
      }
    }
  }

  // ---- what the inodes and blocks stand for ----

  function TypOf(t: nat): D.Typ {
    if t == 0 then D.Unused else if t == T_DIR then D.Dir else if t == T_FILE then D.File else D.Dev
  }

  function TypCode(t: D.Typ): (c: nat)
    ensures TypOf(c) == t && c <= T_DEV
  {
    match t
    case Unused => 0
    case Dir => T_DIR
    case File => T_FILE
    case Dev => T_DEV
  }

  function AbsIno(s: St, k: nat): D.Ino
    requires k < |s.inodes|
  {
    var ip := s.inodes[k];
    D.Ino(TypOf(ip.typ), ip.nlink, if ip.typ == T_DIR then EntsOf(File(Project1, s, k)) else [])
  }

  /** The inodes and directories that the blocks hold. */
  function Abs(s: St): (a: D.Inodes)
    ensures |a| == |s.inodes|
  {
    seq(|s.inodes|, k requires 0 <= k < |s.inodes| => AbsIno(s, k))
  }

  /** Directories are whole dirents; a free inode has no content. */
  predicate ShapeOk(ip: Inode) {
    && ip.typ <= T_DEV
    && (ip.typ == T_DIR ==> ip.size % K.DIRENT == 0)
    && (ip.typ == 0 ==> ip.size == 0 && ip.addrs == NoAddrs())
  }

  predicate Shaped(s: St) {
    |s.inodes| <= 0x1_0000 && forall k :: 0 <= k < |s.inodes| ==> ShapeOk(s.inodes[k])
  }

  ghost predicate Stored(sb: Super, s: St) {
    Wf(Project1, sb, s) && AllSynced(sb, s) && Shaped(s)
  }

  /** Blocks, inodes and free map agree, and so do names and link counts. */
  ghost predicate DirOk(sb: Super, s: St) {
    Stored(sb, s) && D.Inv(Abs(s))
  }

  lemma AbsAt(s: St, d: nat)
    requires d < |s.inodes|
    ensures Abs(s)[d].typ == TypOf(s.inodes[d].typ) && Abs(s)[d].nlink == s.inodes[d].nlink
    ensures s.inodes[d].typ == T_DIR ==> |Abs(s)[d].ents| == s.inodes[d].size / K.DIRENT
  {
    FileLength(Project1, s, d);
  }

  /** One dirent written is one entry put. */
  lemma WroteAbs(sb: Super, s0: St, s: St, d: nat, k: nat, de: D.Dirent, last: nat)
    requires Shaped(s0) && d < |s0.inodes| && s0.inodes[d].typ == T_DIR && DirentFits(de)
    requires K.DIRENT * k <= s0.inodes[d].size
    requires WriteDone(Project1, sb, s0, s, d, K.DIRENT * k, DirentBytes(de), last)
    ensures Shaped(s) && |s.inodes| == |s0.inodes| && k <= |Abs(s0)[d].ents|
    ensures Abs(s) == D.WithEntry(Abs(s0), d, k, de)
  {
    hide Wf, AllSynced, DoneLog, WroteLeaves, File, Splice, EntsOf, DirentBytes, D.Put;
    FileLength(Project1, s0, d);
    FileLength(Project1, s, d);
    EntsPut(File(Project1, s0, d), k, DirentBytes(de));
    DirentRoundTrip(de);
    AbsAt(s0, d);
    forall j | 0 <= j < |s.inodes|
      ensures Abs(s)[j] == D.WithEntry(Abs(s0), d, k, de)[j] && ShapeOk(s.inodes[j])
    {
    }
  }

  /** Inode `i` gets another type and count, its content stays. */
  lemma LabelledAbs(s0: St, s: St, i: nat, typ: nat, nlink: nat)
    requires Shaped(s0) && i < |s0.inodes| && s.inodes == s0.inodes[i := s0.inodes[i].(typ := typ, nlink := nlink)]
    requires FilesAre(Project1, s0, s, i, File(Project1, s0, i))
    requires typ == s0.inodes[i].typ || (s0.inodes[i].typ == 0 && 0 < typ <= T_DEV)
    ensures Shaped(s)
    ensures Abs(s) == Abs(s0)[i := D.Ino(TypOf(typ), nlink, Abs(s0)[i].ents)]
  {
    hide File;
    FileLength(Project1, s0, i);
    forall j | 0 <= j < |s.inodes|
      ensures Abs(s)[j] == Abs(s0)[i := D.Ino(TypOf(typ), nlink, Abs(s0)[i].ents)][j]
    {
    }
  }

  lemma FreedAbs(s0: St, s: St, i: nat)
    requires Shaped(s0) && i < |s0.inodes| && s0.inodes[i].nlink == 0
    requires s.inodes == s0.inodes[i := s0.inodes[i].(typ := 0, addrs := NoAddrs(), size := 0)]
    requires FilesAre(Project1, s0, s, i, [])
    ensures Shaped(s) && Abs(s) == K.Freed(Abs(s0), i)
  {
    hide File, NoAddrs;
    forall j | 0 <= j < |s.inodes|
      ensures Abs(s)[j] == K.Freed(Abs(s0), i)[j]
    {
    }
  }

  // ---- a transaction under way ----

  /** Every file that is still there has the content it had. */
  ghost predicate FilesKept(s0: St, s: St) {
    && |s.inodes| == |s0.inodes|
    && forall k :: 0 <= k < |s0.inodes| && s0.inodes[k].typ == T_FILE && s.inodes[k].typ != 0 ==> FileKept(s0, s, k)
  }

  ghost predicate FileKept(s0: St, s: St, k: nat)
    requires k < |s0.inodes| == |s.inodes|
  {
    s.inodes[k].typ == T_FILE && File(Project1, s, k) == File(Project1, s0, k)
  }

  /** No inode is taken into use that was in use in `s0`. */
  predicate NoneRevived(s0: St, s: St, t: St) {
    && |s0.inodes| == |s.inodes| == |t.inodes|
    && forall k :: 0 <= k < |s.inodes| && s.inodes[k].typ == 0 && t.inodes[k].typ != 0 ==> s0.inodes[k].typ == 0
  }

  lemma KeptTrans(s0: St, s: St, t: St)
    requires FilesKept(s0, s) && FilesKept(s, t) && NoneRevived(s0, s, t)
    ensures FilesKept(s0, t)
  {
    hide File;
    forall k | 0 <= k < |s0.inodes| && s0.inodes[k].typ == T_FILE && t.inodes[k].typ != 0
      ensures FileKept(s0, t, k)
    {
      assert FileKept(s0, s, k) && FileKept(s, t, k);
    }
  }

  /** A change to the content of one inode that is no file keeps the files. */
  lemma OneKept(s0: St, s: St, t: St, i: nat, content: seq<byte>)
    requires |s0.inodes| == |s.inodes| && i < |s.inodes| && FilesAre(Project1, s, t, i, content)
    requires forall k :: 0 <= k < |s.inodes| && k != i ==> t.inodes[k] == s.inodes[k]
    requires s.inodes[i].typ == T_FILE && t.inodes[i].typ != 0 ==>
               t.inodes[i].typ == T_FILE && content == File(Project1, s, i)
    requires s.inodes[i].typ == 0 && t.inodes[i].typ != 0 ==> s0.inodes[i].typ == 0
    ensures FilesKept(s, t) && NoneRevived(s0, s, t)
  {
    hide File;
  }

  lemma NoneKept(s0: St, s: St)
    requires |s0.inodes| == |s.inodes|
    ensures FilesKept(s, s) && NoneRevived(s0, s, s)
  {
    hide File;
  }

  /** Since a transaction began in state `s0` only blocks of `a` have been logged, all that differs is, and files
      have kept their content. */
  ghost predicate Logs(sb: Super, s0: St, s: St, a: set<nat>) {
    && Stored(sb, s) && |s.inodes| == |s0.inodes| && FilesKept(s0, s)
    && Noted(s0.data, {}, s.data, s.logged)
    && forall x :: x in s.logged ==> x in a && sb.inodestart <= x < sb.size
  }

  lemma LogsNone(sb: Super, s0: St)
    requires Stored(sb, s0) && s0.logged == {}
    ensures Logs(sb, s0, s0, {})
  {
    hide Stored, File;
  }

  lemma LogsStored(sb: Super, s0: St, s: St, a: set<nat>)
    requires Logs(sb, s0, s, a)
    ensures Stored(sb, s) && Wf(Project1, sb, s) && AllSynced(sb, s) && Shaped(s) && |s.inodes| == |s0.inodes|
  {
    hide Wf, AllSynced, Shaped, Noted, FilesKept;
  }

  /** A step that logs only blocks of `b` besides. */
  lemma LogsMore(sb: Super, s0: St, s: St, t: St, a: set<nat>, b: set<nat>)
    requires Logs(sb, s0, s, a) && Stored(sb, t) && |t.inodes| == |s.inodes|
    requires Noted(s.data, s.logged, t.data, t.logged) && FilesKept(s, t) && NoneRevived(s0, s, t)
    requires forall x :: x in t.logged && x !in s.logged ==> x in b && sb.inodestart <= x < sb.size
    ensures Logs(sb, s0, t, a + b)
  {
    hide Stored, FilesKept, NoneRevived;
    KeptTrans(s0, s, t);
  }

  /** The blocks that a dirent written in place `k` of directory `d` may log, with one block of free map. */
  function EntryBlocks(sb: Super, s: St, d: nat, k: nat): set<nat> {
    {IBlock(sb, d), sb.bmapstart, LeafBlock(Project1, s.tree, d, K.DIRENT * k / BSIZE)}
    + if K.DIRENT * k / BSIZE >= 12 then {Ptr(s.tree, Node(d, [12]))} else {}
  }

  lemma OneBlock(k: nat)
    ensures LastBlock(K.DIRENT * k, K.DIRENT) == K.DIRENT * k / BSIZE && Touched(K.DIRENT * k, K.DIRENT) == 1
  {
    var q, r := k / 32, k % 32;
    assert K.DIRENT * k == BSIZE * q + K.DIRENT * r;
    assert (K.DIRENT * k) / BSIZE == q && (K.DIRENT * k + K.DIRENT - 1) / BSIZE == q;
  }

  lemma HereNonempty(p: seq<nat>, bn: nat)
    requires 1 <= |p| && (p <= Ups(Project1, bn) || p == Ups(Project1, bn))
    ensures bn >= 12 && p == [12]
  {
  }

  /** What a write to one block logs, in project1 on a disk with one block of free map. */
  lemma WroteHere(sb: Super, s0: St, s: St, d: nat, bn: nat, x: nat)
    requires sb.size < BPB && Wf(Project1, sb, s0) && Wf(Project1, sb, s) && Marked(Project1, sb, s0, s, d, bn, bn)
    requires bn >= 1 ==> HasLeaf(Project1, s0.tree, d, bn - 1)
    requires WroteTo(Project1, sb, s0, s, d, bn, bn, x)
    ensures || x == sb.bmapstart || x == LeafBlock(Project1, s.tree, d, bn)
            || (bn >= 12 && x == Ptr(s.tree, Node(d, [12])))
    ensures sb.inodestart <= x < sb.size
  {
    hide Wf, Marked, LeafBlocks, LeafBlock, Path, Cap, HasLeaf, Touches, IsLeaf, Stirred, Ups, FromMap, Meta;
    if FromMap(sb, s0.tree, s.owner, x) {
      OneMap(sb, s0, s, x);
    } else {
      FileLog.OwnerPlace(Project1, sb, s, x);
      var p := s.owner[x].path;
      OwnedPlace(Project1, sb, s, d, p, x);
      if IsLeaf(Project1, s.owner[x]) {
        LeafAmong(Project1, s.tree, d, bn, bn, p);
        OneLeaf(s.tree, d, bn);
      } else {
        StirredIndex(Project1, sb, s0, s, d, bn, bn, p);
        HereNonempty(p, bn);
      }
    }
  }

  lemma OneMap(sb: Super, s0: St, s: St, x: nat)
    requires sb.size < BPB && Wf(Project1, sb, s) && FromMap(sb, s0.tree, s.owner, x)
    ensures x == sb.bmapstart && sb.inodestart <= x < sb.size
  {
    hide Wf, FromMap;
    FromMapPlace(Project1, sb, s0, s, x);
    FileLog.MetaSize(Project1, sb, s);
  }

  lemma OneLeaf(tree: Tree, d: nat, bn: nat)
    ensures LeafBlocks(Project1, tree, d, bn, bn) == {LeafBlock(Project1, tree, d, bn)}
  {
    hide LeafBlock;
  }

  // ---- reading directories ----

  ghost predicate OnDisk(fs: Fs)
    reads fs
  {
    fs.bd == Project1 && Stored(fs.sb, fs.State())
  }

  predicate DirAt(fs: Fs, d: nat)
    reads fs
  {
    d < |fs.inodes| && fs.inodes[d].typ == T_DIR
  }

  lemma StoredDir(sb: Super, s: St, d: nat)
    requires Stored(sb, s) && d < |s.inodes| && s.inodes[d].typ == T_DIR
    ensures s.inodes[d].size % K.DIRENT == 0 && s.inodes[d].size <= K.DIRENT * K.MAXDIRENTS
    ensures |Abs(s)[d].ents| == s.inodes[d].size / K.DIRENT && Abs(s)[d].ents == EntsOf(File(Project1, s, d))
    ensures |File(Project1, s, d)| == s.inodes[d].size
  {
    hide EntsOf, AllSynced, TreeOk, RootsOk, IndexOk, BitmapOk;
    FileLength(Project1, s, d);
  }

  /** readi of the dirent in place `k`. */
  method ReadEnt(fs: Fs, d: nat, k: nat) returns (de: D.Dirent)
    requires OnDisk(fs) && DirAt(fs, d) && K.DIRENT * k < fs.inodes[d].size
    modifies fs
    ensures fs.State() == old(fs.State())
    ensures k < |Abs(fs.State())[d].ents| && de == Abs(fs.State())[d].ents[k]
  {
    hide Wf, AllSynced, File, DirentOf, Abs;
    StoredDir(fs.sb, fs.State(), d);
    var n, buf := fs.Readi(d, K.DIRENT * k, K.DIRENT);
    assert n == K.DIRENT; // else panic("dirlookup read")
    de := DirentOf(buf);
  }

  /** dirlookup: the first used dirent of that name. */
  method Lookup(fs: Fs, d: nat, name: D.Name) returns (r: Option<nat>, k: nat)
    requires OnDisk(fs) && DirAt(fs, d)
    modifies fs
    ensures fs.State() == old(fs.State())
    ensures r.Some? <==> K.Has(Abs(fs.State())[d].ents, name)
    ensures r.Some? ==> k < |Abs(fs.State())[d].ents| && k == K.Lookup(Abs(fs.State())[d].ents, name, 0)
    ensures r.Some? ==> r.value == Abs(fs.State())[d].ents[k].inum
  {
    hide Stored, Abs;
    ghost var ents := Abs(fs.State())[d].ents;
    StoredDir(fs.sb, fs.State(), d);
    k := 0;
    while K.DIRENT * k < fs.inodes[d].size
      invariant fs.State() == old(fs.State())
      invariant k <= |ents| && K.Lookup(ents, name, 0) == K.Lookup(ents, name, k)
      decreases fs.inodes[d].size - K.DIRENT * k
    {
      var de := ReadEnt(fs, d, k);
      if de.inum != 0 && de.name == name {
        return Some(de.inum), k;
      }
      k := k + 1;
    }
    r := None;
  }

  /** The first free dirent, or the end. */
  method FindSlot(fs: Fs, d: nat) returns (k: nat)
    requires OnDisk(fs) && DirAt(fs, d)
    modifies fs
    ensures fs.State() == old(fs.State()) && D.FreeSlot(Abs(fs.State())[d].ents, k)
    ensures K.DIRENT * k <= fs.inodes[d].size
    ensures K.DirFull(Abs(fs.State())[d].ents) <==> k >= K.MAXDIRENTS
  {
    hide Stored, Abs;
    ghost var ents := Abs(fs.State())[d].ents;
    StoredDir(fs.sb, fs.State(), d);
    k := 0;
    while K.DIRENT * k < fs.inodes[d].size
      invariant fs.State() == old(fs.State())
      invariant k <= |ents| && forall j :: 0 <= j < k ==> ents[j].inum != 0
      decreases fs.inodes[d].size - K.DIRENT * k
    {
      var de := ReadEnt(fs, d, k);
      if de.inum == 0 {
        return;
      }
      k := k + 1;
    }
  }

  /** isdirempty. */
  method Isdirempty(fs: Fs, d: nat) returns (empty: bool)
    requires OnDisk(fs) && DirAt(fs, d)
    modifies fs
    ensures fs.State() == old(fs.State()) && (empty <==> D.Empty(Abs(fs.State())[d].ents))
  {
    hide Stored, Abs;
    ghost var ents := Abs(fs.State())[d].ents;
    StoredDir(fs.sb, fs.State(), d);
    var k := 2;
    while K.DIRENT * k < fs.inodes[d].size
      invariant fs.State() == old(fs.State())
      invariant forall j :: 2 <= j < k && j < |ents| ==> ents[j].inum == 0
      decreases fs.inodes[d].size - K.DIRENT * k
    {
      var de := ReadEnt(fs, d, k);
      if de.inum != 0 {
        return false;
      }
      k := k + 1;
    }
    empty := true;
  }

  // ---- writing them ----

  lemma WroteLogs(sb: Super, s0: St, s: St, t: St, a: set<nat>, d: nat, k: nat, b: seq<byte>)
    requires Logs(sb, s0, s, a) && sb.size < BPB && d < |s.inodes| && K.DIRENT * k <= s.inodes[d].size
    requires s.inodes[d].typ == T_DIR && |b| == K.DIRENT && Stored(sb, t)
    requires WriteDone(Project1, sb, s, t, d, K.DIRENT * k, b, K.DIRENT * k / BSIZE)
    ensures Logs(sb, s0, t, a + EntryBlocks(sb, t, d, k))
    ensures TreeKept(s.tree, t.tree) && OnlyFile(s, t, d)
    ensures HasLeaf(Project1, t.tree, d, K.DIRENT * k / BSIZE)
  {
    hide Stored, Wf, AllSynced, Logs, FilesAre, WroteTo, Noted, EntryBlocks, NewLogged, Touches, HasLeaf, FilesKept,
         NoneRevived, Splice, File;
    LogsStored(sb, s0, s, a);
    FileLength(Project1, s, d);
    OneKept(s0, s, t, d, Splice(File(Project1, s, d), K.DIRENT * k, b));
    var bn := K.DIRENT * k / BSIZE;
    if K.DIRENT * k >= BSIZE {
      BeforeOff(Project1, sb, s, d, K.DIRENT * k);
    }
    forall x | x in t.logged && x !in s.logged
      ensures x in EntryBlocks(sb, t, d, k) && sb.inodestart <= x < sb.size
    {
      if x == IBlock(sb, d) {
        FileLog.InodePlace(Project1, sb, s, d);
        InEntryBlocks(sb, t, d, k, x);
      } else {
        WroteHere(sb, s, t, d, bn, x);
        InEntryBlocks(sb, t, d, k, x);
      }
    }
    LogsMore(sb, s0, s, t, a, EntryBlocks(sb, t, d, k));
    OneBlock(k);
    WroteSpan(Project1, sb, s, t, d, K.DIRENT * k, b);
  }

  lemma InEntryBlocks(sb: Super, t: St, d: nat, k: nat, x: nat)
    requires || x == IBlock(sb, d) || x == sb.bmapstart || x == LeafBlock(Project1, t.tree, d, K.DIRENT * k / BSIZE)
             || (K.DIRENT * k / BSIZE >= 12 && x == Ptr(t.tree, Node(d, [12])))
    ensures x in EntryBlocks(sb, t, d, k)
  {
  }

  /** writei of one dirent, in a transaction begun at `s0` that has logged blocks of `a`. It fails, which is a
      panic, past the largest size of a file or, for a new dirent, on a full disk. */
  method PutEntry(fs: Fs, d: nat, k: nat, de: D.Dirent, ghost s0: St, ghost a: set<nat>) returns (ok: bool)
    requires fs.bd == Project1 && fs.sb.size < BPB && Logs(fs.sb, s0, fs.State(), a)
    requires DirAt(fs, d) && K.DIRENT * k <= fs.inodes[d].size && DirentFits(de)
    modifies fs
    ensures !ok ==> k >= K.MAXDIRENTS || |Free(fs.sb, old(fs.data))| < 4
    ensures k >= K.MAXDIRENTS ==> !ok
    ensures K.DIRENT * k < old(fs.inodes[d].size) ==> ok
    ensures ok ==> Logs(fs.sb, s0, fs.State(), a + EntryBlocks(fs.sb, fs.State(), d, k))
    ensures ok ==> k <= |old(Abs(fs.State()))[d].ents|
                   && Abs(fs.State()) == D.WithEntry(old(Abs(fs.State())), d, k, de)
    ensures ok ==> TreeKept(old(fs.tree), fs.tree) && HasLeaf(Project1, fs.tree, d, K.DIRENT * k / BSIZE)
    ensures ok ==> OnlyFile(old(fs.State()), fs.State(), d)
    ensures ok ==> |Free(fs.sb, old(fs.data))| <= |Free(fs.sb, fs.data)| + 4
  {
    hide Wf, AllSynced, Logs, Stored, Shaped, Abs, WriteDone, DirentBytes, Noted, Free, TreeKept, EntryBlocks, HasLeaf;
    ghost var s := fs.State();
    LogsStored(fs.sb, s0, s, a);
    StoredDir(fs.sb, s, d);
    OneBlock(k);
    var w := fs.Writei(d, DirentBytes(de), K.DIRENT * k);
    ok := w == Some(K.DIRENT);
    if ok {
      WroteAbs(fs.sb, s, fs.State(), d, k, de, K.DIRENT * k / BSIZE);
      WroteStored(fs.sb, s, fs.State(), d, K.DIRENT * k, DirentBytes(de), K.DIRENT * k / BSIZE);
      WroteLogs(fs.sb, s0, s, fs.State(), a, d, k, DirentBytes(de));
    }
  }

  lemma WroteStored(sb: Super, s: St, t: St, d: nat, off: nat, b: seq<byte>, last: nat)
    requires d < |s.inodes| && off <= s.inodes[d].size && WriteDone(Project1, sb, s, t, d, off, b, last) && Shaped(t)
    ensures Stored(sb, t)
  {
    hide Wf, AllSynced, Shaped, DoneLog, FilesAre;
  }

  /** iupdate with a new type or count, in a transaction begun at `s0`. */
  method Relabel(fs: Fs, i: nat, typ: nat, nlink: nat, ghost s0: St, ghost a: set<nat>)
    requires fs.bd == Project1 && Logs(fs.sb, s0, fs.State(), a) && i < |fs.inodes| == |s0.inodes|
    requires typ == fs.inodes[i].typ || (fs.inodes[i].typ == 0 && 0 < typ <= T_DEV && s0.inodes[i].typ == 0)
    modifies fs
    ensures Logs(fs.sb, s0, fs.State(), a + {IBlock(fs.sb, i)})
    ensures fs.inodes == old(fs.inodes)[i := old(fs.inodes[i]).(typ := typ, nlink := nlink)]
    ensures Abs(fs.State()) == old(Abs(fs.State()))[i := D.Ino(TypOf(typ), nlink, old(Abs(fs.State()))[i].ents)]
    ensures Free(fs.sb, fs.data) == Free(fs.sb, old(fs.data)) && fs.tree == old(fs.tree)
  {
    hide Wf, AllSynced, Logs, Shaped, Abs, Noted, Free, FilesAre, IBlock, File, FilesKept, NoneRevived;
    ghost var s := fs.State();
    LogsStored(fs.sb, s0, s, a);
    fs.Label(i, typ, nlink);
    OneKept(s0, s, fs.State(), i, File(Project1, s, i));
    LabelledAbs(s, fs.State(), i, typ, nlink);
    FileLog.InodePlace(Project1, fs.sb, s, i);
    LogsMore(fs.sb, s0, s, fs.State(), a, {IBlock(fs.sb, i)});
  }

  /** dirlink: the name is refused if it is there. It panics if no dirent is free and none can be added, or if a new
      block is needed and the disk is full. */
  method Dirlink(fs: Fs, d: nat, name: D.Name, i: nat, ghost s0: St, ghost a: set<nat>)
    returns (ok: bool, panicked: bool, ghost k: nat)
    requires fs.bd == Project1 && fs.sb.size < BPB && Logs(fs.sb, s0, fs.State(), a)
    requires DirAt(fs, d) && i < 0x1_0000 && NameFits(name)
    modifies fs
    ensures ok || panicked <==> !K.Has(old(Abs(fs.State()))[d].ents, name)
    ensures !ok && !panicked ==> fs.State() == old(fs.State())
    ensures panicked ==> !ok && (K.DirFull(old(Abs(fs.State()))[d].ents) || |Free(fs.sb, old(fs.data))| < 4)
    ensures ok ==> !K.DirFull(old(Abs(fs.State()))[d].ents)
    ensures ok ==>
              && D.FreeSlot(old(Abs(fs.State()))[d].ents, k) && k <= |old(Abs(fs.State()))[d].ents|
              && Abs(fs.State()) == D.WithEntry(old(Abs(fs.State())), d, k, D.Dirent(i, name))
              && Logs(fs.sb, s0, fs.State(), a + EntryBlocks(fs.sb, fs.State(), d, k))
              && TreeKept(old(fs.tree), fs.tree) && HasLeaf(Project1, fs.tree, d, K.DIRENT * k / BSIZE)
              && OnlyFile(old(fs.State()), fs.State(), d)
              && |Free(fs.sb, old(fs.data))| <= |Free(fs.sb, fs.data)| + 4
  {
    hide Logs, Stored, Abs, Free, TreeKept, EntryBlocks, HasLeaf, OnlyFile, K.DirFull, D.FreeSlot, K.Has, NameFits,
         D.WithEntry;
    LogsStored(fs.sb, s0, fs.State(), a);
    var found, at := Lookup(fs, d, name);
    k := at;
    if found.Some? {
      return false, false, k;
    }
    var slot := FindSlot(fs, d);
    k := slot;
    ok := PutEntry(fs, d, slot, D.Dirent(i, name), s0, a);
    panicked := !ok; // panic("dirlink")
  }

  // ---- link, unlink and create as transactions ----

  function ChangeOf(s0: St, s: St): C.Change {
    C.Change(s0.data, s.data, s.logged)
  }

  /** A transaction of at most six blocks, all above the log, that leaves everything in order and alters no file. */
  ghost predicate DirTx(sb: Super, s0: St, s: St) {
    && DirOk(sb, s) && FilesKept(s0, s)
    && |s.logged| <= 6 && C.ChangeOk(sb.inodestart, sb.size, ChangeOf(s0, s))
  }

  lemma TxDone(sb: Super, s0: St, s: St, a: set<nat>)
    requires Logs(sb, s0, s, a) && |a| <= 6 && D.Inv(Abs(s))
    ensures DirTx(sb, s0, s) && DirOk(sb, s)
  {
    hide AllSynced, Shaped, D.Inv, Abs, TreeOk, RootsOk, IndexOk, Covered, FilesKept;
    SubsetSize(s.logged, a);
  }

  lemma EntryBlocksSize(sb: Super, s: St, d: nat, k: nat)
    ensures |EntryBlocks(sb, s, d, k)| <= 4
  {
    hide LeafBlock, IBlock;
  }

  lemma Began(sb: Super, s: St)
    requires DirOk(sb, s)
    ensures Stored(sb, Begun(s)) && DirOk(sb, Begun(s)) && Abs(Begun(s)) == Abs(s)
    ensures D.Inv(Abs(s)) && |s.inodes| <= 0x1_0000
  {
    BegunSame(Project1, sb, s);
    hide Wf, AllSynced, D.Inv, File;
    assert Abs(Begun(s)) == Abs(s);
  }

  ghost predicate Ready(fs: Fs)
    reads fs
  {
    fs.bd == Project1 && fs.sb.size < BPB && DirOk(fs.sb, fs.State())
  }

  /** A directory with links, in which names can be made and removed. */
  predicate Parent(s: D.Inodes, d: nat) {
    0 < d && D.Linked(s, d)
  }

  /** sys_link for the inode and the parent directory that the walks have found. */
  method Link(fs: Fs, i: nat, d: nat, name: D.Name) returns (ok: bool, panicked: bool, ghost k: nat)
    requires Ready(fs) && K.Reachable(Abs(fs.State()), i) && Abs(fs.State())[i].typ != D.Dir
    requires Parent(Abs(fs.State()), d) && NameFits(name)
    modifies fs
    ensures !panicked ==> Ready(fs) && DirTx(fs.sb, Begun(old(fs.State())), fs.State())
    ensures ok || panicked <==> !K.Has(old(Abs(fs.State()))[d].ents, name)
    ensures !ok && !panicked ==> Abs(fs.State()) == old(Abs(fs.State()))
    ensures ok ==> K.Linking(old(Abs(fs.State())), Abs(fs.State()), d, k, name, i)
    ensures panicked ==> !ok && (K.DirFull(old(Abs(fs.State()))[d].ents) || |Free(fs.sb, old(fs.data))| < 4)
    ensures ok ==> !K.DirFull(old(Abs(fs.State()))[d].ents)
  {
    hide Logs, Stored, Abs, Free, TreeKept, EntryBlocks, HasLeaf, OnlyFile, K.DirFull, D.FreeSlot, K.Has, NameFits,
         D.WithEntry, DirTx, DirOk, D.Inv, K.Linking, D.Link, IBlock, Shaped;
    ghost var s, was := fs.State(), Abs(fs.State());
    fs.logged := {}; // begin_op
    ghost var s0 := fs.State();
    assert s0 == Begun(s);
    Began(fs.sb, s);
    LogsNone(fs.sb, s0);
    AbsAt(s0, i);
    AbsAt(s0, d);
    Relabel(fs, i, fs.inodes[i].typ, fs.inodes[i].nlink + 1, s0, {});
    ghost var a := {} + {IBlock(fs.sb, i)};
    ok, panicked, k := Dirlink(fs, d, name, i, s0, a);
    if panicked {
      return;
    }
    if !ok {
      Relabel(fs, i, fs.inodes[i].typ, fs.inodes[i].nlink - 1, s0, a); // bad:
      assert Abs(fs.State()) == was;
      TxDone(fs.sb, s0, fs.State(), a + {IBlock(fs.sb, i)});
    } else {
      K.HasOrAbsent(was[d].ents, name);
      K.IsLink(was, d, k, name, i);
      K.LinkedFile(was, d, k, name, i);
      EntryBlocksSize(fs.sb, fs.State(), d, k);
      TxDone(fs.sb, s0, fs.State(), a + EntryBlocks(fs.sb, fs.State(), d, k));
    }
  }

  /** iput by a process, while `others` have references to the inode too: the last one frees an inode without
      links, and its content. */
  method Iput(fs: Fs, i: nat, others: nat, ghost s0: St, ghost a: set<nat>)
    requires fs.bd == Project1 && fs.sb.size < BPB && Logs(fs.sb, s0, fs.State(), a) && i < |fs.inodes|
    modifies fs
    ensures Logs(fs.sb, s0, fs.State(), a + {IBlock(fs.sb, i), fs.sb.bmapstart})
    ensures Abs(fs.State()) == if old(fs.inodes[i].nlink) == 0 && others == 0 then K.Freed(old(Abs(fs.State())), i)
                               else old(Abs(fs.State()))
  {
    hide Wf, AllSynced, Logs, Shaped, Abs, Noted, FilesAre, IBlock, Without, K.Freed, FilesKept, NoneRevived, File;
    ghost var s := fs.State();
    LogsStored(fs.sb, s0, s, a);
    var _ := fs.Iput(i, others + 1, true);
    FileLog.InodePlace(Project1, fs.sb, s, i);
    FileLog.MetaSize(Project1, fs.sb, s);
    if s.inodes[i].nlink == 0 && others == 0 {
      FreedAbs(s, fs.State(), i);
      OneKept(s0, s, fs.State(), i, []);
    } else {
      NoneKept(s0, s);
    }
    LogsMore(fs.sb, s0, s, fs.State(), a, {IBlock(fs.sb, i), fs.sb.bmapstart});
  }

  lemma RemovedLog(sb: Super, t: St, d: nat, k: nat, i: nat, b: set<nat>)
    requires b <= EntryBlocks(sb, t, d, k) + {IBlock(sb, d)} + {IBlock(sb, i)}
    ensures |b + {IBlock(sb, i), sb.bmapstart}| <= 6
  {
    hide LeafBlock, IBlock;
    EntryBlocksSize(sb, t, d, k);
    var all := EntryBlocks(sb, t, d, k) + {IBlock(sb, i)};
    SubsetSize(b + {IBlock(sb, i), sb.bmapstart}, all);
  }

  /** The part of sys_unlink that changes things: clear the dirent, count the links down, give the inode back. */
  method RemoveEntry(fs: Fs, d: nat, k: nat, i: nat, ref: seq<nat>, ghost s0: St)
    requires fs.bd == Project1 && fs.sb.size < BPB && Logs(fs.sb, s0, fs.State(), {})
    requires D.Inv(Abs(fs.State())) && D.Removable(Abs(fs.State()), d, k) && i == Abs(fs.State())[d].ents[k].inum
    requires |ref| == |fs.inodes|
    modifies fs
    ensures DirTx(fs.sb, s0, fs.State()) && DirOk(fs.sb, fs.State())
    ensures K.Removed(old(Abs(fs.State())), Abs(fs.State()), ref, d, k)
  {
    hide Logs, Stored, Abs, Free, TreeKept, EntryBlocks, HasLeaf, D.FreeSlot, D.Put, DirTx, DirOk, D.Inv, D.Unlink,
         IBlock, Shaped, K.Freed, D.Empty;
    ghost var was, s := Abs(fs.State()), fs.State();
    K.RemovableParts(was, d, k);
    K.UnlinkStays(was, d, k);
    K.UnlinkIs(was, d, k);
    D.UnlinkOk(was, d, k);
    LogsStored(fs.sb, s0, s, {});
    AbsAt(s, d);
    AbsAt(s, i);
    var wasDir := fs.inodes[i].typ == T_DIR;
    var ok := PutEntry(fs, d, k, D.Dirent(0, ""), s0, {});
    assert ok; // else panic("unlink: writei")
    ghost var t, b := fs.State(), {} + EntryBlocks(fs.sb, fs.State(), d, k);
    if wasDir {
      Relabel(fs, d, T_DIR, fs.inodes[d].nlink - 1, s0, b);
      b := b + {IBlock(fs.sb, d)};
    }
    Relabel(fs, i, fs.inodes[i].typ, fs.inodes[i].nlink - 1, s0, b);
    b := b + {IBlock(fs.sb, i)};
    assert Abs(fs.State()) == D.Unlink(was, d, k);
    RemovedLog(fs.sb, t, d, k, i, b);
    ghost var u := Abs(fs.State());
    AbsAt(fs.State(), i);
    Iput(fs, i, ref[i], s0, b);
    if u[i].nlink == 0 {
      K.FreeOk(u, i);
    }
    TxDone(fs.sb, s0, fs.State(), b + {IBlock(fs.sb, i), fs.sb.bmapstart});
  }

  /** sys_unlink in the parent directory that the walk has found. `ref` are the references that processes hold. */
  method Unlink(fs: Fs, d: nat, name: D.Name, ref: seq<nat>) returns (ok: bool)
    requires Ready(fs) && Parent(Abs(fs.State()), d) && |ref| == |fs.inodes|
    modifies fs
    ensures Ready(fs) && DirTx(fs.sb, Begun(old(fs.State())), fs.State())
    ensures ok <==> K.NameFree(old(Abs(fs.State())), d, name)
    ensures !ok ==> fs.State() == Begun(old(fs.State())) && Abs(fs.State()) == old(Abs(fs.State()))
    ensures ok ==> K.Unlinking(old(Abs(fs.State())), Abs(fs.State()), ref, d, name)
  {
    hide Logs, Stored, Abs, DirTx, DirOk, D.Inv, D.Unlink, Shaped, K.Removed, K.Unlinking, K.Lookup, D.Empty;
    ghost var s, was := fs.State(), Abs(fs.State());
    fs.logged := {}; // begin_op
    ghost var s0 := fs.State();
    assert s0 == Begun(s);
    Began(fs.sb, s);
    LogsNone(fs.sb, s0);
    AbsAt(s0, d);
    TxDone(fs.sb, s0, s0, {});
    if name == "." || name == ".." {
      return false;
    }
    var r, k := Lookup(fs, d, name);
    if r.None? {
      return false;
    }
    var i := r.value;
    K.FoundEntry(was, d, k, name);
    AbsAt(s0, i);
    assert fs.inodes[i].nlink >= 1; // else panic("unlink: nlink < 1")
    if fs.inodes[i].typ == T_DIR {
      var empty := Isdirempty(fs, i);
      if !empty {
        return false;
      }
    }
    RemoveEntry(fs, d, k, i, ref, s0);
    K.IsUnlinking(was, Abs(fs.State()), ref, d, k, name);
    ok := true;
  }

  /** ialloc's search. */
  method FirstFree(fs: Fs) returns (r: Option<nat>)
    requires OnDisk(fs) && D.Inv(Abs(fs.State()))
    ensures r.None? <==> !K.HasFree(Abs(fs.State()))
    ensures r.Some? ==> K.FirstFree(Abs(fs.State()), r.value)
  {
    hide Stored, AbsIno, D.CountsOk, D.DirsOk, D.ChildrenOk, D.ParentsOk;
    var i := 1;
    while i < |fs.inodes| && fs.inodes[i].typ != 0
      invariant 0 < i && forall j :: 1 <= j < i && j < |fs.inodes| ==> Abs(fs.State())[j].typ != D.Unused
    {
      AbsAt(fs.State(), i);
      i := i + 1;
    }
    if i >= |fs.inodes| {
      return None; // panic("ialloc: no inodes")
    }
    AbsAt(fs.State(), i);
    r := Some(i);
  }

  lemma SameLeaf(t: Tree, t': Tree, i: nat, bn: nat)
    requires TreeKept(t, t') && HasLeaf(Project1, t, i, bn)
    ensures LeafBlock(Project1, t', i, bn) == LeafBlock(Project1, t, i, bn)
  {
    hide Path, Cap;
  }

  lemma FirstEntry(sb: Super, s: St, i: nat, k: nat)
    requires k <= 1
    ensures EntryBlocks(sb, s, i, k) == {IBlock(sb, i), sb.bmapstart, LeafBlock(Project1, s.tree, i, 0)}
    ensures K.DIRENT * k / BSIZE == 0
  {
    hide LeafBlock, IBlock;
  }

  /** "." and ".." of a new directory; a panic needs a full disk. */
  method Dots(fs: Fs, i: nat, d: nat, ghost s0: St, ghost a: set<nat>) returns (ok: bool, ghost leaf: nat)
    requires fs.bd == Project1 && fs.sb.size < BPB && Logs(fs.sb, s0, fs.State(), a) && DirAt(fs, i)
    requires 0 < i < 0x1_0000 && 0 < d < 0x1_0000 && Abs(fs.State())[i] == D.Ino(D.Dir, 1, [])
    modifies fs
    ensures !ok ==> |Free(fs.sb, old(fs.data))| < 8
    ensures ok ==> Logs(fs.sb, s0, fs.State(), a + {IBlock(fs.sb, i), fs.sb.bmapstart, leaf})
    ensures ok ==> Abs(fs.State()) == old(Abs(fs.State()))[i := D.Ino(D.Dir, 1, K.DotsOf(D.Dir, i, d))]
    ensures ok ==> OnlyFile(old(fs.State()), fs.State(), i)
    ensures ok ==> |Free(fs.sb, old(fs.data))| <= |Free(fs.sb, fs.data)| + 8
  {
    hide Logs, Abs, Free, TreeKept, EntryBlocks, HasLeaf, LeafBlock, IBlock, NameFits;
    DotsFit();
    leaf := 0;
    var panicked;
    ghost var k;
    ok, panicked, k := Dirlink(fs, i, ".", i, s0, a);
    if panicked {
      return false, leaf;
    }
    FirstEntry(fs.sb, fs.State(), i, k);
    leaf := LeafBlock(Project1, fs.tree, i, 0);
    assert Abs(fs.State())[i].ents == [D.Dirent(i, ".")];
    ghost var t, b := fs.tree, a + {IBlock(fs.sb, i), fs.sb.bmapstart, leaf};
    ok, panicked, k := Dirlink(fs, i, "..", d, s0, b);
    if panicked {
      return false, leaf;
    }
    FirstEntry(fs.sb, fs.State(), i, k);
    SameLeaf(t, fs.tree, i, 0);
    assert Abs(fs.State())[i].ents == [D.Dirent(i, "."), D.Dirent(d, "..")];
    assert b + {IBlock(fs.sb, i), fs.sb.bmapstart, leaf} == b;
  }

  lemma DotsFit()
    ensures NameFits(".") && NameFits("..")
  {
  }

  lemma LogsWider(sb: Super, s0: St, s: St, a: set<nat>, b: set<nat>)
    requires Logs(sb, s0, s, a) && a <= b
    ensures Logs(sb, s0, s, b)
  {
    hide Stored, Noted;
  }

  /** ialloc of inode `i` and the fields of the new inode; a directory also counts in its parent and gets its dots. */
  method NewInode(fs: Fs, i: nat, d: nat, typ: D.Typ, ghost s0: St) returns (ok: bool, ghost leaf: nat)
    requires fs.bd == Project1 && fs.sb.size < BPB && Logs(fs.sb, s0, fs.State(), {})
    requires DirAt(fs, d) && 0 < d < |fs.inodes| && 0 < i < |fs.inodes| && i != d && typ != D.Unused
    requires Abs(fs.State())[i] == D.Ino(D.Unused, 0, []) && fs.State() == s0
    modifies fs
    ensures !ok ==> |Free(fs.sb, old(fs.data))| < 8
    ensures ok ==> Logs(fs.sb, s0, fs.State(), {IBlock(fs.sb, i), IBlock(fs.sb, d), fs.sb.bmapstart, leaf})
    ensures ok ==> |fs.inodes| == |old(fs.inodes)|
    ensures ok ==>
              var was := old(Abs(fs.State()));
              Abs(fs.State()) == was[i := D.Ino(typ, 1, K.DotsOf(typ, i, d))]
                                    [d := was[d].(nlink := was[d].nlink + (if typ == D.Dir then 1 else 0))]
    ensures ok ==> |Free(fs.sb, old(fs.data))| <= |Free(fs.sb, fs.data)| + 8
  {
    hide Logs, Abs, Free, IBlock, Shaped, OnlyFile;
    ghost var s, was := fs.State(), Abs(fs.State());
    NewIn(fs.sb, s0, s, i, d);
    leaf := 0;
    Relabel(fs, i, TypCode(typ), 0, s0, {}); // ialloc
    Relabel(fs, i, TypCode(typ), 1, s0, {} + {IBlock(fs.sb, i)});
    ghost var a := {} + {IBlock(fs.sb, i)} + {IBlock(fs.sb, i)};
    if typ == D.Dir {
      Relabel(fs, d, T_DIR, fs.inodes[d].nlink + 1, s0, a); // for ".."
      a := a + {IBlock(fs.sb, d)};
      ok, leaf := Dots(fs, i, d, s0, a);
      if !ok {
        return;
      }
      a := a + {IBlock(fs.sb, i), fs.sb.bmapstart, leaf};
    }
    LogsWider(fs.sb, s0, fs.State(), a, {IBlock(fs.sb, i), IBlock(fs.sb, d), fs.sb.bmapstart, leaf});
    ok := true;
  }

  lemma NewIn(sb: Super, s0: St, s: St, i: nat, d: nat)
    requires Logs(sb, s0, s, {}) && i < |s.inodes| && d < |s.inodes|
    requires Abs(s)[i] == D.Ino(D.Unused, 0, []) && s.inodes[d].typ == T_DIR
    ensures |s.inodes| <= 0x1_0000 && s.inodes[i].typ == 0 && Abs(s)[d].typ == D.Dir
    ensures Abs(s)[d].nlink == s.inodes[d].nlink
  {
    hide Wf, AllSynced, Noted, Abs;
    AbsAt(s, i);
    AbsAt(s, d);
  }

  /** create in the parent directory that the walk has found: the inode of a file of that name, or a new one. A panic
      if the name is new and no inode is free, the directory is full, or the disk may be. */
  method Create(fs: Fs, d: nat, name: D.Name, typ: D.Typ) returns (ok: bool, r: Option<nat>)
    requires Ready(fs) && Parent(Abs(fs.State()), d) && NameFits(name) && typ != D.Unused
    modifies fs
    ensures ok ==> Ready(fs) && DirTx(fs.sb, Begun(old(fs.State())), fs.State())
    ensures ok ==> K.CreateIn(old(Abs(fs.State())), Abs(fs.State()), d, name, typ, r)
    ensures ok ==> K.Has(old(Abs(fs.State()))[d].ents, name)
                   || (K.HasFree(old(Abs(fs.State()))) && !K.DirFull(old(Abs(fs.State()))[d].ents))
    ensures !ok ==> !K.Has(old(Abs(fs.State()))[d].ents, name)
                    && (!K.HasFree(old(Abs(fs.State()))) || K.DirFull(old(Abs(fs.State()))[d].ents)
                        || |Free(fs.sb, old(fs.data))| < 12)
  {
    hide Logs, Stored, Abs, Free, DirTx, DirOk, D.Inv, Shaped, K.CreateIn, K.HasFree, K.DirFull, K.Lookup, K.Has,
         K.FirstFree;
    ghost var s, was := fs.State(), Abs(fs.State());
    fs.logged := {}; // begin_op
    ghost var s0 := fs.State();
    assert s0 == Begun(s);
    Began(fs.sb, s);
    LogsNone(fs.sb, s0);
    AbsAt(s0, d);
    var found, k := Lookup(fs, d, name);
    if found.Some? {
      var i := found.value;
      FoundHere(fs.sb, s0, d, k, name, typ);
      TxDone(fs.sb, s0, s0, {});
      return true, if typ == D.File && fs.inodes[i].typ == T_FILE then Some(i) else None;
    }
    var free := FirstFree(fs);
    if free.None? {
      return false, None;
    }
    ok := CreateNew(fs, free.value, d, name, typ, s0);
    r := free;
  }

  lemma FoundHere(sb: Super, s: St, d: nat, k: nat, name: D.Name, typ: D.Typ)
    requires DirOk(sb, s) && Parent(Abs(s), d) && k == K.Lookup(Abs(s)[d].ents, name, 0) < |Abs(s)[d].ents|
    ensures Abs(s)[d].ents[k].inum < |s.inodes|
    ensures var i := Abs(s)[d].ents[k].inum;
            K.CreateIn(Abs(s), Abs(s), d, name, typ,
                       if typ == D.File && s.inodes[i].typ == T_FILE then Some(i) else None)
  {
    hide Stored, Abs, D.Inv;
    K.InvSound(Abs(s));
    assert K.EntryAt(Abs(s), d, k);
    AbsAt(s, Abs(s)[d].ents[k].inum);
  }

  /** create for a name that is not taken, with free inode `i`. */
  method CreateNew(fs: Fs, i: nat, d: nat, name: D.Name, typ: D.Typ, ghost s0: St) returns (ok: bool)
    requires fs.bd == Project1 && fs.sb.size < BPB && Logs(fs.sb, s0, fs.State(), {}) && D.Inv(Abs(fs.State()))
    requires fs.State() == s0
    requires Parent(Abs(fs.State()), d) && NameFits(name) && typ != D.Unused
    requires K.FirstFree(Abs(fs.State()), i) && !K.Has(Abs(fs.State())[d].ents, name)
    modifies fs
    ensures ok ==> DirOk(fs.sb, fs.State()) && DirTx(fs.sb, s0, fs.State())
    ensures ok ==> K.CreateIn(old(Abs(fs.State())), Abs(fs.State()), d, name, typ, Some(i))
    ensures ok ==> !K.DirFull(old(Abs(fs.State()))[d].ents)
    ensures !ok ==> K.DirFull(old(Abs(fs.State()))[d].ents) || |Free(fs.sb, old(fs.data))| < 12
  {
    hide Logs, Stored, Abs, Free, DirTx, DirOk, D.Inv, K.CreateIn, K.DirFull, K.Lookup, K.Has, D.FreeSlot, IBlock,
         EntryBlocks, OnlyFile, TreeKept, HasLeaf;
    ghost var s, was := fs.State(), Abs(fs.State());
    LogsStored(fs.sb, s0, s, {});
    K.InvUsed(was, d, i);
    AbsAt(s, d);
    ghost var leaf;
    ok, leaf := NewInode(fs, i, d, typ, s0);
    if !ok {
      return;
    }
    AbsAt(fs.State(), d);
    ghost var a := {IBlock(fs.sb, i), IBlock(fs.sb, d), fs.sb.bmapstart, leaf};
    var panicked;
    ghost var k;
    ok, panicked, k := Dirlink(fs, d, name, i, s0, a);
    if panicked {
      return;
    }
    K.HasOrAbsent(was[d].ents, name);
    K.IsCreate(was, Abs(fs.State()), d, k, name, i, typ);
    CreatedLog(fs.sb, fs.State(), i, d, leaf, k);
    TxDone(fs.sb, s0, fs.State(), a + EntryBlocks(fs.sb, fs.State(), d, k));
  }

  lemma CreatedLog(sb: Super, s: St, i: nat, d: nat, leaf: nat, k: nat)
    ensures |{IBlock(sb, i), IBlock(sb, d), sb.bmapstart, leaf} + EntryBlocks(sb, s, d, k)| <= 6
  {
    hide LeafBlock, IBlock;
    EntryBlocksSize(sb, s, d, k);
    var all := EntryBlocks(sb, s, d, k) + {IBlock(sb, i), leaf};
    SubsetSize({IBlock(sb, i), IBlock(sb, d), sb.bmapstart, leaf} + EntryBlocks(sb, s, d, k), all);
  }

  /** iput in a transaction of its own, as when a file is closed while `others` still have it open. */
  method Close(fs: Fs, i: nat, others: nat)
    requires Ready(fs) && 0 < i < |fs.inodes|
    modifies fs
    ensures Ready(fs) && DirTx(fs.sb, Begun(old(fs.State())), fs.State())
    ensures Abs(fs.State()) == if old(Abs(fs.State()))[i].nlink == 0 && others == 0
                               then K.Freed(old(Abs(fs.State())), i) else old(Abs(fs.State()))
  {
    hide Logs, Stored, Abs, DirTx, DirOk, D.Inv, Shaped, K.Freed, IBlock;
    ghost var s, was := fs.State(), Abs(fs.State());
    fs.logged := {}; // begin_op
    ghost var s0 := fs.State();
    assert s0 == Begun(s);
    Began(fs.sb, s);
    LogsNone(fs.sb, s0);
    AbsAt(s0, i);
    Iput(fs, i, others, s0, {});
    if was[i].nlink == 0 {
      K.FreeOk(was, i);
    }
    TxDone(fs.sb, s0, fs.State(), {} + {IBlock(fs.sb, i), fs.sb.bmapstart});
  }

  // ---- writes to files ----

  /** A transaction of at most seven blocks that leaves everything in order. */
  ghost predicate SmallTx(sb: Super, s0: St, s: St) {
    DirOk(sb, s) && |s.logged| <= 7 && C.ChangeOk(sb.inodestart, sb.size, ChangeOf(s0, s))
  }

  lemma DirTxSmall(sb: Super, s0: St, s: St)
    requires DirTx(sb, s0, s)
    ensures SmallTx(sb, s0, s) && FilesKept(s0, s)
  {
    hide DirOk, FilesKept, C.ChangeOk;
  }

  /** Writing to a file changes no name, no count and no directory. */
  lemma WroteFile(sb: Super, s0: St, s: St, i: nat, off: nat, src: seq<byte>, last: nat)
    requires Shaped(s0) && i < |s0.inodes| && s0.inodes[i].typ == T_FILE && off <= s0.inodes[i].size
    requires WriteDone(Project1, sb, s0, s, i, off, src, last)
    ensures Stored(sb, s) && Abs(s) == Abs(s0)
  {
    hide Wf, AllSynced, DoneLog, WroteLeaves, File, Splice;
    forall j | 0 <= j < |s.inodes|
      ensures Abs(s)[j] == Abs(s0)[j] && ShapeOk(s.inodes[j])
    {
    }
  }

  lemma SmallDone(sb: Super, s0: St, s: St)
    requires Stored(sb, s) && D.Inv(Abs(s)) && |s.logged| <= 7 && C.ChangeOk(sb.inodestart, sb.size, ChangeOf(s0, s))
    ensures SmallTx(sb, s0, s) && DirOk(sb, s)
  {
    hide Stored, D.Inv, Abs, C.ChangeOk;
  }

  lemma TxParts(sb: Super, i: nat, tx: Tx)
    requires TxOk(Project1, sb, i, tx) && LogsFew(Project1, sb, i, tx) && sb.size < BPB
    ensures i < |tx.before.inodes| && tx.off <= tx.before.inodes[i].size && |tx.after.logged| <= 7
    ensures WriteDone(Project1, sb, tx.before, tx.after, i, tx.off, tx.src, LastBlock(tx.off, |tx.src|))
  {
    hide Wf, AllSynced, WriteDone, Need, MapBlocks, FromMap, Noted, LastBlock;
  }

  lemma WroteTx(sb: Super, i: nat, tx: Tx)
    requires sb.size < BPB && DirOk(sb, tx.before) && i < |tx.before.inodes| && tx.before.inodes[i].typ == T_FILE
    requires TxOk(Project1, sb, i, tx) && LogsFew(Project1, sb, i, tx)
    ensures SmallTx(sb, tx.before, tx.after) && DirOk(sb, tx.after) && Abs(tx.after) == Abs(tx.before)
  {
    hide Stored, D.Inv, Abs, TxOk, LogsFew, WriteDone, C.ChangeOk, LastBlock, SmallTx;
    FileLog.TxChange(Project1, sb, i, tx);
    TxParts(sb, i, tx);
    StoredParts(sb, tx.before);
    WroteFile(sb, tx.before, tx.after, i, tx.off, tx.src, LastBlock(tx.off, |tx.src|));
    SmallDone(sb, tx.before, tx.after);
  }

  /** One transaction of filewrite: refused, or the bytes are spliced into the file. */
  method Write(fs: Fs, i: nat, off: nat, chunk: seq<byte>) returns (ok: bool)
    requires Ready(fs) && i < |fs.inodes| && fs.inodes[i].typ == T_FILE
    requires off < UINT && 0 < |chunk| <= 1536
    modifies fs
    ensures ok ==> Ready(fs) && SmallTx(fs.sb, Begun(old(fs.State())), fs.State())
    ensures ok ==> Abs(fs.State()) == old(Abs(fs.State()))
    ensures ok ==> if Refused(old(fs.inodes[i].size), off, |chunk|, MaxFile(Project1))
                   then fs.State() == Begun(old(fs.State()))
                   else off <= |File(Project1, old(fs.State()), i)|
                        && FilesAre(Project1, old(fs.State()), fs.State(), i,
                                    Splice(File(Project1, old(fs.State()), i), off, chunk))
    ensures !ok ==> |Free(fs.sb, old(fs.data))| < 16
  {
    hide Stored, Abs, D.Inv, SmallTx, Splice, FilesAre, File, Wf, AllSynced, TxOk, LogsFew, MaxFile, Cap, Shaped, Free,
         DirTx, PastReach;
    ghost var s := fs.State();
    Began(fs.sb, s);
    LogsNone(fs.sb, Begun(s));
    TxDone(fs.sb, Begun(s), Begun(s), {});
    DirTxSmall(fs.sb, Begun(s), Begun(s));
    FileLength(Project1, s, i);
    StoredParts(fs.sb, s);
    var w, tx := fs.WriteChunk(i, off, chunk);
    ok := w.Some?;
    if !ok {
      InReach(s.inodes[i].size, off, |chunk|);
    } else if w.value != -1 {
      WroteTx(fs.sb, i, tx);
    }
  }

  /** In project1 bmap reaches every block of a file that writei accepts. */
  lemma InReach(size: nat, off: nat, n: nat)
    requires !Refused(size, off, n, MaxFile(Project1))
    ensures !PastReach(Project1, off, n)
  {
  }

  lemma StoredParts(sb: Super, s: St)
    requires Stored(sb, s)
    ensures Wf(Project1, sb, s) && AllSynced(sb, s) && Shaped(s)
  {
    hide Wf, AllSynced, Shaped;
  }

  // ---- any sequence of calls, and a crash anywhere in it ----

  /** The transactions of the system calls, with inodes and parent directories as the walks found them. */
  datatype Call =
    | MakeLink(i: nat, d: nat, name: D.Name)
    | Make(d: nat, name: D.Name, typ: D.Typ)
    | Remove(d: nat, name: D.Name, ref: seq<nat>)
    | CloseFile(i: nat, others: nat)
    | WriteFile(i: nat, off: nat, chunk: seq<byte>)

  /** Where a process can ask for it. */
  predicate Possible(a: D.Inodes, c: Call) {
    match c
    case MakeLink(i, d, name) => K.Reachable(a, i) && a[i].typ != D.Dir && Parent(a, d) && NameFits(name)
    case Make(d, name, typ) => Parent(a, d) && NameFits(name) && typ != D.Unused
    case Remove(d, name, ref) => Parent(a, d) && |ref| == |a|
    case CloseFile(i, others) => 0 < i < |a|
    case WriteFile(i, off, chunk) => i < |a| && a[i].typ == D.File && off < UINT && 0 < |chunk| <= 1536
  }

  /** The calls that end in a panic whatever the disk has free. */
  predicate Halts(a: D.Inodes, c: Call) {
    Possible(a, c) &&
    match c
    case MakeLink(i, d, name) => !K.Has(a[d].ents, name) && K.DirFull(a[d].ents)
    case Make(d, name, typ) => !K.Has(a[d].ents, name) && (!K.HasFree(a) || K.DirFull(a[d].ents))
    case Remove(d, name, ref) => false
    case CloseFile(i, others) => false
    case WriteFile(i, off, chunk) => false
  }

  /** What a call that returns has made of the names and counts, and of the files. */
  ghost predicate Did(s: St, s': St, c: Call) {
    var a, a' := Abs(s), Abs(s');
    if !Possible(a, c) then s' == Begun(s) else
    match c
    case MakeLink(i, d, name) =>
      && FilesKept(Begun(s), s')
      && if K.Has(a[d].ents, name) then a' == a else exists k: nat :: K.Linking(a, a', d, k, name, i)
    case Make(d, name, typ) => FilesKept(Begun(s), s') && exists r :: K.CreateIn(a, a', d, name, typ, r)
    case Remove(d, name, ref) =>
      && FilesKept(Begun(s), s')
      && if K.NameFree(a, d, name) then K.Unlinking(a, a', ref, d, name) else a' == a
    case CloseFile(i, others) =>
      && FilesKept(Begun(s), s')
      && a' == if a[i].nlink == 0 && others == 0 then K.Freed(a, i) else a
    case WriteFile(i, off, chunk) =>
      && a' == a
      && if Refused(s.inodes[i].size, off, |chunk|, MaxFile(Project1)) then s' == Begun(s)
         else off <= |File(Project1, s, i)|
              && FilesAre(Project1, s, s', i, Splice(File(Project1, s, i), off, chunk))
  }

  /** Whether the call can be made. */
  method Asked(fs: Fs, c: Call) returns (b: bool)
    requires Ready(fs)
    ensures b <==> Possible(Abs(fs.State()), c)
  {
    hide Stored, AbsIno, D.Inv, NameFits;
    forall k | 0 <= k < |fs.inodes|
      ensures Abs(fs.State())[k].typ == TypOf(fs.inodes[k].typ) && Abs(fs.State())[k].nlink == fs.inodes[k].nlink
    {
      AbsAt(fs.State(), k);
    }
    match c
    case MakeLink(i, d, name) =>
      b := 0 < i < |fs.inodes| && fs.inodes[i].typ != 0 && fs.inodes[i].typ != T_DIR && fs.inodes[i].nlink > 0
           && 0 < d < |fs.inodes| && fs.inodes[d].typ == T_DIR && fs.inodes[d].nlink > 0 && NameFits(name);
    case Make(d, name, typ) =>
      b := 0 < d < |fs.inodes| && fs.inodes[d].typ == T_DIR && fs.inodes[d].nlink > 0 && NameFits(name)
           && typ != D.Unused;
    case Remove(d, name, ref) =>
      b := 0 < d < |fs.inodes| && fs.inodes[d].typ == T_DIR && fs.inodes[d].nlink > 0 && |ref| == |fs.inodes|;
    case CloseFile(i, others) =>
      b := 0 < i < |fs.inodes|;
    case WriteFile(i, off, chunk) =>
      b := i < |fs.inodes| && fs.inodes[i].typ == T_FILE && off < UINT && 0 < |chunk| <= 1536;
  }

  /** One call; false is a panic, which needs a full table or directory, or a disk that is nearly full. */
  method Do(fs: Fs, c: Call) returns (up: bool)
    requires Ready(fs)
    modifies fs
    ensures up ==> Ready(fs) && SmallTx(fs.sb, Begun(old(fs.State())), fs.State())
    ensures up ==> Did(old(fs.State()), fs.State(), c)
    ensures Halts(old(Abs(fs.State())), c) ==> !up
    ensures !up ==> Halts(old(Abs(fs.State())), c) || |Free(fs.sb, old(fs.data))| < 16
  {
    hide Stored, Abs, D.Inv, DirTx, SmallTx, FilesKept, FilesAre, File, Splice, K.CreateIn, K.Linking, K.Unlinking,
         K.NameFree, K.Has, K.HasFree, K.DirFull, K.Freed, NameFits, Free, Shaped, DirOk, Logs;
    ghost var s := fs.State();
    var asked := Asked(fs, c);
    if !asked {
      fs.logged := {};
      Began(fs.sb, s);
      LogsNone(fs.sb, Begun(s));
      TxDone(fs.sb, Begun(s), Begun(s), {});
      DirTxSmall(fs.sb, Begun(s), Begun(s));
      return true;
    }
    match c
    case MakeLink(i, d, name) =>
      var ok, panicked, k := Link(fs, i, d, name);
      up := !panicked;
      if up {
        DirTxSmall(fs.sb, Begun(s), fs.State());
      }
    case Make(d, name, typ) =>
      var r;
      up, r := Create(fs, d, name, typ);
      if up {
        DirTxSmall(fs.sb, Begun(s), fs.State());
      }
    case Remove(d, name, ref) =>
      var ok := Unlink(fs, d, name, ref);
      DirTxSmall(fs.sb, Begun(s), fs.State());
      up := true;
    case CloseFile(i, others) =>
      Close(fs, i, others);
      DirTxSmall(fs.sb, Begun(s), fs.State());
      up := true;
    case WriteFile(i, off, chunk) =>
      AbsAt(s, i);
      up := Write(fs, i, off, chunk);
  }

  /** However the calls of project1 interleave, log_write has room for every one of them. */
  lemma CallsFindRoom(sb: Super, active: set<R.OpId>, all: map<R.OpId, seq<R.Upd>>, lh: seq<nat>,
                      txOf: map<R.OpId, (St, St)>)
    requires R.Reserved(active, all, lh)
    requires forall op :: op in all ==>
               op in txOf && SmallTx(sb, txOf[op].0, txOf[op].1) && R.Blocks(all[op]) <= txOf[op].1.logged
    ensures |lh| < R.NLOG - 1
  {
    hide R.Reserved, DirOk, C.ChangeOk, R.Blocks;
    C.WritesFindRoom(active, all, lh, map op | op in txOf :: txOf[op].1.logged);
  }

  /** A recovered image that agrees with state `s` above the log is as much in order as `s`. */
  lemma CrashDirs(sb: Super, s: St, d: seq<Block>)
    requires DirOk(sb, s) && FileLog.SameFs(sb, s.data, d)
    ensures DirOk(sb, s.(data := d)) && Abs(s.(data := d)) == Abs(s)
    ensures forall k :: 0 <= k < |s.inodes| ==> File(Project1, s.(data := d), k) == File(Project1, s, k)
  {
    hide D.Inv, Wf, AllSynced, File, FileLog.SameFs;
    FileLog.SameFsWf(Project1, sb, s, d);
    FileLog.SameFsSync(Project1, sb, s, d);
    forall k | 0 <= k < |s.inodes|
      ensures File(Project1, s.(data := d), k) == File(Project1, s, k)
    {
      FileLog.SameFsFile(Project1, sb, s, d, k);
    }
    assert Abs(s.(data := d)) == Abs(s);
  }

  /** What the transactions between these states logged. */
  function LogsOf(states: seq<St>): (logs: seq<set<nat>>)
    ensures |logs| == if states == [] then 0 else |states| - 1
  {
    seq(if states == [] then 0 else |states| - 1, k requires 0 <= k < |states| - 1 => states[k + 1].logged)
  }

  lemma SmallParts(sb: Super, s0: St, s: St)
    requires SmallTx(sb, s0, s)
    ensures DirOk(sb, s) && |s.logged| <= 7 && C.ChangeOk(sb.inodestart, sb.size, ChangeOf(s0, s))
  {
    hide DirOk, C.ChangeOk;
  }

  /** The states reached by the first calls, one transaction each. */
  ghost predicate History(states: seq<St>, calls: seq<Call>) {
    && 1 <= |states| <= |calls| + 1
    && forall k :: 0 <= k < |states| - 1 ==> Did(states[k], states[k + 1], calls[k])
  }

  /** Exactly the first `j` of these transactions are durable. */
  predicate DurableTo(logs: seq<set<nat>>, supply: nat, cut: nat, j: nat) {
    j <= |logs| && forall l :: 0 <= l < |logs| ==> (l < j <==> C.Durable(logs, supply, cut, l))
  }

  lemma HistoryNext(states: seq<St>, calls: seq<Call>, t: St)
    requires History(states, calls) && |states| <= |calls| && Did(states[|states| - 1], t, calls[|states| - 1])
    ensures History(states + [t], calls) && LogsOf(states + [t]) == LogsOf(states) + [t.logged]
  {
    hide Did;
  }

  /** One transaction more, run with what the others have left. */
  lemma DurableNext(logs: seq<set<nat>>, x: set<nat>, supply: nat, cut: nat, p: nat, done: bool)
    requires p == C.Left(logs, supply, cut, |logs|) > 0 && DurableTo(logs, supply, cut, |logs|)
    requires done <==> |logs| != cut && |x| < p
    ensures DurableTo(logs + [x], supply, cut, if done then |logs| + 1 else |logs|)
    ensures C.Left(logs + [x], supply, cut, |logs| + 1)
            == if |logs| == cut then 0 else R.Less(p, C.Cost(x))
    ensures C.Left(logs + [x], supply, cut, |logs| + 1) > 0 ==> done
  {
    hide C.Spent, C.Cost, R.Less;
    var n, more := |logs|, logs + [x];
    forall l | 0 <= l <= n
      ensures C.Spent(more, l) == C.Spent(logs, l)
    {
      C.SpentFront(logs, [x], l);
    }
    assert C.Left(more, supply, cut, n) == p;
    C.LeftNext(more, supply, cut, n);
    forall l | 0 <= l < n
      ensures C.Durable(more, supply, cut, l) == C.Durable(logs, supply, cut, l)
    {
      assert more[l] == logs[l];
    }
  }

  /** Any sequence of project1's calls through the log, with power lost before the commit of call number `cut` or
      when the supply of block writes ends. No log_write panics. The image left behind recovers to a file system in
      which the first `j` calls have happened in full and no other has happened in part, `j` being exactly the number
      of those that are durable; blocks, inodes and free map agree, and every link count is the number of names. The
      run stops early only with the power gone or where a call has panicked. */
  method Run(m: L.Machine, fs: Fs, first: R.OpId, calls: seq<Call>, cut: nat,
             others: nat -> nat -> seq<R.CacheAct>)
    returns (ghost states: seq<St>, ghost j: nat, ghost left: St)
    requires C.Idle(m) && (forall op :: first <= op ==> op !in m.all && op !in m.waiting)
    requires Ready(fs) && C.Below(m.start, fs.sb.inodestart) && |m.disk| == fs.sb.size
    requires FileLog.SameFs(fs.sb, fs.data, m.Stable())
    modifies m, fs
    ensures m.Valid() && m.panicked == old(m.panicked)
    ensures History(states, calls) && states[0] == old(fs.State())
    ensures Ended(fs.sb, states, calls, old(m.power), cut, m.power)
    ensures DurableTo(LogsOf(states), old(m.power), cut, j)
    ensures left == states[j].(data := left.data) && R.RecoversTo(m.start, m.disk, left.data)
    ensures DirOk(fs.sb, left) && Abs(left) == Abs(states[j])
    ensures forall k :: 0 <= k < |left.inodes| ==> File(Project1, left, k) == File(Project1, states[j], k)
  {
    hide C.Idle, C.ChangeOk, L.Machine.Valid, L.Machine.Stable, C.SameFrom, C.UpdatesOf, C.Below, C.Left, C.Durable,
         C.Spent, C.Cost, R.Less, R.RecoversTo, DirOk, Did, SmallTx, Abs, File, Halts, DurableTo;
    states, j := [fs.State()], 0;
    C.IdleValid(m);
    ghost var supply := m.power;
    DurableNone(supply, cut);
    var k, up := 0, true;
    while m.power > 0 && k < |calls|
      invariant 0 <= k <= |calls| && |states| == k + 1 && m.Valid() && m.panicked == old(m.panicked)
      invariant |m.disk| == fs.sb.size && History(states, calls) && states[0] == old(fs.State())
      invariant j < |states| && DirOk(fs.sb, states[j]) && DurableTo(LogsOf(states), supply, cut, j)
      invariant FileLog.SameFs(fs.sb, states[j].data, m.Stable())
      invariant m.power > 0 ==> C.Idle(m) && Ready(fs) && j == k && states[k] == fs.State()
      invariant m.power > 0 ==> forall op :: first + k <= op ==> op !in m.all && op !in m.waiting
      invariant up && m.power == C.Left(LogsOf(states), supply, cut, k)
      decreases |calls| - k, m.power
    {
      ghost var s, logs, p := fs.State(), LogsOf(states), m.power;
      C.IdleValid(m);
      var before := fs.data;
      up := Do(fs, calls[k]);
      if !up {
        m.LosePower(); // panic: nothing of the call is committed
        assert Stuck(fs.sb, s, calls[k]);
        break;
      }
      ghost var t := fs.State();
      SmallParts(fs.sb, Begun(s), t);
      ghost var done := C.Run(m, first + k, C.Change(before, fs.data, fs.logged), k == cut, others(k),
                                  fs.sb.inodestart);
      HistoryNext(states, calls, t);
      DurableNext(logs, t.logged, supply, cut, p, done);
      states := states + [t];
      k := k + 1;
      if done {
        j := k;
      }
    }
    left := states[j].(data := m.Stable());
    C.Recovers(m);
    CrashDirs(fs.sb, states[j], m.Stable());
  }

  /** A call that ends in a panic, or may because the disk is nearly full. */
  ghost predicate Stuck(sb: Super, s: St, c: Call) {
    Halts(Abs(s), c) || |Free(sb, s.data)| < 16
  }

  /** All calls were made, with what they leave of the supply, or it was used up or cut before the next one, or the next
      one panicked. */
  ghost predicate Ended(sb: Super, states: seq<St>, calls: seq<Call>, supply: nat, cut: nat, power: nat) {
    if |states| == |calls| + 1 then power == C.Left(LogsOf(states), supply, cut, |calls|)
    else
      && 1 <= |states| <= |calls| && power == 0
      && (C.Left(LogsOf(states), supply, cut, |states| - 1) == 0
          || Stuck(sb, states[|states| - 1], calls[|states| - 1]))
  }

  lemma DurableNone(supply: nat, cut: nat)
    ensures DurableTo([], supply, cut, 0) && C.Left([], supply, cut, 0) == supply
  {
  }

  // ---- where it starts ----

  /** mkfs: an empty file system with a root directory that is its own parent. */
  method Mkfs(sb: Super) returns (fs: Fs)
    requires SuperOk(sb) && sb.size < BPB && 1 < sb.ninodes <= 0x1_0000 && Meta(sb) + 8 <= sb.size
    ensures fresh(fs) && fs.sb == sb && Ready(fs) && Abs(fs.State()) == K.Fresh(sb.ninodes)
  {
    hide Wf, AllSynced, Abs, Free, D.Inv, SuperOk, Meta, NoAddrs, Logs, Stored;
    fs := new Fs(Project1, sb);
    BlankAbs(sb, fs.State());
    ghost var s0 := fs.State();
    LogsNone(sb, s0);
    Relabel(fs, D.ROOTINO, T_DIR, 1, s0, {});
    var ok;
    ghost var leaf;
    ok, leaf := Dots(fs, D.ROOTINO, D.ROOTINO, s0, {} + {IBlock(sb, D.ROOTINO)});
    assert ok;
    assert Abs(fs.State()) == K.Fresh(sb.ninodes);
    K.FreshOk(sb.ninodes);
    LogsStored(sb, s0, fs.State(), {} + {IBlock(sb, D.ROOTINO)} + {IBlock(sb, D.ROOTINO), sb.bmapstart, leaf});
  }

  lemma BlankAbs(sb: Super, s: St)
    requires Wf(Project1, sb, s) && AllSynced(sb, s) && sb.ninodes <= 0x1_0000
    requires s.inodes == seq(sb.ninodes, k => Unused())
    ensures Stored(sb, s) && |Abs(s)| == sb.ninodes
    ensures forall k :: 0 <= k < sb.ninodes ==> Abs(s)[k] == D.Ino(D.Unused, 0, []) && s.inodes[k].typ == 0
  {
    hide Wf, AllSynced, File;
  }
}
