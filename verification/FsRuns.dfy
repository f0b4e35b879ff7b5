/** A project3 transaction that the log has not reserved room for. */
module FsRuns {
  import opened Basics
  import opened Words
  import opened FsLayout
  import opened FsTree
  import opened FsSpace
  import opened FileSys

  /** The disk project3's mkfs lays out. */
  const REPO := Super(2100000, 200, 32, 58)

  /** Where the chunk starts: inside block 16392, two blocks before the triple level. */
  const OFF := 16392 * 512 + 256

  function Zeros(n: nat): (s: seq<byte>)
    ensures |s| == n && forall k :: 0 <= k < n ==> s[k] == 0
  {
    seq(n, k => 0)
  }

  function Ones(n: nat): (s: seq<byte>)
    ensures |s| == n && forall k :: 0 <= k < n ==> s[k] == 1
  {
    seq(n, k => 1)
  }

  /** What the file looks like before: 16393 blocks of zeros less one byte, nothing past block 16392. */
  ghost predicate Laid(s: St) {
    && Wf(Project3, REPO, s) && 1 < |s.inodes|
    && s.inodes[1].size == 16393 * 512 - 1
    && (forall q :: 0 <= q < s.inodes[1].size ==> ByteAt(Project3, s, 1, q) == 0)
    && (forall n :: n in s.tree && n.inum == 1 ==> Touches(Project3, n.path, 0, 16392))
  }

  lemma LeafAbsent(s: St, bn: nat)
    requires Laid(s) && 16392 < bn < Cap(Project3)
    ensures Leaf(Project3, 1, bn) !in s.tree
  {
    hide Wf, ByteAt, Path, Cap, IsLeaf;
    if Leaf(Project3, 1, bn) in s.tree {
      var bm :| 0 <= bm <= 16392 && bm < Cap(Project3) && Path(Project3, bn) <= Path(Project3, bm);
      PathLeaf(Project3, 1, bm, Path(Project3, bn));
      PathLeaf(Project3, 1, bn, Path(Project3, bn));
      PathInjective(Project3, bn, bm);
    }
  }

  lemma TripleAbsent(s: St)
    requires Laid(s)
    ensures Node(1, [12]) !in s.tree
  {
    hide Wf, ByteAt;
    forall bm | 0 <= bm <= 16392
      ensures Path(Project3, bm)[0] < 12
    {
    }
  }

  lemma PathsHere()
    ensures 16395 < Cap(Project3)
    ensures Path(Project3, 16392) == [11, 127, 126] && Path(Project3, 16393) == [11, 127, 127]
    ensures Path(Project3, 16394) == [12, 1, 0, 0] && Path(Project3, 16395) == [12, 1, 0, 1]
  {
  }

  ghost predicate Chunked(tx: Tx) {
    TxOk(Project3, REPO, 1, tx) && tx.off == OFF && tx.src == Ones(1536) && Laid(tx.before)
  }

  /** The block at `p` of the file has been logged. */
  ghost predicate Hit(tx: Tx, p: seq<nat>) {
    Node(1, p) in tx.after.tree && tx.after.tree[Node(1, p)] in tx.after.logged
  }

  /** The blocks of the nodes the chunk reaches that were not there before, or hang above such a node. */
  lemma NewBlocks(tx: Tx)
    requires Chunked(tx)
    ensures Wf(Project3, REPO, tx.after)
    ensures Hit(tx, [11, 127]) && Hit(tx, [12]) && Hit(tx, [12, 1]) && Hit(tx, [12, 1, 0])
    ensures Hit(tx, [11, 127, 127]) && Hit(tx, [12, 1, 0, 0]) && Hit(tx, [12, 1, 0, 1])
    ensures BBlock(REPO, tx.after.tree[Node(1, [12])]) in tx.after.logged
  {
    hide Wf, Path, Cap, AllSynced, FilesAre, OnlyFile, Noted, BBlock, WroteTo, Touches, HasLeaf, Chunked, Laid,
         NewLogged, Parent;
    PathsHere();
    ChunkFacts(tx);
    var s, s' := tx.before, tx.after;
    LeafAbsent(s, 16393);
    LeafAbsent(s, 16394);
    LeafAbsent(s, 16395);
    TripleAbsent(s);
    LeafThere(s', 16393);
    LeafThere(s', 16394);
    LeafThere(s', 16395);
    Above(s', [12, 1, 0], [12, 1, 0, 0]);
    Above(s', [12, 1], [12, 1, 0]);
    Above(s', [12], [12, 1]);
    Above(s', [11, 127], [11, 127, 127]);
    if Node(1, [12, 1]) in s.tree {
      Above(s, [12], [12, 1]);
    }
    if Node(1, [12, 1, 0]) in s.tree {
      Above(s, [12, 1], [12, 1, 0]);
    }
    LoggedHere(tx, [12]);
    LoggedHere(tx, [12, 1]);
    LoggedHere(tx, [12, 1, 0]);
    LoggedHere(tx, [12, 1, 0, 0]);
    LoggedHere(tx, [12, 1, 0, 1]);
    LoggedHere(tx, [11, 127, 127]);
    ParentHere();
  }

  lemma ParentHere()
    ensures Parent(Node(1, [11, 127, 127])) == Node(1, [11, 127])
  {
  }

  lemma Above(s: St, p: seq<nat>, q: seq<nat>)
    requires Wf(Project3, REPO, s) && Node(1, q) in s.tree && 1 <= |p| && p <= q
    ensures Node(1, p) in s.tree
  {
    AboveIn(Project3, REPO, s, 1, p, q);
  }

  lemma ChunkFacts(tx: Tx)
    requires Chunked(tx)
    ensures Laid(tx.before) && Wf(Project3, REPO, tx.before) && Wf(Project3, REPO, tx.after)
    ensures 1 < |tx.after.inodes| && tx.after.inodes[1].size == 16395 * 512 + 256
    ensures NewLogged(REPO, tx.before.tree, tx.after.tree, tx.after.logged)
  {
    hide Wf, AllSynced, NewLogged, Noted, WroteTo, ByteAt, Touches;
    FileLength(Project3, tx.after, 1);
    FileLength(Project3, tx.before, 1);
  }

  lemma LoggedHere(tx: Tx, p: seq<nat>)
    requires NewLogged(REPO, tx.before.tree, tx.after.tree, tx.after.logged)
    requires Node(1, p) in tx.after.tree && Node(1, p) !in tx.before.tree
    ensures tx.after.tree[Node(1, p)] in tx.after.logged && BBlock(REPO, tx.after.tree[Node(1, p)]) in tx.after.logged
    ensures |p| >= 2 ==> Ptr(tx.after.tree, Parent(Node(1, p))) in tx.after.logged
  {
    hide BBlock;
  }

  lemma LeafThere(s: St, bn: nat)
    requires Wf(Project3, REPO, s) && 1 < |s.inodes| && bn * 512 < s.inodes[1].size
    ensures bn < Cap(Project3) && Leaf(Project3, 1, bn) in s.tree
  {
    hide Wf, Path, Cap;
    SizeBacked(Project3, REPO, s, 1, bn * 512);
    assert bn * 512 / 512 == bn;
  }

  /** The first block was there, but its bytes change. */
  lemma FirstHit(tx: Tx)
    requires Chunked(tx)
    ensures Hit(tx, [11, 127, 126])
  {
    hide Wf, Path, Cap, AllSynced, Laid;
    PathsHere();
    FirstBytes(tx);
    var b := tx.before.tree[Node(1, [11, 127, 126])];
    assert Leaf(Project3, 1, OFF / 512) == Node(1, [11, 127, 126]);
    assert At(tx.before.data, b)[256] == 0 && At(tx.after.data, b)[256] == 1;
    assert tx.before.data[b] != tx.after.data[b];
  }

  lemma FirstBytes(tx: Tx)
    requires Chunked(tx)
    ensures var n := Leaf(Project3, 1, 16392);
            && n in tx.before.tree && n in tx.after.tree && tx.before.tree[n] == tx.after.tree[n] < |tx.before.data|
    ensures |tx.before.data| == |tx.after.data|
    ensures ByteAt(Project3, tx.before, 1, OFF) == 0 && ByteAt(Project3, tx.after, 1, OFF) == 1
    ensures Noted(tx.before.data, {}, tx.after.data, tx.after.logged)
  {
    hide Wf, Path, Cap, AllSynced, ByteAt, NewLogged, WroteTo, Noted, Touches;
    LeafThere(tx.before, 16392);
    var n := Leaf(Project3, 1, 16392);
    assert n in tx.after.tree && tx.before.tree[n] == tx.after.tree[n];
    LeafPlace(Project3, REPO, tx.before, 1, 16392);
    NotedList(tx.before.data, {}, tx.after.data, tx.after.logged);
    ChunkFacts(tx);
    FileLength(Project3, tx.before, 1);
    assert File(Project3, tx.after, 1)[OFF] == Splice(File(Project3, tx.before, 1), OFF, Ones(1536))[OFF] == 1;
  }

  lemma InodeHit(tx: Tx)
    requires Chunked(tx)
    ensures IBlock(REPO, 1) in tx.after.logged
  {
    ChunkFacts(tx);
    hide Wf, AllSynced, Noted, NewLogged, WroteTo, Touches, FilesAre, IBlock;
  }

  /** Where the block of a node lies, and which node it belongs to. */
  lemma HitPlace(tx: Tx, p: seq<nat>)
    requires Wf(Project3, REPO, tx.after) && Hit(tx, p)
    ensures Node(1, p) in tx.after.tree
    ensures var b := tx.after.tree[Node(1, p)];
            && b in tx.after.logged && b in tx.after.owner && tx.after.owner[b].path == p && 571 <= b < REPO.size
  {
  }

  /** The four data blocks and the four index blocks that the chunk logs. */
  function Places(): set<seq<nat>> {
    {[11, 127, 126], [11, 127, 127], [12, 1, 0, 0], [12, 1, 0, 1], [11, 127], [12], [12, 1], [12, 1, 0]}
  }

  lemma EightPlaces()
    ensures |Places()| == 8
  {
    var three := {[11, 127, 126], [11, 127, 127], [12, 1, 0]};
    var four := {[12, 1, 0, 0], [12, 1, 0, 1]};
    var two := {[11, 127], [12, 1]};
    assert |three| == 3 && |four| == 2 && |two| == 2;
    assert forall p :: p in three ==> |p| == 3;
    assert forall p :: p in four ==> |p| == 4;
    assert forall p :: p in two ==> |p| == 2;
    assert |three + four| == 5;
    assert |three + four + two| == 7;
    assert Places() == three + four + two + {[12]};
  }

  lemma PlacesHit(tx: Tx)
    requires Chunked(tx)
    ensures Wf(Project3, REPO, tx.after) && forall p :: p in Places() ==> Hit(tx, p)
  {
    hide Wf, Chunked, Hit;
    NewBlocks(tx);
    FirstHit(tx);
  }

  /** Four data blocks, four index blocks, the inode's block and one of the free map. */
  lemma TenLogged(tx: Tx)
    requires Chunked(tx)
    ensures |tx.after.logged| >= 10
  {
    hide Wf, Chunked, Hit, Places, BlocksOf, TreeOk;
    PlacesHit(tx);
    NewBlocks(tx);
    InodeHit(tx);
    EightPlaces();
    HitPlace(tx, [12]);
    var t := tx.after.tree;
    var nodes := BlocksOf(t, 1, Places());
    var meta := {IBlock(REPO, 1), BBlock(REPO, t[Node(1, [12])])};
    PlacesLogged(tx);
    assert |meta| == 2;
    NodesAndMap(nodes, meta);
    SubsetSize(nodes + meta, tx.after.logged);
  }

  lemma PlacesLogged(tx: Tx)
    requires Wf(Project3, REPO, tx.after) && forall p :: p in Places() ==> Hit(tx, p)
    ensures |BlocksOf(tx.after.tree, 1, Places())| == |Places()|
    ensures forall b :: b in BlocksOf(tx.after.tree, 1, Places()) ==> b in tx.after.logged && b >= 571
  {
    hide Wf, Hit, Places, TreeOk;
    WfTree(Project3, REPO, tx.after);
    forall p | p in Places()
      ensures Node(1, p) in tx.after.tree && tx.after.tree[Node(1, p)] in tx.after.logged
      ensures tx.after.tree[Node(1, p)] >= 571
    {
      HitPlace(tx, p);
    }
    BlocksOfSize(Project3, REPO, tx.after.tree, tx.after.owner, 1, Places());
  }

  lemma NodesAndMap(nodes: set<nat>, meta: set<nat>)
    requires forall b :: b in nodes ==> b >= 571
    requires forall b :: b in meta ==> b < 571
    ensures |nodes + meta| == |nodes| + |meta|
  {
    assert nodes !! meta;
  }

  /** The nodes of the file after the first `k` transactions of the set-up lie on the way to blocks 0 to 16392. */
  lemma {:induction false} OnlyBelow(s: St, txs: seq<Tx>, s': St, zeros: seq<byte>, k: nat)
    requires s.tree == map[] && |zeros| == 16393 * 512 - 1 && k <= |txs|
    requires Chained(s, txs, s') && TxsOk(Project3, REPO, 1, 0, zeros, txs)
    ensures forall n :: n in AfterTx(s, txs, k).tree ==> Touches(Project3, n.path, 0, 16392)
  {
    hide TxOk, Carries, LogsFew, Touches, Begun;
    BegunTree(s, txs, k);
    if k > 0 {
      OnlyBelow(s, txs, s', zeros, k - 1);
      var tx := txs[k - 1];
      assert tx.before == AfterTx(s, txs, k - 1) && TxOk(Project3, REPO, 1, tx);
      assert Carries(tx, 0, zeros, k - 1);
      TxNodes(tx, zeros, k - 1);
    }
  }

  lemma BegunTree(s: St, txs: seq<Tx>, k: nat)
    requires k <= |txs|
    ensures AfterTx(s, txs, k).tree == if k == 0 then s.tree else txs[k - 1].after.tree
  {
  }

  lemma TxNodes(tx: Tx, zeros: seq<byte>, k: nat)
    requires TxOk(Project3, REPO, 1, tx) && Carries(tx, 0, zeros, k) && |zeros| == 16393 * 512 - 1
    ensures forall n :: n in tx.after.tree ==> n in tx.before.tree || Touches(Project3, n.path, 0, 16392)
  {
    hide Wf, AllSynced, FilesAre, OnlyFile, NewLogged, Noted, TreeKept, WroteTo, WroteLeaves;
    UptoNext(|zeros|, k);
    var lo, hi := tx.off / BSIZE, LastBlock(tx.off, |tx.src|);
    assert Marked(Project3, REPO, tx.before, tx.after, 1, lo, hi);
    assert hi <= 16392;
    forall n | n in tx.after.tree && n !in tx.before.tree
      ensures Touches(Project3, n.path, 0, 16392)
    {
      TouchesWider(n.path, lo, hi);
    }
  }

  lemma TouchesWider(p: seq<nat>, lo: nat, hi: nat)
    requires Touches(Project3, p, lo, hi) && hi <= 16392
    ensures Touches(Project3, p, 0, 16392)
  {
    hide Path, Cap;
  }

  /** The set-up: zeros written to an empty file of an otherwise empty file system. */
  lemma NowLaid(s: St, txs: seq<Tx>, s': St, zeros: seq<byte>)
    requires 1 < |s.inodes| && s.inodes[1].size == 0 && s.tree == map[]
    requires |zeros| == 16393 * 512 - 1 && forall k :: 0 <= k < |zeros| ==> zeros[k] == 0
    requires Chained(s, txs, s') && TxsOk(Project3, REPO, 1, 0, zeros, txs)
    requires |File(Project3, s, 1)| == 0 && Wf(Project3, REPO, s')
    requires FilesAre(Project3, s, s', 1, Splice(File(Project3, s, 1), 0, zeros))
    ensures Laid(s')
  {
    hide Wf, TxsOk, Chained, Touches, ByteAt;
    OnlyBelow(s, txs, s', zeros, |txs|);
    EndsHere(s, txs, s');
    assert File(Project3, s', 1) == zeros;
    forall q | 0 <= q < s'.inodes[1].size
      ensures ByteAt(Project3, s', 1, q) == 0
    {
      assert File(Project3, s', 1)[q] == zeros[q];
    }
  }

  lemma EndsHere(s: St, txs: seq<Tx>, s': St)
    requires Chained(s, txs, s')
    ensures s'.tree == AfterTx(s, txs, |txs|).tree
  {
  }

  /** The set-up neither runs out of disk nor is refused. */
  lemma LaysOut(s: St, s': St, zeros: seq<byte>, n: nat)
    requires 1 < |s.inodes| && s.inodes[1].size == 0 && n <= |zeros| == 16393 * 512 - 1
    requires |File(Project3, s, 1)| == 0 && FilesAre(Project3, s, s', 1, Splice(File(Project3, s, 1), 0, zeros[..n]))
    ensures s'.inodes[1].size == n
    ensures n < |zeros| ==> !Refused(s'.inodes[1].size, n, Chunk(|zeros| - n), MaxFile(Project3))
  {
    FileLength(Project3, s', 1);
  }

  lemma LaidBegun(s: St)
    requires Laid(s)
    ensures Laid(Begun(s))
  {
    BegunSame(Project3, REPO, s);
    hide Wf, Touches;
    forall q | 0 <= q < s.inodes[1].size
      ensures ByteAt(Project3, Begun(s), 1, q) == 0
    {
      assert ByteAt(Project3, s, 1, q) == 0;
    }
  }

  /** The one transaction of a filewrite of 1536 bytes. */
  lemma OneTx(s1: St, txs: seq<Tx>, s2: St, at: nat)
    requires Laid(s1) && Chained(s1, txs, s2) && TxsOk(Project3, REPO, 1, OFF, Ones(1536), txs)
    requires at == OFF + Upto(1536, |txs|)
    ensures at == OFF <==> txs == []
    ensures txs == [] ==> s2.inodes == s1.inodes
    ensures txs != [] ==> |txs| == 1 && Chunked(txs[0])
  {
    hide Laid, WriteDone, Wf, AllSynced, Noted, LogsFew;
    LaidBegun(s1);
    if |txs| >= 1 {
      assert txs[0].before == AfterTx(s1, txs, 0) == Begun(s1);
      assert txs[0].src == Ones(1536);
    }
    NoEmptyTx(Project3, REPO, 1, OFF, Ones(1536), txs);
  }

  lemma FewTxs(txs: seq<Tx>, zeros: seq<byte>)
    requires TxsOk(Project3, REPO, 1, 0, zeros, txs) && |zeros| == 16393 * 512 - 1
    ensures |txs| <= 5465
  {
    hide TxsOk;
    NoEmptyTx(Project3, REPO, 1, 0, zeros, txs);
    if |txs| > 0 {
      assert Upto(|zeros|, |txs| - 1) < |zeros|;
    }
  }

  /** A file of 16393 blocks, less a byte, is laid out on the repository's disk by one filewrite; then a filewrite
      of 1536 bytes over the end of it logs ten distinct blocks in one transaction. */
  method TenBlocksInProject3() returns (fs: Fs, r: Option<int>, ghost txs: seq<Tx>)
    ensures fresh(fs) && fs.bd == Project3 && fs.sb == REPO
    ensures r == Some(1536) && |txs| == 1 && TxOk(Project3, REPO, 1, txs[0]) && |txs[0].after.logged| >= 10
  {
    hide Wf, AllSynced, FilesAre, Free, Chained, TxsOk, WriteDone, Laid, Noted, TxOk, Splice, File;
    fs := new Fs(Project3, REPO);
    fs.Label(1, 2, 1);
    ghost var s := fs.State();
    var zeros := Zeros(16393 * 512 - 1);
    var w, end;
    ghost var first;
    w, end, first := fs.FileWrite(1, 0, zeros);
    assert w.Some?;
    LaysOut(s, fs.State(), zeros, end);
    assert zeros[..|zeros|] == zeros;
    NowLaid(s, first, fs.State(), zeros);
    FewTxs(first, zeros);
    ghost var s1 := fs.State();
    var ones := Ones(1536);
    var at;
    r, at, txs := fs.FileWrite(1, OFF, ones);
    OneTx(s1, txs, fs.State(), at);
    TenLogged(txs[0]);
  }
}
