/** Two budgets a write has to keep within: blocks of the log, and free blocks of the disk. */
module FsSpace {
  import opened Basics
  import opened Words
  import opened FsLayout
  import opened FsTree

  // ---- which index blocks four consecutive file blocks share ----

  function Up(p: seq<nat>): seq<nat> {
    if p == [] then [] else p[..|p| - 1]
  }

  /** The slots of the index block above file block `nd + r`, in project3, by r / 128. */
  function UpSlots(q: nat): seq<nat> {
    if q == 0 then [10] else if q < 128 then [11, q] else [12, q / 128, q % 128]
  }

  lemma UpOfPath(bn: nat)
    requires 10 <= bn < Cap(Project3)
    ensures Up(Path(Project3, bn)) == UpSlots((bn - 10) / 128)
  {
    var r := bn - 10;
    if r >= 128 * 128 {
      assert r / (128 * 128) == r / 128 / 128;
      assert r % (128 * 128) / 128 == r / 128 % 128;
    }
  }

  lemma UpOfDirect(bn: nat)
    requires bn < 10
    ensures Up(Path(Project3, bn)) == []
  {
  }

  lemma UpOfFirst(bd: Build, bn: nat)
    requires bd.Project1? && bn < Cap(bd)
    ensures Up(Path(bd, bn)) == [] || Up(Path(bd, bn)) == [12]
  {
  }

  /** Of four consecutive file blocks each hangs from the same index block as the first or as the last. */
  lemma UpEither(bd: Build, lo: nat, bn: nat, hi: nat)
    requires lo <= bn <= hi <= lo + 3 && hi < Cap(bd)
    ensures Up(Path(bd, bn)) in [[], Up(Path(bd, lo)), Up(Path(bd, hi))]
  {
    hide Path, Up, UpSlots;
    if bd.Project1? {
      UpOfFirst(bd, bn);
      UpOfFirst(bd, hi);
      UpOfFirst(bd, lo);
      UpOrder(bd, lo, bn, hi);
    } else if bn < 10 {
      UpOfDirect(bn);
    } else {
      UpOfPath(bn);
      UpOfPath(hi);
      if lo >= 10 {
        UpOfPath(lo);
        assert (bn - 10) / 128 == (lo - 10) / 128 || (bn - 10) / 128 == (hi - 10) / 128;
      } else {
        assert (bn - 10) / 128 == (hi - 10) / 128;
      }
    }
  }

  lemma UpOrder(bd: Build, lo: nat, bn: nat, hi: nat)
    requires bd.Project1? && lo <= bn <= hi < Cap(bd)
    ensures Up(Path(bd, bn)) == [] || Up(Path(bd, bn)) == Up(Path(bd, hi))
  {
  }

  /** Where the first and the last of four blocks hang from different index blocks, the block before the first
      hangs from the same one as the first. */
  lemma UpBefore(bd: Build, lo: nat, hi: nat)
    requires lo <= hi <= lo + 3 && hi < Cap(bd)
    requires |Up(Path(bd, lo))| >= 2 && Up(Path(bd, lo)) != Up(Path(bd, hi))
    ensures lo >= 1 && Up(Path(bd, lo - 1)) == Up(Path(bd, lo))
  {
    hide Path, Up, UpSlots;
    if bd.Project1? {
      UpOfFirst(bd, lo);
    } else if lo < 10 {
      UpOfDirect(lo);
    } else {
      UpOfPath(lo);
      UpOfPath(hi);
      assert (lo - 10) / 128 != (hi - 10) / 128;
      assert (lo - 10) % 128 >= 125;
      UpOfPath(lo - 1);
    }
  }

  lemma PrefixUp(p: seq<nat>, q: seq<nat>)
    requires p <= q && |p| < |q|
    ensures p <= Up(q)
  {
  }

  lemma UpPrefix(q: seq<nat>)
    ensures Up(q) <= q
  {
  }

  // ---- how much one write logs ----

  /** Index blocks one chunk of filewrite may log. */
  function MaxIndex(bd: Build): nat {
    if bd.Project1? then 1 else 4
  }

  function Within(bd: Build, bn: nat): (r: nat)
    ensures r < Cap(bd)
  {
    if bn < Cap(bd) then bn else Cap(bd) - 1
  }

  function Ups(bd: Build, bn: nat): seq<nat> {
    Up(Path(bd, Within(bd, bn)))
  }

  function Front(p: seq<nat>, k: nat): seq<nat> {
    if k <= |p| then p[..k] else p
  }

  /** The index blocks above the last block, and the one right above the first. */
  function IndexBlocks(bd: Build, tree: Tree, i: nat, lo: nat, hi: nat): set<nat> {
    if bd.Project1? then {Ptr(tree, Node(i, [12]))}
    else
      var p := Ups(bd, hi);
      {Ptr(tree, Node(i, Front(p, 1))), Ptr(tree, Node(i, Front(p, 2))), Ptr(tree, Node(i, Front(p, 3))),
       Ptr(tree, Node(i, Ups(bd, lo)))}
  }

  lemma IndexBlocksSize(bd: Build, tree: Tree, i: nat, lo: nat, hi: nat)
    ensures |IndexBlocks(bd, tree, i, lo, hi)| <= MaxIndex(bd)
  {
    hide Ups, Front;
  }

  lemma UpsLength(bd: Build, bn: nat)
    ensures |Ups(bd, bn)| <= 3
    ensures bd.Project1? ==> Ups(bd, bn) == [] || Ups(bd, bn) == [12]
  {
  }

  lemma AboveLast(bd: Build, tree: Tree, i: nat, lo: nat, hi: nat, p: seq<nat>)
    requires 1 <= |p| && (p <= Ups(bd, hi) || p == Ups(bd, lo))
    ensures Ptr(tree, Node(i, p)) in IndexBlocks(bd, tree, i, lo, hi)
  {
    hide Ups;
    UpsLength(bd, hi);
    UpsLength(bd, lo);
    if bd.Project1? {
      assert p == [12];
    } else if p <= Ups(bd, hi) {
      assert p == Front(Ups(bd, hi), |p|);
    }
  }

  /** In file `i` the block before the first one written has a place. */
  lemma BeforeOff(bd: Build, sb: Super, s: St, i: nat, off: nat)
    requires Wf(bd, sb, s) && i < |s.inodes| && off <= s.inodes[i].size && off >= BSIZE
    ensures HasLeaf(bd, s.tree, i, off / BSIZE - 1)
  {
    hide Wf, HasLeaf, Cap;
    var q := (off / BSIZE - 1) * BSIZE;
    SizeBacked(bd, sb, s, i, q);
    assert q / BSIZE == off / BSIZE - 1;
  }

  /** An index block a write logs is above its last block or right above its first: the others on the way to
      the first were there before, with everything the write needs below them. */
  lemma StirredIndex(bd: Build, sb: Super, s0: St, s: St, i: nat, lo: nat, hi: nat, p: seq<nat>)
    requires Wf(bd, sb, s0) && Marked(bd, sb, s0, s, i, lo, hi) && lo <= hi <= lo + 3
    requires lo >= 1 ==> HasLeaf(bd, s0.tree, i, lo - 1)
    requires Touches(bd, p, lo, hi) && 1 <= |p| && !IsLeaf(bd, Node(i, p)) && Stirred(s0.tree, s.tree, Node(i, p))
    ensures p <= Ups(bd, hi) || p == Ups(bd, lo)
  {
    hide Wf, Path, Up, Marked, Touches, Stirred, IsLeaf, Cap, HasLeaf;
    var w := Within(bd, hi);
    TouchesUp(bd, i, p, lo, hi);
    if !(p <= Ups(bd, hi)) && p != Ups(bd, lo) {
      UpBefore(bd, lo, w);
      BeforeIn(bd, sb, s0, i, lo);
      forall j | 0 <= j < NINDIRECT && Kid(Node(i, p), j) in s.tree
        ensures Kid(Node(i, p), j) in s0.tree
      {
        if Kid(Node(i, p), j) !in s0.tree {
          KidTouches(bd, sb, s0, s, i, lo, hi, p, j);
          KidUp(bd, p, j, lo, hi);
          AboveIn(bd, sb, s0, i, p + [j], Ups(bd, lo));
        }
      }
      AboveIn(bd, sb, s0, i, p, Ups(bd, lo));
      NotStirred(s0.tree, s.tree, Node(i, p));
    }
  }

  lemma NotStirred(t: Tree, t': Tree, n: Node)
    requires n in t && forall j :: 0 <= j < NINDIRECT && Kid(n, j) in t' ==> Kid(n, j) in t
    ensures !Stirred(t, t', n)
  {
  }

  lemma BeforeIn(bd: Build, sb: Super, s0: St, i: nat, lo: nat)
    requires Wf(bd, sb, s0) && 1 <= lo < Cap(bd) && HasLeaf(bd, s0.tree, i, lo - 1)
    requires |Ups(bd, lo)| >= 1 && Up(Path(bd, lo - 1)) == Up(Path(bd, lo))
    ensures Node(i, Ups(bd, lo)) in s0.tree
  {
    hide Wf, Path, Up, Cap;
    UpPrefix(Path(bd, lo - 1));
    AboveIn(bd, sb, s0, i, Ups(bd, lo), Path(bd, lo - 1));
  }

  /** A node on the way to blocks lo..hi that is not a leaf is above the first or above the last. */
  lemma TouchesUp(bd: Build, i: nat, p: seq<nat>, lo: nat, hi: nat)
    requires Touches(bd, p, lo, hi) && 1 <= |p| && !IsLeaf(bd, Node(i, p)) && lo <= hi <= lo + 3
    ensures lo < Cap(bd) && (p <= Ups(bd, hi) || p <= Ups(bd, lo))
    ensures !(p <= Ups(bd, hi)) && p != Ups(bd, lo) ==> |Ups(bd, lo)| >= 2 && Ups(bd, lo) != Ups(bd, hi)
  {
    var bn :| lo <= bn <= hi && bn < Cap(bd) && p <= Path(bd, bn);
    PathLeaf(bd, i, bn, p);
    hide Up, Cap, Path, IsLeaf;
    PrefixUp(p, Path(bd, bn));
    UpEither(bd, lo, bn, Within(bd, hi));
  }

  lemma PathLeaf(bd: Build, i: nat, bn: nat, p: seq<nat>)
    requires bn < Cap(bd) && p <= Path(bd, bn)
    ensures |p| == |Path(bd, bn)| <==> IsLeaf(bd, Node(i, p))
    ensures |p| == |Path(bd, bn)| ==> p == Path(bd, bn)
  {
  }

  lemma KidTouches(bd: Build, sb: Super, s0: St, s: St, i: nat, lo: nat, hi: nat, p: seq<nat>, j: nat)
    requires Marked(bd, sb, s0, s, i, lo, hi) && Kid(Node(i, p), j) in s.tree && Kid(Node(i, p), j) !in s0.tree
    ensures Touches(bd, p + [j], lo, hi)
  {
    hide Touches, NewLogged, Noted, TreeKept;
  }

  lemma KidUp(bd: Build, p: seq<nat>, j: nat, lo: nat, hi: nat)
    requires Touches(bd, p + [j], lo, hi) && lo <= hi <= lo + 3 && lo < Cap(bd)
    requires p <= Ups(bd, lo) && p != Ups(bd, lo) && !(p <= Ups(bd, hi)) && 1 <= |p|
    ensures p + [j] <= Ups(bd, lo)
  {
    hide Up, Cap, Path;
    var q := p + [j];
    var bn :| lo <= bn <= hi && bn < Cap(bd) && q <= Path(bd, bn);
    UpEither(bd, lo, bn, Within(bd, hi));
    assert p <= q;
    PrefixUp(p, Path(bd, bn));
    assert Up(Path(bd, bn)) == Ups(bd, lo);
    UpLength(Path(bd, bn));
    PrefixUp(q, Path(bd, bn));
  }

  lemma UpLength(p: seq<nat>)
    requires |p| >= 1
    ensures |Up(p)| == |p| - 1
  {
  }

  // ---- the count ----

  ghost function LeafBlocks(bd: Build, tree: Tree, i: nat, lo: nat, hi: nat): set<nat>
    requires lo <= hi + 1
    decreases hi + 1 - lo
  {
    if lo == hi + 1 then {} else {LeafBlock(bd, tree, i, lo)} + LeafBlocks(bd, tree, i, lo + 1, hi)
  }

  lemma {:induction false} LeafBlocksSize(bd: Build, tree: Tree, i: nat, lo: nat, hi: nat)
    requires lo <= hi + 1
    ensures |LeafBlocks(bd, tree, i, lo, hi)| <= hi + 1 - lo
    ensures forall bn :: lo <= bn <= hi ==> LeafBlock(bd, tree, i, bn) in LeafBlocks(bd, tree, i, lo, hi)
    decreases hi + 1 - lo
  {
    if lo <= hi {
      LeafBlocksSize(bd, tree, i, lo + 1, hi);
      var rest := LeafBlocks(bd, tree, i, lo + 1, hi);
      assert |{LeafBlock(bd, tree, i, lo)} + rest| <= 1 + |rest|;
    }
  }

  predicate InMap(sb: Super, x: nat) {
    sb.bmapstart <= x < Meta(sb)
  }

  /** The blocks of the free map in a list. */
  function MapBlocks(sb: Super, logged: set<nat>): set<nat> {
    set x | x in logged && InMap(sb, x)
  }

  lemma FourBlocks(off: nat, n: nat)
    requires n <= 1536
    ensures off / BSIZE <= LastBlock(off, n) <= off / BSIZE + 3
  {
  }

  /** Besides the free map, a write to blocks lo..hi logs those blocks and few index blocks. */
  lemma WroteToFew(bd: Build, sb: Super, s0: St, s: St, i: nat, lo: nat, hi: nat, x: nat)
    requires Wf(bd, sb, s0) && Wf(bd, sb, s) && Marked(bd, sb, s0, s, i, lo, hi) && lo <= hi <= lo + 3
    requires lo >= 1 ==> HasLeaf(bd, s0.tree, i, lo - 1)
    requires WroteTo(bd, sb, s0, s, i, lo, hi, x)
    ensures || (InMap(sb, x) && FromMap(sb, s0.tree, s.owner, x))
            || (!InMap(sb, x) && (x in IndexBlocks(bd, s.tree, i, lo, hi) || x in LeafBlocks(bd, s.tree, i, lo, hi)))
  {
    hide Wf, Marked, IndexBlocks, LeafBlocks, Path, Cap, HasLeaf, Touches, IsLeaf, Stirred, Ups;
    if FromMap(sb, s0.tree, s.owner, x) {
      FromMapPlace(bd, sb, s0, s, x);
    } else {
      var p := s.owner[x].path;
      OwnedPlace(bd, sb, s, i, p, x);
      if IsLeaf(bd, s.owner[x]) {
        LeafAmong(bd, s.tree, i, lo, hi, p);
      } else {
        StirredIndex(bd, sb, s0, s, i, lo, hi, p);
        AboveLast(bd, s.tree, i, lo, hi, p);
      }
    }
  }

  lemma OwnedPlace(bd: Build, sb: Super, s: St, i: nat, p: seq<nat>, x: nat)
    requires Wf(bd, sb, s) && x in s.owner && s.owner[x].inum == i && s.owner[x].path == p
    ensures Node(i, p) == s.owner[x] && Ptr(s.tree, Node(i, p)) == x && !InMap(sb, x) && 1 <= |p|
  {
  }

  lemma FromMapPlace(bd: Build, sb: Super, s0: St, s: St, x: nat)
    requires Wf(bd, sb, s) && FromMap(sb, s0.tree, s.owner, x)
    ensures InMap(sb, x)
  {
    var b :| b in s.owner && s.owner[b] !in s0.tree && x == BBlock(sb, b);
    assert s.tree[s.owner[b]] == b;
    BBlockIsMeta(sb, b);
  }

  lemma LeafAmong(bd: Build, tree: Tree, i: nat, lo: nat, hi: nat, p: seq<nat>)
    requires Touches(bd, p, lo, hi) && IsLeaf(bd, Node(i, p)) && lo <= hi
    ensures Ptr(tree, Node(i, p)) in LeafBlocks(bd, tree, i, lo, hi)
  {
    hide Path, Cap, IsLeaf;
    var bn :| lo <= bn <= hi && bn < Cap(bd) && p <= Path(bd, bn);
    PathLeaf(bd, i, bn, p);
    LeafBlocksSize(bd, tree, i, lo, hi);
    assert LeafBlock(bd, tree, i, bn) == Ptr(tree, Node(i, p));
  }

  /** What one chunk of filewrite logs, in both builds and on any disk: four data blocks, the index blocks
      above them, the inode's block, and those blocks of the free map that it took blocks from. */
  lemma FewBlocks(bd: Build, sb: Super, s0: St, s: St, i: nat, off: nat, src: seq<byte>)
    requires Wf(bd, sb, s0) && s0.logged == {} && i < |s0.inodes| && off <= s0.inodes[i].size && |src| <= 1536
    requires WriteDone(bd, sb, s0, s, i, off, src, LastBlock(off, |src|))
    ensures |s.logged| <= 4 + MaxIndex(bd) + 1 + |MapBlocks(sb, s.logged)|
    ensures forall x :: x in MapBlocks(sb, s.logged) ==> FromMap(sb, s0.tree, s.owner, x)
  {
    hide Wf, FilesAre, OnlyFile, AllSynced, WroteTo, LastBlock, LeafBlocks, Splice, File, IBlock, Ptr, Cap, Marked,
         FromMap, HasLeaf, IndexBlocks, InMap;
    FourBlocks(off, |src|);
    var lo, hi := off / BSIZE, LastBlock(off, |src|);
    if off >= BSIZE {
      BeforeOff(bd, sb, s0, i, off);
    }
    LeafBlocksSize(bd, s.tree, i, lo, hi);
    IndexBlocksSize(bd, s.tree, i, lo, hi);
    InodeNotInMap(bd, sb, s0, i);
    var leaves, above := LeafBlocks(bd, s.tree, i, lo, hi), IndexBlocks(bd, s.tree, i, lo, hi);
    var maps, all := MapBlocks(sb, s.logged), leaves + above + {IBlock(sb, i)} + MapBlocks(sb, s.logged);
    forall x | x in s.logged
      ensures x in all && (x in maps ==> FromMap(sb, s0.tree, s.owner, x))
    {
      if x != IBlock(sb, i) {
        WroteToFew(bd, sb, s0, s, i, lo, hi, x);
      }
    }
    SubsetSize(s.logged, all);
    FourSets(leaves, above, {IBlock(sb, i)}, maps);
  }

  lemma InodeNotInMap(bd: Build, sb: Super, s: St, i: nat)
    requires Wf(bd, sb, s) && i < |s.inodes|
    ensures !InMap(sb, IBlock(sb, i))
  {
    IBlockIsMeta(sb, i);
  }

  lemma FourSets(a: set<nat>, b: set<nat>, c: set<nat>, d: set<nat>)
    ensures |a + b + c + d| <= |a| + |b| + |c| + |d|
  {
    assert |a + b| <= |a| + |b|;
    assert |a + b + c| <= |a + b| + |c|;
  }

  /** On a disk with one block of free map a project1 chunk logs at most seven blocks. */
  lemma SevenBlocks(bd: Build, sb: Super, s0: St, s: St, i: nat, off: nat, src: seq<byte>)
    requires bd.Project1? && sb.size < BPB
    requires Wf(bd, sb, s0) && s0.logged == {} && i < |s0.inodes| && off <= s0.inodes[i].size && |src| <= 1536
    requires WriteDone(bd, sb, s0, s, i, off, src, LastBlock(off, |src|))
    ensures |s.logged| <= 7
  {
    hide Wf, WriteDone, LastBlock;
    FewBlocks(bd, sb, s0, s, i, off, src);
    assert MapBlocks(sb, s.logged) <= {sb.bmapstart};
    SubsetSize(MapBlocks(sb, s.logged), {sb.bmapstart});
  }

  // ---- how much of the disk one write takes ----

  predicate IsFree(sb: Super, data: seq<Block>, b: nat) {
    SuperOk(sb) && |data| == sb.size && b < sb.size && !Bit(sb, data, b)
  }

  function Free(sb: Super, data: seq<Block>): set<nat> {
    set b: nat | b < sb.size && IsFree(sb, data, b)
  }

  lemma NoneFree(sb: Super, data: seq<Block>)
    requires forall c :: 0 <= c < sb.size ==> !IsFree(sb, data, c)
    ensures Free(sb, data) == {}
  {
  }

  /** The blocks of the nodes on a path. */
  function PathBlocks(tree: Tree, i: nat, p: seq<nat>): (r: set<nat>)
    ensures |r| <= |p|
    decreases |p|
  {
    if p == [] then {}
    else
      var rest := PathBlocks(tree, i, p[..|p| - 1]);
      assert |{Ptr(tree, Node(i, p))} + rest| <= 1 + |rest|;
      {Ptr(tree, Node(i, p))} + rest
  }

  lemma {:induction false} OnPath(tree: Tree, i: nat, p: seq<nat>, q: seq<nat>)
    requires 1 <= |q| && q <= p
    ensures Ptr(tree, Node(i, q)) in PathBlocks(tree, i, p)
    decreases |p|
  {
    if q != p {
      assert q <= p[..|p| - 1];
      OnPath(tree, i, p[..|p| - 1], q);
    }
  }

  /** A walk takes no more blocks than its path is long. */
  lemma FreeAfter(bd: Build, sb: Super, s: St, s': St, i: nat, target: seq<nat>)
    requires Wf(bd, sb, s) && Extends(bd, sb, s, s', i, target)
    ensures |Free(sb, s.data)| <= |Free(sb, s'.data)| + |target|
  {
    hide Extends, Wf, IsFree;
    var f, f', onPath := Free(sb, s.data), Free(sb, s'.data), PathBlocks(s'.tree, i, target);
    forall b | b in f
      ensures b in f' + onPath
    {
      if b !in f' {
        TakenOnPath(bd, sb, s, s', i, target, b);
      }
    }
    SubsetSize(f, f' + onPath);
    assert |f' + onPath| <= |f'| + |onPath|;
  }

  lemma TakenOnPath(bd: Build, sb: Super, s: St, s': St, i: nat, target: seq<nat>, b: nat)
    requires Wf(bd, sb, s) && Extends(bd, sb, s, s', i, target)
    requires b < sb.size && IsFree(sb, s.data, b) && !IsFree(sb, s'.data, b)
    ensures b in PathBlocks(s'.tree, i, target)
  {
    ExtendsFacts(bd, sb, s, s', i, target);
    hide Extends, Grows, PathBlocks;
    assert Wf(bd, sb, s');
    TakenOwned(sb, s, s', b);
    hide Bit;
    var n := s'.owner[b];
    assert s'.tree[n] == b;
    assert n !in s.tree;
    OnPath(s'.tree, i, target, n.path);
    assert Node(i, n.path) == n;
  }

  lemma ExtendsFacts(bd: Build, sb: Super, s: St, s': St, i: nat, target: seq<nat>)
    requires Extends(bd, sb, s, s', i, target)
    ensures Wf(bd, sb, s') && TreeKept(s.tree, s'.tree) && |s'.data| == |s.data|
    ensures forall n :: n in s'.tree && n !in s.tree ==> n.inum == i && n.path <= target
  {
    hide Wf, MayLog;
  }

  lemma TakenOwned(sb: Super, s: St, s': St, b: nat)
    requires BitmapOk(sb, s.data, s.owner) && BitmapOk(sb, s'.data, s'.owner) && b < sb.size
    requires IsFree(sb, s.data, b) && !IsFree(sb, s'.data, b)
    ensures b !in s.owner && b in s'.owner
  {
  }

  /** Filling a data block or writing an inode takes nothing. */
  lemma FreeSame(sb: Super, data: seq<Block>, p: nat, w: Block)
    requires SuperOk(sb) && |data| == sb.size && p < sb.size && !InMap(sb, p)
    ensures Free(sb, data[p := w]) == Free(sb, data)
  {
    forall c | 0 <= c < sb.size
      ensures IsFree(sb, data[p := w], c) == IsFree(sb, data, c)
    {
      OutsideBitmap(sb, data, p, w, c);
    }
  }

  lemma EmptyFree(sb: Super, data: seq<Block>)
    requires BitmapOk(sb, data, map[])
    ensures forall b :: b in Free(sb, data) <==> Between(Meta(sb), b, sb.size)
  {
    hide Bit;
  }

  function Span(lo: nat, hi: nat): set<nat> {
    set b: nat | b < hi && Between(lo, b, hi)
  }

  lemma {:induction false} SpanCount(lo: nat, hi: nat)
    requires lo <= hi
    ensures |Span(lo, hi)| == hi - lo
  {
    if lo == hi {
      assert Span(lo, hi) == {};
    } else {
      SpanCount(lo, hi - 1);
      assert Span(lo, hi) == Span(lo, hi - 1) + {hi - 1};
    }
  }

  lemma MetaFits(sb: Super, data: seq<Block>)
    requires BitmapOk(sb, data, map[])
    ensures Meta(sb) <= sb.size
  {
    hide Bit;
  }

  /** An empty file system has every data block free. */
  lemma BlankFree(sb: Super, data: seq<Block>)
    requires BitmapOk(sb, data, map[])
    ensures |Free(sb, data)| == sb.size - Meta(sb)
  {
    hide BitmapOk, Free, Meta;
    EmptyFree(sb, data);
    MetaFits(sb, data);
    SpanCount(Meta(sb), sb.size);
    assert Free(sb, data) == Span(Meta(sb), sb.size);
  }

  lemma ReachedFree(bd: Build, sb: Super, s: St, s': St, i: nat, path: seq<nat>, addr: nat)
    requires Wf(bd, sb, s) && Reached(bd, sb, s, s', i, path, addr)
    ensures |Free(sb, s.data)| <= |Free(sb, s'.data)| + |path|
  {
    hide Wf, Extends;
    FreeAfter(bd, sb, s, s', i, path);
  }

  /** bmap and a copy into the block it found take at most four blocks. */
  lemma WalkFree(bd: Build, sb: Super, s: St, s': St, i: nat, bn: nat, a: nat, w: Block)
    requires Wf(bd, sb, s) && bn < Cap(bd) && Reached(bd, sb, s, s', i, Path(bd, bn), a) && a < |s'.data|
    ensures |Free(sb, s.data)| <= |Free(sb, s'.data[a := w])| + 4
  {
    ReachedFree(bd, sb, s, s', i, Path(bd, bn), a);
    hide Wf, Reached, Path, Free, Cap;
    PathLength(bd, bn);
    LeafReached(bd, sb, s, s', i, bn, a);
    LeafPlace(bd, sb, s', i, bn);
    FreeSame(sb, s'.data, a, w);
  }

  lemma PathLength(bd: Build, bn: nat)
    requires bn < Cap(bd)
    ensures |Path(bd, bn)| <= 4
  {
  }

  lemma UpdatedFree(bd: Build, sb: Super, s: St, i: nat)
    requires Wf(bd, sb, s) && i < |s.inodes|
    ensures IBlock(sb, i) < |s.data| && |s.inodes[i].addrs| == NADDRS
    ensures Free(sb, Updated(sb, s, i).data) == Free(sb, s.data)
  {
    UpdatedWf(bd, sb, s, i);
    hide Wf, PutInode, Free;
    InodeNotInMap(bd, sb, s, i);
    MetaPlace(bd, sb, s);
    WfSize(bd, sb, s);
    FreeSame(sb, s.data, IBlock(sb, i), PutInode(s.data[IBlock(sb, i)], i, s.inodes[i]));
  }

  lemma WfSize(bd: Build, sb: Super, s: St)
    requires Wf(bd, sb, s)
    ensures |s.data| == sb.size
  {
  }

  /** Blocks touched by `n` bytes at `off`. */
  function Touched(off: nat, n: nat): nat {
    LastBlock(off, n) - off / BSIZE + 1
  }

  lemma FourTouched(off: nat, n: nat)
    requires n <= 1536
    ensures Touched(off, n) <= 4
  {
  }

  /** Turns of writei's loop that have ended when `tot` of `n` bytes are copied. */
  function Turns(off: nat, tot: nat, n: nat): nat
    requires tot <= n
  {
    if tot == n then Touched(off, n) else (off + tot) / BSIZE - off / BSIZE
  }

  lemma TurnsNext(off: nat, tot: nat, n: nat, m: nat)
    requires tot < n && 0 < m <= n - tot
    requires m == n - tot || (off + tot) % BSIZE + m == BSIZE
    ensures Turns(off, tot, n) + 1 <= Turns(off, tot + m, n) <= Touched(off, n)
  {
  }

  // ---- what a file at bmap's limit takes ----

  /** The nodes of a project3 file that reaches bmap's last blocks, numbered: 16513 index blocks, then data. */
  function NodePath(k: nat): seq<nat>
    requires k < 16513 + Cap(Project3)
  {
    if k == 0 then [10]
    else if k == 1 then [11]
    else if k < 129 then [11, k - 1]
    else if k == 129 then [12]
    else if k < 257 then [12, k - 129]
    else if k < 16513 then [12, 1 + (k - 257) / 128, (k - 257) % 128]
    else Path(Project3, k - 16513)
  }

  /** A file block below node `k`. */
  function Below(k: nat): (bn: nat)
    requires k < 16513 + Cap(Project3) - 2
    ensures bn < Cap(Project3) - 2
  {
    if k == 0 then 10
    else if k == 1 then 10 + 128
    else if k < 129 then 10 + (k - 1) * 128
    else if k == 129 then 10 + 16384
    else if k < 257 then 10 + (k - 129) * 16384
    else if k < 16513 then 10 + (128 + (k - 257)) * 128
    else k - 16513
  }

  lemma NodeAbove(k: nat)
    requires k < 16513 + Cap(Project3) - 2
    ensures |NodePath(k)| >= 1 && NodePath(k) <= Path(Project3, Below(k))
  {
    if 257 <= k < 16513 {
      var m := k - 257;
      var r := (128 + m) * 128;
      assert r / 16384 == (128 + m) / 128 == 1 + m / 128;
      assert r % 16384 / 128 == r / 128 % 128 == (128 + m) % 128 == m % 128;
      assert Path(Project3, 10 + r) == [12, r / 16384, r % 16384 / 128, r % 128];
    }
  }

  /** The number a node's slots give back. */
  function Number(p: seq<nat>): int {
    if |p| == 1 then (if p[0] == 10 then 0 else if p[0] == 11 then 1 else if p[0] == 12 then 129 else 16513 + p[0])
    else if |p| == 2 then
      (if p[0] == 10 then 16513 + 10 + p[1] else if p[0] == 11 then 1 + p[1] else 129 + p[1])
    else if |p| == 3 then
      (if p[0] == 11 then 16513 + 10 + 128 * p[1] + p[2] else 129 + 128 * p[1] + p[2])
    else if |p| == 4 then 16513 + 10 + 16384 * p[1] + 128 * p[2] + p[3]
    else 0
  }

  lemma NumberOf(k: nat)
    requires k < 16513 + Cap(Project3)
    ensures Number(NodePath(k)) == k
  {
    if k >= 16513 {
      NumberOfLeaf(k - 16513);
    }
  }

  lemma NumberOfLeaf(bn: nat)
    requires bn < Cap(Project3)
    ensures Number(Path(Project3, bn)) == 16513 + bn
  {
    if bn >= 10 + 16384 {
      Digits(bn - 10);
    }
  }

  predicate Between(lo: nat, b: nat, hi: nat) {
    lo <= b < hi
  }

  ghost function FirstBlocks(tree: Tree, i: nat, k: nat): set<nat>
    requires k <= 16513 + Cap(Project3) - 2
  {
    if k == 0 then {} else FirstBlocks(tree, i, k - 1) + {Ptr(tree, Node(i, NodePath(k - 1)))}
  }

  lemma {:induction false} FirstBlocksCount(sb: Super, tree: Tree, owner: Owner, i: nat, k: nat)
    requires k <= 16513 + Cap(Project3) - 2 && TreeOk(Project3, sb, tree, owner)
    requires forall j :: 0 <= j < k ==> Node(i, NodePath(j)) in tree
    ensures |FirstBlocks(tree, i, k)| == k
    ensures forall b :: b in FirstBlocks(tree, i, k) ==>
              Between(Meta(sb), b, sb.size) && b in owner && Number(owner[b].path) < k
  {
    hide NodePath, Number, NodeOk, Meta, TreeOk;
    if k > 0 {
      FirstBlocksCount(sb, tree, owner, i, k - 1);
      NumberOf(k - 1);
      NodeBlock(sb, tree, owner, Node(i, NodePath(k - 1)));
    }
  }

  lemma NodeBlock(sb: Super, tree: Tree, owner: Owner, n: Node)
    requires TreeOk(Project3, sb, tree, owner) && n in tree
    ensures Between(Meta(sb), tree[n], sb.size) && tree[n] in owner && owner[tree[n]] == n
  {
  }

  lemma {:induction false} SpanSize(s: set<nat>, lo: nat, hi: nat)
    requires lo <= hi && forall b :: b in s ==> Between(lo, b, hi)
    ensures |s| <= hi - lo
    decreases hi - lo
  {
    if lo == hi {
      assert s == {};
    } else {
      SpanSize(s - {lo}, lo + 1, hi);
    }
  }

  /** A file that a chunk of filewrite could take past bmap's limit fills 2113673 blocks: 2097160 of data and
      16513 of index. */
  lemma DiskForGap(sb: Super, s: St, i: nat)
    requires Wf(Project3, sb, s) && i < |s.inodes| && s.inodes[i].size > (Cap(Project3) - 3) * BSIZE
    ensures sb.size - Meta(sb) >= 2113673
  {
    hide Wf, NodePath, Meta, TreeOk, Below, FirstBlocks;
    var n := 16513 + Cap(Project3) - 2;
    forall j | 0 <= j < n
      ensures Node(i, NodePath(j)) in s.tree
    {
      NodePresent(sb, s, i, j);
    }
    WfTree(Project3, sb, s);
    MetaPlace(Project3, sb, s);
    FirstBlocksCount(sb, s.tree, s.owner, i, n);
    SpanSize(FirstBlocks(s.tree, i, n), Meta(sb), sb.size);
  }

  lemma NodePresent(sb: Super, s: St, i: nat, j: nat)
    requires Wf(Project3, sb, s) && i < |s.inodes| && s.inodes[i].size > (Cap(Project3) - 3) * BSIZE
    requires j < 16513 + Cap(Project3) - 2
    ensures Node(i, NodePath(j)) in s.tree
  {
    hide Wf, NodePath, Path, Below, HasLeaf;
    var bn := Below(j);
    SizeBacked(Project3, sb, s, i, bn * BSIZE);
    assert bn * BSIZE / BSIZE == bn;
    LeafIn(s.tree, i, bn);
    NodeAbove(j);
    AboveIn(Project3, sb, s, i, NodePath(j), Path(Project3, bn));
  }

  lemma LeafIn(tree: Tree, i: nat, bn: nat)
    requires HasLeaf(Project3, tree, i, bn)
    ensures bn < Cap(Project3) && Node(i, Path(Project3, bn)) in tree
  {
  }

  /** Bytes that writei hands to bmap although bmap cannot reach them. */
  predicate PastReach(bd: Build, off: nat, n: int) {
    off + n > Cap(bd) * BSIZE
  }

  /** Where a chunk of filewrite is accepted and lies past bmap's reach, the build is project3 and the disk is
      larger than the one the repository makes. */
  lemma GapNeedsDisk(bd: Build, sb: Super, s: St, i: nat, off: nat, n: nat)
    requires Wf(bd, sb, s) && i < |s.inodes| && n <= 1536
    requires !Refused(s.inodes[i].size, off, n, MaxFile(bd))
    ensures PastReach(bd, off, n) ==> bd.Project3? && sb.size - Meta(sb) >= 2113673
  {
    hide Wf, Meta;
    if PastReach(bd, off, n) {
      assert bd.Project3?;
      DiskForGap(sb, s, i);
    }
  }

  lemma TouchesSome(off: nat, n: nat)
    ensures Touched(off, n) >= 1
  {
  }

  /** How much of the log a transaction of filewrite takes. */
  ghost predicate LogsFew(bd: Build, sb: Super, i: nat, tx: Tx)
    requires i < |tx.before.inodes|
  {
    && |tx.after.logged| == Need(bd, tx.before, i, tx.off, |tx.src|) + |MapBlocks(sb, tx.after.logged)|
    && (forall x :: x in MapBlocks(sb, tx.after.logged) <==> FromMap(sb, tx.before.tree, tx.after.owner, x))
    && 1 <= |tx.after.logged| <= 17
    && |tx.after.logged| <= 4 + MaxIndex(bd) + 1 + |MapBlocks(sb, tx.after.logged)|
    && (bd.Project1? && sb.size < BPB ==> |tx.after.logged| <= 7)
  }

  lemma TxMade(bd: Build, sb: Super, i: nat, tx: Tx)
    requires Wf(bd, sb, tx.before) && AllSynced(sb, tx.before) && tx.before.logged == {}
    requires i < |tx.before.inodes| && tx.off <= tx.before.inodes[i].size && 0 < |tx.src| <= 1536
    requires WriteDone(bd, sb, tx.before, tx.after, i, tx.off, tx.src, LastBlock(tx.off, |tx.src|))
    ensures TxOk(bd, sb, i, tx) && LogsFew(bd, sb, i, tx)
  {
    hide Wf, WriteDone, AllSynced, LastBlock, Noted, MapBlocks, FromMap, Touched, Gaining;
    FewBlocks(bd, sb, tx.before, tx.after, i, tx.off, tx.src);
    FitsLog(bd, sb, tx.before, tx.after, i, tx.off, tx.src);
    LogCount(bd, sb, tx.before, tx.after, i, tx.off, tx.src);
    TouchesSome(tx.off, |tx.src|);
    DoneNoted(bd, sb, tx.before, tx.after, i, tx.off, tx.src, LastBlock(tx.off, |tx.src|));
    if bd.Project1? && sb.size < BPB {
      SevenBlocks(bd, sb, tx.before, tx.after, i, tx.off, tx.src);
    }
  }

  /** The transactions of a call that writes `src` at `off`: each is a write of its share and keeps within the
      log. */
  ghost predicate TxsOk(bd: Build, sb: Super, i: nat, off: nat, src: seq<byte>, txs: seq<Tx>) {
    forall k :: 0 <= k < |txs| ==>
      TxOk(bd, sb, i, txs[k]) && Carries(txs[k], off, src, k) && LogsFew(bd, sb, i, txs[k])
  }

  lemma TxsNone(bd: Build, sb: Super, i: nat, off: nat, src: seq<byte>)
    ensures TxsOk(bd, sb, i, off, src, [])
  {
  }

  lemma TxsNext(bd: Build, sb: Super, i: nat, off: nat, src: seq<byte>, txs: seq<Tx>, tx: Tx)
    requires TxsOk(bd, sb, i, off, src, txs) && TxOk(bd, sb, i, tx) && LogsFew(bd, sb, i, tx)
    requires Carries(tx, off, src, |txs|)
    ensures TxsOk(bd, sb, i, off, src, txs + [tx])
  {
    hide TxOk, LogsFew, Carries;
  }

  /** There are no more transactions than the bytes need. */
  lemma NoEmptyTx(bd: Build, sb: Super, i: nat, off: nat, src: seq<byte>, txs: seq<Tx>)
    requires TxsOk(bd, sb, i, off, src, txs)
    ensures forall k :: 0 <= k < |txs| ==> Upto(|src|, k) < |src|
  {
    hide Wf, WriteDone, AllSynced, Noted, LogsFew;
    forall k | 0 <= k < |txs|
      ensures Upto(|src|, k) < |src|
    {
      assert TxOk(bd, sb, i, txs[k]) && Carries(txs[k], off, src, k);
    }
  }

  // ---- exactly what one write logs ----

  /** On the way to block `bn`, slot `k` of the path leads to a node that tree `t` does not have. */
  predicate Gains(bd: Build, t: Tree, i: nat, bn: nat, k: nat)
    requires bn < Cap(bd)
  {
    k < |Path(bd, bn)| && Node(i, Path(bd, bn)[..k + 1]) !in t
  }

  /** The index blocks above blocks lo..hi that are missing in `t`, or lack an entry that these blocks need. */
  ghost function Gaining(bd: Build, t: Tree, i: nat, lo: nat, hi: nat): set<seq<nat>> {
    set bn: nat, k: nat | lo <= bn <= hi && bn < Cap(bd) && 1 <= k < 4 && Gains(bd, t, i, bn, k) :: Path(bd, bn)[..k]
  }

  /** The blocks at a set of places of file `i`. */
  ghost function BlocksOf(tree: Tree, i: nat, places: set<seq<nat>>): set<nat> {
    set p | p in places :: Ptr(tree, Node(i, p))
  }

  lemma {:induction false} BlocksOfSize(bd: Build, sb: Super, tree: Tree, owner: Owner, i: nat, places: set<seq<nat>>)
    requires TreeOk(bd, sb, tree, owner) && forall p :: p in places ==> Node(i, p) in tree
    ensures |BlocksOf(tree, i, places)| == |places|
    decreases places
  {
    hide NodeOk, Meta;
    if places == {} {
      assert BlocksOf(tree, i, places) == {};
    } else {
      var p :| p in places;
      var rest := BlocksOf(tree, i, places - {p});
      BlocksOfSize(bd, sb, tree, owner, i, places - {p});
      assert BlocksOf(tree, i, places) == rest + {Ptr(tree, Node(i, p))};
      forall q | q in places - {p}
        ensures Ptr(tree, Node(i, q)) != Ptr(tree, Node(i, p))
      {
        if Ptr(tree, Node(i, q)) == Ptr(tree, Node(i, p)) {
          NodesApart(bd, sb, tree, owner, Node(i, q), Node(i, p));
        }
      }
    }
  }

  lemma {:induction false} LeafBlocksExact(bd: Build, sb: Super, s: St, i: nat, lo: nat, hi: nat)
    requires Wf(bd, sb, s) && lo <= hi + 1 && forall bn :: lo <= bn <= hi ==> HasLeaf(bd, s.tree, i, bn)
    ensures |LeafBlocks(bd, s.tree, i, lo, hi)| == hi + 1 - lo
    ensures forall x :: x in LeafBlocks(bd, s.tree, i, lo, hi) ==> LeafOf(bd, s, i, lo, hi, x)
    decreases hi + 1 - lo
  {
    hide Wf, Path, Cap, HasLeaf, LeafBlock;
    if lo <= hi {
      LeafBlocksExact(bd, sb, s, i, lo + 1, hi);
      LeafOfHere(bd, sb, s, i, lo, hi);
      var rest := LeafBlocks(bd, s.tree, i, lo + 1, hi);
      forall x | x in rest
        ensures LeafOf(bd, s, i, lo, hi, x) && x != LeafBlock(bd, s.tree, i, lo)
      {
        LeafOfMore(bd, sb, s, i, lo, hi, x);
      }
    }
  }

  /** Block `x` is one of blocks lo..hi of the file. */
  ghost predicate LeafOf(bd: Build, s: St, i: nat, lo: nat, hi: nat, x: nat) {
    exists bn :: lo <= bn <= hi && HasLeaf(bd, s.tree, i, bn) && x == LeafBlock(bd, s.tree, i, bn)
  }

  lemma LeafOfHere(bd: Build, sb: Super, s: St, i: nat, lo: nat, hi: nat)
    requires lo <= hi && HasLeaf(bd, s.tree, i, lo)
    ensures LeafOf(bd, s, i, lo, hi, LeafBlock(bd, s.tree, i, lo))
  {
    hide HasLeaf, LeafBlock;
  }

  lemma LeafOfMore(bd: Build, sb: Super, s: St, i: nat, lo: nat, hi: nat, x: nat)
    requires Wf(bd, sb, s) && HasLeaf(bd, s.tree, i, lo) && LeafOf(bd, s, i, lo + 1, hi, x)
    ensures LeafOf(bd, s, i, lo, hi, x) && x != LeafBlock(bd, s.tree, i, lo)
  {
    hide Wf, Path, Cap;
    var bn :| lo + 1 <= bn <= hi && HasLeaf(bd, s.tree, i, bn) && x == LeafBlock(bd, s.tree, i, bn);
    if x == LeafBlock(bd, s.tree, i, lo) {
      LeafBlocksApart(bd, sb, s, i, lo, i, bn);
    }
  }

  /** An index block is touched by a write exactly if it is among those that gain. */
  lemma StirredGains(bd: Build, sb: Super, s0: St, s: St, i: nat, lo: nat, hi: nat, p: seq<nat>)
    requires Wf(bd, sb, s0) && Marked(bd, sb, s0, s, i, lo, hi)
    requires Touches(bd, p, lo, hi) && 1 <= |p| && !IsLeaf(bd, Node(i, p)) && Stirred(s0.tree, s.tree, Node(i, p))
    ensures p in Gaining(bd, s0.tree, i, lo, hi)
  {
    hide Wf, Path, Cap, Marked, IsLeaf, Stirred;
    if Node(i, p) !in s0.tree {
      var bn :| lo <= bn <= hi && bn < Cap(bd) && p <= Path(bd, bn);
      PathLeaf(bd, i, bn, p);
      GainsHere(bd, sb, s0, i, lo, hi, bn, p);
    } else {
      var j := StirredKid(s0.tree, s.tree, Node(i, p));
      KidTouches(bd, sb, s0, s, i, lo, hi, p, j);
      var bn :| lo <= bn <= hi && bn < Cap(bd) && p + [j] <= Path(bd, bn);
      assert p <= p + [j] && Path(bd, bn)[..|p| + 1] == p + [j];
      GainsHere(bd, sb, s0, i, lo, hi, bn, p);
    }
  }

  lemma StirredKid(t: Tree, t': Tree, n: Node) returns (j: nat)
    requires Stirred(t, t', n) && n in t
    ensures j < NINDIRECT && Kid(n, j) in t' && Kid(n, j) !in t
  {
    j :| 0 <= j < NINDIRECT && Kid(n, j) in t' && Kid(n, j) !in t;
  }

  lemma GainsHere(bd: Build, sb: Super, s0: St, i: nat, lo: nat, hi: nat, bn: nat, p: seq<nat>)
    requires Wf(bd, sb, s0) && lo <= bn <= hi && bn < Cap(bd) && p <= Path(bd, bn) && 1 <= |p| < |Path(bd, bn)|
    requires Node(i, p) !in s0.tree || Node(i, Path(bd, bn)[..|p| + 1]) !in s0.tree
    ensures p in Gaining(bd, s0.tree, i, lo, hi)
  {
    hide Wf, Path, Cap;
    PathLength(bd, bn);
    var k := |p|;
    assert Path(bd, bn)[..k] == p;
    if Node(i, Path(bd, bn)[..k + 1]) in s0.tree {
      AboveIn(bd, sb, s0, i, p, Path(bd, bn)[..k + 1]);
    }
    assert Gains(bd, s0.tree, i, bn, k);
  }

  /** Each of those is there after the write and has been logged. */
  lemma GainsLogged(bd: Build, sb: Super, s0: St, s: St, i: nat, lo: nat, hi: nat, p: seq<nat>)
    requires Wf(bd, sb, s) && Marked(bd, sb, s0, s, i, lo, hi) && p in Gaining(bd, s0.tree, i, lo, hi)
    requires forall bn :: lo <= bn <= hi ==> HasLeaf(bd, s.tree, i, bn)
    ensures Node(i, p) in s.tree && s.tree[Node(i, p)] in s.logged && !IsLeaf(bd, Node(i, p))
  {
    hide Wf, Path, Cap, NewLogged, Noted, TreeKept, Touches, IsLeaf;
    var bn: nat, k: nat :| lo <= bn <= hi && bn < Cap(bd) && 1 <= k < 4 && Gains(bd, s0.tree, i, bn, k)
                           && p == Path(bd, bn)[..k];
    var q := Path(bd, bn)[..k + 1];
    assert HasLeaf(bd, s.tree, i, bn);
    AboveIn(bd, sb, s, i, q, Path(bd, bn));
    AboveIn(bd, sb, s, i, p, Path(bd, bn));
    PathLeaf(bd, i, bn, p);
    assert q[..|q| - 1] == p;
    ParentLogged(sb, s0.tree, s.tree, s.logged, Node(i, q));
  }

  lemma ParentLogged(sb: Super, t: Tree, t': Tree, l: set<nat>, n: Node)
    requires NewLogged(sb, t, t', l) && n in t' && n !in t && |n.path| >= 2
    ensures Ptr(t', Parent(n)) in l
  {
  }

  /** What a write takes of the log besides the free map, from the state before it: the blocks it touches, the
      index blocks that gain, and the inode's block if the file grows. */
  ghost function Need(bd: Build, s0: St, i: nat, off: nat, n: nat): nat
    requires i < |s0.inodes|
  {
    Touched(off, n) + |Gaining(bd, s0.tree, i, off / BSIZE, LastBlock(off, n))|
    + if off + n > s0.inodes[i].size then 1 else 0
  }

  lemma WroteSpan(bd: Build, sb: Super, s0: St, s: St, i: nat, off: nat, src: seq<byte>)
    requires i < |s0.inodes| && off <= s0.inodes[i].size && |src| > 0
    requires WriteDone(bd, sb, s0, s, i, off, src, LastBlock(off, |src|))
    ensures Wf(bd, sb, s) && i < |s.inodes|
    ensures s.inodes[i].size == if off + |src| > s0.inodes[i].size then off + |src| else s0.inodes[i].size
    ensures forall bn :: off / BSIZE <= bn <= LastBlock(off, |src|) ==>
              HasLeaf(bd, s.tree, i, bn) && LeafBlock(bd, s.tree, i, bn) in s.logged
  {
    hide Wf, AllSynced, DoneLog, HasLeaf, LeafBlock, OnlyFile;
    FileLength(bd, s0, i);
    FileLength(bd, s, i);
    assert s.inodes[i].size == |Splice(File(bd, s0, i), off, src)|;
    hide Splice, File;
    forall bn | off / BSIZE <= bn <= LastBlock(off, |src|)
      ensures HasLeaf(bd, s.tree, i, bn) && LeafBlock(bd, s.tree, i, bn) in s.logged
    {
      var q := if bn * BSIZE < off then off else bn * BSIZE;
      assert q / BSIZE == bn && off <= q < off + |src|;
      SizeBacked(bd, sb, s, i, q);
      assert ByteLogged(bd, s, i, q);
    }
  }

  /** The list after a write into an empty log, exactly. */
  lemma LogIs(bd: Build, sb: Super, s0: St, s: St, i: nat, off: nat, src: seq<byte>)
    requires Wf(bd, sb, s0) && s0.logged == {} && i < |s0.inodes| && off <= s0.inodes[i].size && |src| > 0
    requires WriteDone(bd, sb, s0, s, i, off, src, LastBlock(off, |src|))
    ensures var lo, hi := off / BSIZE, LastBlock(off, |src|);
            s.logged == LeafBlocks(bd, s.tree, i, lo, hi) + BlocksOf(s.tree, i, Gaining(bd, s0.tree, i, lo, hi))
                        + (if off + |src| > s0.inodes[i].size then {IBlock(sb, i)} else {}) + MapBlocks(sb, s.logged)
  {
    hide Wf, AllSynced, FilesAre, OnlyFile, WroteLeaves, LastBlock, LeafBlocks, BlocksOf, Gaining, IBlock, Marked,
         WroteTo, InMap, HasLeaf, LeafBlock;
    var lo, hi := off / BSIZE, LastBlock(off, |src|);
    WroteSpan(bd, sb, s0, s, i, off, src);
    var leaves, above := LeafBlocks(bd, s.tree, i, lo, hi), BlocksOf(s.tree, i, Gaining(bd, s0.tree, i, lo, hi));
    LeafBlocksExact(bd, sb, s, i, lo, hi);
    forall x | x in s.logged && !InMap(sb, x) && x != IBlock(sb, i)
      ensures x in leaves || x in above
    {
      LoggedIs(bd, sb, s0, s, i, lo, hi, x);
    }
    InodeUnlessGrown(bd, sb, s0, s, i, lo, hi);
    forall x | x in above
      ensures x in s.logged
    {
      AboveLogged(bd, sb, s0, s, i, lo, hi, x);
    }
    forall x | x in leaves
      ensures x in s.logged
    {
      LeafLogged(bd, s, i, lo, hi, x);
    }
  }

  lemma LeafLogged(bd: Build, s: St, i: nat, lo: nat, hi: nat, x: nat)
    requires LeafOf(bd, s, i, lo, hi, x)
    requires forall bn :: lo <= bn <= hi ==> HasLeaf(bd, s.tree, i, bn) && LeafBlock(bd, s.tree, i, bn) in s.logged
    ensures x in s.logged
  {
    hide HasLeaf, LeafBlock;
  }

  lemma LoggedIs(bd: Build, sb: Super, s0: St, s: St, i: nat, lo: nat, hi: nat, x: nat)
    requires Wf(bd, sb, s0) && Wf(bd, sb, s) && DoneLog(bd, sb, s0, s, i, lo, hi) && s0.logged == {} && lo <= hi
    requires x in s.logged && !InMap(sb, x) && x != IBlock(sb, i)
    ensures x in LeafBlocks(bd, s.tree, i, lo, hi) || x in BlocksOf(s.tree, i, Gaining(bd, s0.tree, i, lo, hi))
  {
    hide Wf, Marked, LeafBlocks, Gaining, Touches, IsLeaf, Stirred, InMap;
    if FromMap(sb, s0.tree, s.owner, x) {
      FromMapPlace(bd, sb, s0, s, x);
    } else {
      var p := s.owner[x].path;
      OwnedPlace(bd, sb, s, i, p, x);
      if IsLeaf(bd, s.owner[x]) {
        LeafAmong(bd, s.tree, i, lo, hi, p);
      } else {
        StirredGains(bd, sb, s0, s, i, lo, hi, p);
      }
    }
  }

  lemma AboveLogged(bd: Build, sb: Super, s0: St, s: St, i: nat, lo: nat, hi: nat, x: nat)
    requires Wf(bd, sb, s) && DoneLog(bd, sb, s0, s, i, lo, hi)
    requires forall bn :: lo <= bn <= hi ==> HasLeaf(bd, s.tree, i, bn)
    requires x in BlocksOf(s.tree, i, Gaining(bd, s0.tree, i, lo, hi))
    ensures x in s.logged
  {
    hide Wf, Marked, Gaining, WroteTo;
    var p :| p in Gaining(bd, s0.tree, i, lo, hi) && x == Ptr(s.tree, Node(i, p));
    GainsLogged(bd, sb, s0, s, i, lo, hi, p);
  }

  /** The inode's block is logged exactly if the file grew. */
  lemma InodeUnlessGrown(bd: Build, sb: Super, s0: St, s: St, i: nat, lo: nat, hi: nat)
    requires Wf(bd, sb, s) && DoneLog(bd, sb, s0, s, i, lo, hi) && s0.logged == {} && i < |s.inodes|
    ensures IBlock(sb, i) in s.logged <==> Resizes(s0, s, i)
    ensures !InMap(sb, IBlock(sb, i))
  {
    hide Wf, Marked, FromMap, Resizes, IBlock, InMap;
    InodeNotInMap(bd, sb, s, i);
    if IBlock(sb, i) in s.logged && !Resizes(s0, s, i) {
      if FromMap(sb, s0.tree, s.owner, IBlock(sb, i)) {
        FromMapPlace(bd, sb, s0, s, IBlock(sb, i));
      } else {
        InodeNotOwned(bd, sb, s, i);
      }
    }
  }

  lemma OwnerHigh(bd: Build, sb: Super, s: St, x: nat)
    requires Wf(bd, sb, s) && x in s.owner
    ensures Meta(sb) <= x < sb.size
  {
    assert s.tree[s.owner[x]] == x;
  }

  lemma InodeNotOwned(bd: Build, sb: Super, s: St, i: nat)
    requires Wf(bd, sb, s) && i < |s.inodes|
    ensures IBlock(sb, i) !in s.owner
  {
    IBlockIsMeta(sb, i);
    MetaPlace(bd, sb, s);
    hide Wf, IBlock;
    if IBlock(sb, i) in s.owner {
      OwnerHigh(bd, sb, s, IBlock(sb, i));
    }
  }

  /** How many blocks a write logs, on any disk and for any length: what it needs by the state before it, and a
      block of free map for each that it took a block from. It keeps to nine exactly if that sum does. */
  lemma LogCount(bd: Build, sb: Super, s0: St, s: St, i: nat, off: nat, src: seq<byte>)
    requires Wf(bd, sb, s0) && s0.logged == {} && i < |s0.inodes| && off <= s0.inodes[i].size && |src| > 0
    requires WriteDone(bd, sb, s0, s, i, off, src, LastBlock(off, |src|))
    ensures |s.logged| == Need(bd, s0, i, off, |src|) + |MapBlocks(sb, s.logged)|
    ensures forall x :: x in MapBlocks(sb, s.logged) <==> FromMap(sb, s0.tree, s.owner, x)
  {
    hide Wf, WriteDone, LastBlock, LeafBlocks, BlocksOf, Gaining, IBlock, Marked, InMap, HasLeaf, LeafBlock, IsLeaf,
         FromMap;
    var lo, hi := off / BSIZE, LastBlock(off, |src|);
    WroteSpan(bd, sb, s0, s, i, off, src);
    LogIs(bd, sb, s0, s, i, off, src);
    LeafBlocksExact(bd, sb, s, i, lo, hi);
    GainingThere(bd, sb, s0, s, i, off, src);
    MapsTaken(bd, sb, s0, s, i, off, src);
    var leaves, above := LeafBlocks(bd, s.tree, i, lo, hi), BlocksOf(s.tree, i, Gaining(bd, s0.tree, i, lo, hi));
    var inode := if off + |src| > s0.inodes[i].size then {IBlock(sb, i)} else {};
    forall x | x in leaves
      ensures x in s.owner && IsLeaf(bd, s.owner[x])
    {
      LeafOwned(bd, sb, s, i, lo, hi, x);
    }
    WroteMarked(bd, sb, s0, s, i, off, src, hi);
    forall x | x in above
      ensures x in s.owner && !IsLeaf(bd, s.owner[x])
    {
      AboveOwned(bd, sb, s0, s, i, lo, hi, x);
    }
    InodeNotOwned(bd, sb, s, i);
    InodeNotInMap(bd, sb, s, i);
    OwnedNotMap(bd, sb, s);
    Disjoint(leaves, above, inode, MapBlocks(sb, s.logged));
  }

  lemma Disjoint(a: set<nat>, b: set<nat>, c: set<nat>, d: set<nat>)
    requires a !! b !! c !! d
    ensures |a + b + c + d| == |a| + |b| + |c| + |d|
  {
    assert |a + b| == |a| + |b|;
    assert |a + b + c| == |a + b| + |c|;
  }

  lemma OwnedNotMap(bd: Build, sb: Super, s: St)
    requires Wf(bd, sb, s)
    ensures forall x :: x in s.owner ==> !InMap(sb, x)
  {
    forall x | x in s.owner
      ensures !InMap(sb, x)
    {
      assert s.tree[s.owner[x]] == x;
    }
  }

  lemma WroteMarked(bd: Build, sb: Super, s0: St, s: St, i: nat, off: nat, src: seq<byte>, last: nat)
    requires i < |s0.inodes| && off <= s0.inodes[i].size && WriteDone(bd, sb, s0, s, i, off, src, last)
    ensures Wf(bd, sb, s) && Marked(bd, sb, s0, s, i, off / BSIZE, last)
  {
    hide Wf, AllSynced, OnlyFile, FilesAre, Marked, WroteTo, WroteLeaves;
  }

  lemma GainingThere(bd: Build, sb: Super, s0: St, s: St, i: nat, off: nat, src: seq<byte>)
    requires Wf(bd, sb, s0) && i < |s0.inodes| && off <= s0.inodes[i].size && |src| > 0
    requires WriteDone(bd, sb, s0, s, i, off, src, LastBlock(off, |src|))
    ensures var g := Gaining(bd, s0.tree, i, off / BSIZE, LastBlock(off, |src|));
            |BlocksOf(s.tree, i, g)| == |g|
  {
    hide Wf, WriteDone, LastBlock, BlocksOf, Gaining, HasLeaf, LeafBlock, Marked, TreeOk;
    WroteSpan(bd, sb, s0, s, i, off, src);
    WroteMarked(bd, sb, s0, s, i, off, src, LastBlock(off, |src|));
    var g := Gaining(bd, s0.tree, i, off / BSIZE, LastBlock(off, |src|));
    forall p | p in g
      ensures Node(i, p) in s.tree
    {
      GainsLogged(bd, sb, s0, s, i, off / BSIZE, LastBlock(off, |src|), p);
    }
    WfTree(bd, sb, s);
    BlocksOfSize(bd, sb, s.tree, s.owner, i, g);
  }

  lemma LeafOwned(bd: Build, sb: Super, s: St, i: nat, lo: nat, hi: nat, x: nat)
    requires Wf(bd, sb, s) && LeafOf(bd, s, i, lo, hi, x)
    ensures x in s.owner && IsLeaf(bd, s.owner[x])
  {
    hide Wf, Path, Cap;
    var bn :| lo <= bn <= hi && HasLeaf(bd, s.tree, i, bn) && x == LeafBlock(bd, s.tree, i, bn);
    LeafPlace(bd, sb, s, i, bn);
    LeafOk(bd, sb.ninodes, i, bn);
  }

  lemma AboveOwned(bd: Build, sb: Super, s0: St, s: St, i: nat, lo: nat, hi: nat, x: nat)
    requires Wf(bd, sb, s) && Marked(bd, sb, s0, s, i, lo, hi)
    requires forall bn :: lo <= bn <= hi ==> HasLeaf(bd, s.tree, i, bn)
    requires x in BlocksOf(s.tree, i, Gaining(bd, s0.tree, i, lo, hi))
    ensures x in s.owner && !IsLeaf(bd, s.owner[x])
  {
    hide Wf, Marked, Gaining, IsLeaf, HasLeaf;
    var p :| p in Gaining(bd, s0.tree, i, lo, hi) && x == Ptr(s.tree, Node(i, p));
    GainsLogged(bd, sb, s0, s, i, lo, hi, p);
    NodeOwned(bd, sb, s, Node(i, p));
  }

  lemma NodeOwned(bd: Build, sb: Super, s: St, n: Node)
    requires Wf(bd, sb, s) && n in s.tree
    ensures s.tree[n] in s.owner && s.owner[s.tree[n]] == n
  {
  }

  /** The blocks of free map in the list are those that a block was taken from. */
  lemma MapsTaken(bd: Build, sb: Super, s0: St, s: St, i: nat, off: nat, src: seq<byte>)
    requires Wf(bd, sb, s0) && s0.logged == {} && i < |s0.inodes| && off <= s0.inodes[i].size && |src| > 0
    requires WriteDone(bd, sb, s0, s, i, off, src, LastBlock(off, |src|))
    ensures forall x :: x in MapBlocks(sb, s.logged) <==> FromMap(sb, s0.tree, s.owner, x)
  {
    hide Wf, AllSynced, OnlyFile, FilesAre, Marked, WroteLeaves, IBlock, InMap, FromMap, LastBlock, Touches, Stirred,
         IsLeaf;
    InodeNotInMap(bd, sb, s0, i);
    OwnedNotMap(bd, sb, s);
    WroteMarked(bd, sb, s0, s, i, off, src, LastBlock(off, |src|));
    forall x: nat
      ensures x in MapBlocks(sb, s.logged) <==> FromMap(sb, s0.tree, s.owner, x)
    {
      if FromMap(sb, s0.tree, s.owner, x) {
        FromMapPlace(bd, sb, s0, s, x);
        FromMapLogged(bd, sb, s0, s, i, off / BSIZE, LastBlock(off, |src|), x);
      }
    }
  }

  lemma FromMapLogged(bd: Build, sb: Super, s0: St, s: St, i: nat, lo: nat, hi: nat, x: nat)
    requires Wf(bd, sb, s) && Marked(bd, sb, s0, s, i, lo, hi) && FromMap(sb, s0.tree, s.owner, x)
    ensures x in s.logged
  {
    hide Touches, BBlock, Noted, TreeKept, BitmapOk, RootsOk, IndexOk, Covered;
    var b :| b in s.owner && s.owner[b] !in s0.tree && x == BBlock(sb, b);
    assert s.tree[s.owner[b]] == b;
  }

  // ---- and how much at most ----

  ghost function MapsOf(sb: Super, s: set<nat>): set<nat> {
    set b | b in s :: BBlock(sb, b)
  }

  lemma {:induction false} MapsOfSize(sb: Super, s: set<nat>)
    ensures |MapsOf(sb, s)| <= |s|
    decreases s
  {
    hide BBlock;
    if s == {} {
      assert MapsOf(sb, s) == {};
    } else {
      var b :| b in s;
      MapsOfSize(sb, s - {b});
      assert MapsOf(sb, s) == MapsOf(sb, s - {b}) + {BBlock(sb, b)};
    }
  }

  /** A chunk takes a block of free map for each new data or index block at most, so it logs no more than 11
      blocks in project1 and 17 in project3, whatever the disk. */
  lemma FitsLog(bd: Build, sb: Super, s0: St, s: St, i: nat, off: nat, src: seq<byte>)
    requires Wf(bd, sb, s0) && s0.logged == {} && i < |s0.inodes| && off <= s0.inodes[i].size && |src| <= 1536
    requires WriteDone(bd, sb, s0, s, i, off, src, LastBlock(off, |src|))
    ensures |s.logged| <= 2 * (4 + MaxIndex(bd)) + 1 <= 17
  {
    hide Wf, WriteDone, LastBlock, LeafBlocks, IndexBlocks, MapsOf, FromMap, HasLeaf, MapBlocks;
    FewBlocks(bd, sb, s0, s, i, off, src);
    FourBlocks(off, |src|);
    if off >= BSIZE {
      BeforeOff(bd, sb, s0, i, off);
    }
    var lo, hi := off / BSIZE, LastBlock(off, |src|);
    WroteMarked(bd, sb, s0, s, i, off, src, hi);
    LeafBlocksSize(bd, s.tree, i, lo, hi);
    IndexBlocksSize(bd, s.tree, i, lo, hi);
    var nodes := LeafBlocks(bd, s.tree, i, lo, hi) + IndexBlocks(bd, s.tree, i, lo, hi);
    forall x | x in MapBlocks(sb, s.logged)
      ensures x in MapsOf(sb, nodes)
    {
      TakenAmong(bd, sb, s0, s, i, lo, hi, x);
    }
    MapsOfSize(sb, nodes);
    SubsetSize(MapBlocks(sb, s.logged), MapsOf(sb, nodes));
    assert |nodes| <= |LeafBlocks(bd, s.tree, i, lo, hi)| + |IndexBlocks(bd, s.tree, i, lo, hi)|;
  }

  lemma TakenAmong(bd: Build, sb: Super, s0: St, s: St, i: nat, lo: nat, hi: nat, x: nat)
    requires Wf(bd, sb, s0) && Wf(bd, sb, s) && Marked(bd, sb, s0, s, i, lo, hi) && lo <= hi <= lo + 3
    requires lo >= 1 ==> HasLeaf(bd, s0.tree, i, lo - 1)
    requires FromMap(sb, s0.tree, s.owner, x)
    ensures x in MapsOf(sb, LeafBlocks(bd, s.tree, i, lo, hi) + IndexBlocks(bd, s.tree, i, lo, hi))
  {
    hide Wf, LeafBlocks, IndexBlocks, MapsOf, HasLeaf, Touches, IsLeaf, BBlock, NewLogged, Noted, TreeKept, Ups;
    var b :| b in s.owner && s.owner[b] !in s0.tree && x == BBlock(sb, b);
    var n := s.owner[b];
    OwnerIn(bd, sb, s, b);
    var p := n.path;
    assert n == Node(i, p);
    if IsLeaf(bd, n) {
      LeafAmong(bd, s.tree, i, lo, hi, p);
    } else {
      NewStirred(s0.tree, s.tree, n);
      StirredIndex(bd, sb, s0, s, i, lo, hi, p);
      AboveLast(bd, s.tree, i, lo, hi, p);
    }
    InMapsOf(sb, LeafBlocks(bd, s.tree, i, lo, hi) + IndexBlocks(bd, s.tree, i, lo, hi), b);
  }

  lemma InMapsOf(sb: Super, s: set<nat>, b: nat)
    requires b in s
    ensures BBlock(sb, b) in MapsOf(sb, s)
  {
  }

  lemma OwnerIn(bd: Build, sb: Super, s: St, b: nat)
    requires Wf(bd, sb, s) && b in s.owner
    ensures s.owner[b] in s.tree && Ptr(s.tree, s.owner[b]) == b && |s.owner[b].path| >= 1
  {
  }

  lemma NewStirred(t: Tree, t': Tree, n: Node)
    requires n !in t
    ensures Stirred(t, t', n)
  {
  }
}
