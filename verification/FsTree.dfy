/** What it means for the blocks, the in-core inodes and the free map to agree.

    `tree` says which disk block holds which node of which file; `owner` is its inverse, so a block has one
    place in one file. Both are ghosts: everything the code can see is in `data` and `inodes`. */
module FsTree {
  import opened Basics
  import opened Words
  import opened FsLayout

  type Tree = map<Node, nat>
  type Owner = map<nat, Node>

  function Ptr(tree: Tree, n: Node): nat {
    if n in tree then tree[n] else 0
  }

  function At(data: seq<Block>, b: nat): Block {
    if b < |data| then data[b] else ZeroBlock()
  }

  ghost predicate TreeOk(bd: Build, sb: Super, tree: Tree, owner: Owner) {
    && (forall n :: n in tree ==>
          && NodeOk(bd, sb.ninodes, n)
          && Meta(sb) <= tree[n] < sb.size
          && tree[n] in owner && owner[tree[n]] == n)
    && (forall b :: b in owner ==> owner[b] in tree && tree[owner[b]] == b)
    && (forall n :: n in tree && |n.path| >= 2 ==> Parent(n) in tree)
  }

  ghost predicate RootsOk(sb: Super, inodes: seq<Inode>, tree: Tree) {
    && |inodes| == sb.ninodes
    && forall i :: 0 <= i < |inodes| ==> RootsOf(inodes[i].addrs, i, tree)
  }

  ghost predicate RootsOf(addrs: seq<nat>, i: nat, tree: Tree) {
    |addrs| == NADDRS && forall k :: 0 <= k < NADDRS ==> addrs[k] == Ptr(tree, Node(i, [k]))
  }

  ghost predicate IndexOk(bd: Build, data: seq<Block>, tree: Tree) {
    forall n, j :: n in tree && IsIndex(bd, n) && 0 <= j < NINDIRECT ==>
      Word(At(data, tree[n]), j) == Ptr(tree, Kid(n, j))
  }

  /** The set bits of the free map are the metadata and the blocks that are in some file. */
  ghost predicate BitmapOk(sb: Super, data: seq<Block>, owner: Owner) {
    && SuperOk(sb) && |data| == sb.size
    && forall b :: 0 <= b < sb.size ==> (Bit(sb, data, b) <==> b < Meta(sb) || b in owner)
  }

  /** No block below a file's size is missing. */
  ghost predicate Covered(bd: Build, inodes: seq<Inode>, tree: Tree) {
    forall i :: 0 <= i < |inodes| ==> inodes[i].size <= Cap(bd) * BSIZE && CoveredTo(bd, tree, i, inodes[i].size)
  }

  ghost predicate CoveredTo(bd: Build, tree: Tree, i: nat, size: nat)
    requires size <= Cap(bd) * BSIZE
  {
    forall bn :: 0 <= bn && bn * BSIZE < size ==> Leaf(bd, i, bn) in tree
  }

  /** The file system's state, ghosts included. */
  datatype St = St(data: seq<Block>, inodes: seq<Inode>, tree: Tree, owner: Owner, logged: set<nat>)

  ghost predicate Wf(bd: Build, sb: Super, s: St) {
    && BitmapOk(sb, s.data, s.owner)
    && TreeOk(bd, sb, s.tree, s.owner)
    && RootsOk(sb, s.inodes, s.tree)
    && IndexOk(bd, s.data, s.tree)
    && Covered(bd, s.inodes, s.tree)
  }

  // ---- which blocks a transaction has passed to log_write ----

  /** Whatever differs between `d` and `d'` is in the list, and nothing has left the list. */
  ghost predicate Noted(d: seq<Block>, l: set<nat>, d': seq<Block>, l': set<nat>) {
    && |d'| == |d| && l <= l'
    && forall c :: 0 <= c < |d| && c !in l' ==> d'[c] == d[c]
  }

  lemma NotedTrans(d0: seq<Block>, l0: set<nat>, d1: seq<Block>, l1: set<nat>, d2: seq<Block>, l2: set<nat>)
    requires Noted(d0, l0, d1, l1) && Noted(d1, l1, d2, l2)
    ensures Noted(d0, l0, d2, l2)
  {
  }

  lemma NotedSame(d: seq<Block>, l: set<nat>)
    ensures Noted(d, l, d, l)
  {
  }

  lemma NotedStep(d: seq<Block>, l: set<nat>, p: nat, w: Block)
    requires p < |d|
    ensures Noted(d, l, d[p := w], l + {p})
  {
  }

  ghost predicate TreeKept(t: Tree, t': Tree) {
    forall n :: n in t ==> n in t' && t'[n] == t[n]
  }

  /** A new node has been zeroed, marked in the free map, and linked from the index block above it. */
  ghost predicate NewLogged(sb: Super, t: Tree, t': Tree, l': set<nat>) {
    forall n :: n in t' && n !in t ==>
      t'[n] in l' && BBlock(sb, t'[n]) in l' && (|n.path| >= 2 ==> Ptr(t', Parent(n)) in l')
  }

  /** Block `x` of the free map holds the bit of a block taken since the tree was `t`. */
  ghost predicate FromMap(sb: Super, t: Tree, o': Owner, x: nat) {
    exists b :: b in o' && o'[b] !in t && x == BBlock(sb, b)
  }

  /** Node `n` is new, or something new hangs from it. */
  ghost predicate Stirred(t: Tree, t': Tree, n: Node) {
    n !in t || exists j :: 0 <= j < NINDIRECT && Kid(n, j) in t' && Kid(n, j) !in t
  }

  lemma StirredKept(t0: Tree, t1: Tree, t2: Tree, n: Node)
    requires TreeKept(t0, t1) && TreeKept(t1, t2)
    ensures Stirred(t0, t1, n) ==> Stirred(t0, t2, n)
    ensures Stirred(t1, t2, n) ==> Stirred(t0, t2, n)
  {
  }

  lemma NewLoggedTrans(bd: Build, sb: Super, s0: St, s1: St, s2: St)
    requires Wf(bd, sb, s1) && TreeKept(s0.tree, s1.tree) && TreeKept(s1.tree, s2.tree) && s1.logged <= s2.logged
    requires NewLogged(sb, s0.tree, s1.tree, s1.logged) && NewLogged(sb, s1.tree, s2.tree, s2.logged)
    ensures NewLogged(sb, s0.tree, s2.tree, s2.logged)
  {
    hide BitmapOk, RootsOk, IndexOk, Covered, NodeOk, BBlock;
  }

  /** Everything a file keeps when some file's tree grows: places, data blocks and metadata below the map. */
  ghost predicate Grows(bd: Build, sb: Super, data: seq<Block>, tree: Tree, data': seq<Block>, tree': Tree) {
    && |data'| == |data|
    && (forall n :: n in tree ==> n in tree' && tree'[n] == tree[n])
    && (forall n :: n in tree && IsLeaf(bd, n) ==> At(data', tree[n]) == At(data, tree[n]))
    && (forall b :: 0 <= b < sb.bmapstart ==> At(data', b) == At(data, b))
  }

  lemma GrowsTrans(bd: Build, sb: Super, d0: seq<Block>, t0: Tree, d1: seq<Block>, t1: Tree, d2: seq<Block>, t2: Tree)
    requires Grows(bd, sb, d0, t0, d1, t1) && Grows(bd, sb, d1, t1, d2, t2)
    ensures Grows(bd, sb, d0, t0, d2, t2)
  {
  }

  /** The state right after balloc returned `b`: its bit is set, it is zero, nothing else changed. */
  ghost predicate Allocated(sb: Super, data: seq<Block>, owner: Owner, b: nat, d1: seq<Block>) {
    && SuperOk(sb) && |data| == |d1| == sb.size
    && Meta(sb) <= b < sb.size && b !in owner
    && d1[b] == ZeroBlock()
    && (forall c :: 0 <= c < sb.size && c != b && !(sb.bmapstart <= c < Meta(sb)) ==> d1[c] == data[c])
    && (forall c :: 0 <= c < sb.size && c != b && c != BBlock(sb, b) ==> d1[c] == data[c])
    && (forall c :: 0 <= c < sb.size ==> (Bit(sb, d1, c) <==> c == b || Bit(sb, data, c)))
  }

  lemma AllocatedSize(sb: Super, data: seq<Block>, owner: Owner, b: nat, d1: seq<Block>)
    requires Allocated(sb, data, owner, b, d1)
    ensures |d1| == |data|
  {
  }

  lemma GrowTree(bd: Build, sb: Super, tree: Tree, owner: Owner, n: Node, b: nat)
    requires TreeOk(bd, sb, tree, owner)
    requires NodeOk(bd, sb.ninodes, n) && n !in tree && (|n.path| >= 2 ==> Parent(n) in tree)
    requires Meta(sb) <= b < sb.size && b !in owner
    ensures TreeOk(bd, sb, tree[n := b], owner[b := n])
  {
    hide NodeOk, Meta, Parent;
  }

  lemma KidOfParent(m: Node, n: Node, j: nat)
    requires |n.path| >= 1
    ensures Kid(m, j) == n <==>
              && m.inum == n.inum && m.path == n.path[..|n.path| - 1] && j == n.path[|n.path| - 1]
  {
    if m.inum == n.inum && m.path == n.path[..|n.path| - 1] && j == n.path[|n.path| - 1] {
      assert Kid(m, j).path == n.path;
    }
    if Kid(m, j) == n {
      assert n.path[..|n.path| - 1] == m.path;
    }
  }

  function PutPtr(data: seq<Block>, p: nat, j: nat, b: nat): (d: seq<Block>)
    requires p < |data| && j < NINDIRECT
    ensures |d| == |data|
  {
    data[p := SetWord(data[p], j, b)]
  }

  /** Store the new block's number in its parent's index block, if the parent is one. */
  function Linked(d1: seq<Block>, tree: Tree, n: Node, b: nat): (d2: seq<Block>)
    requires |n.path| >= 2 ==> Parent(n) in tree && tree[Parent(n)] < |d1| && n.path[|n.path| - 1] < NINDIRECT
    ensures |d2| == |d1|
  {
    if |n.path| >= 2 then PutPtr(d1, tree[Parent(n)], n.path[|n.path| - 1], b) else d1
  }

  lemma GrowIndex(bd: Build, sb: Super, data: seq<Block>, tree: Tree, owner: Owner, n: Node, b: nat, d1: seq<Block>)
    requires TreeOk(bd, sb, tree, owner) && IndexOk(bd, data, tree)
    requires NodeOk(bd, sb.ninodes, n) && n !in tree && (|n.path| >= 2 ==> Parent(n) in tree)
    requires Allocated(sb, data, owner, b, d1)
    ensures IndexOk(bd, Linked(d1, tree, n, b), tree[n := b])
  {
    hide Bit, Word, SetWord;
    var d2 := Linked(d1, tree, n, b);
    var t2 := tree[n := b];
    forall m, j | m in t2 && IsIndex(bd, m) && 0 <= j < NINDIRECT
      ensures Word(At(d2, t2[m]), j) == Ptr(t2, Kid(m, j))
    {
      KidOfParent(m, n, j);
      if m == n {
        WordOfZeros(ZeroBlock(), j);
        assert Kid(n, j) !in tree by {
          assert Parent(Kid(n, j)).path == n.path;
        }
      } else {
        assert Word(At(data, tree[m]), j) == Ptr(tree, Kid(m, j));
        if |n.path| >= 2 && m == Parent(n) {
          WordOfSetWord(d1[tree[m]], n.path[|n.path| - 1], b, j);
        } else {
          assert At(d2, tree[m]) == At(data, tree[m]);
          assert Kid(m, j) != n;
        }
      }
    }
  }

  lemma OutsideBitmap(sb: Super, data: seq<Block>, p: nat, w: Block, c: nat)
    requires SuperOk(sb) && |data| == sb.size && p < sb.size && !(sb.bmapstart <= p < Meta(sb)) && c < sb.size
    ensures Bit(sb, data[p := w], c) <==> Bit(sb, data, c)
  {
    BBlockIsMeta(sb, c);
  }

  lemma KeepBitmap(sb: Super, data: seq<Block>, owner: Owner, p: nat, w: Block)
    requires BitmapOk(sb, data, owner)
    requires p < sb.size && !(sb.bmapstart <= p < Meta(sb))
    ensures BitmapOk(sb, data[p := w], owner)
  {
    var d := data[p := w];
    forall c | 0 <= c < sb.size
      ensures Bit(sb, d, c) <==> c < Meta(sb) || c in owner
    {
      OutsideBitmap(sb, data, p, w, c);
      assert Bit(sb, data, c) <==> c < Meta(sb) || c in owner;
    }
    assert |d| == sb.size && SuperOk(sb);
  }

  lemma GrowBitmap(sb: Super, data: seq<Block>, owner: Owner, n: Node, b: nat, d1: seq<Block>)
    requires BitmapOk(sb, data, owner) && Allocated(sb, data, owner, b, d1)
    ensures BitmapOk(sb, d1, owner[b := n])
  {
  }

  lemma GrowRoots(sb: Super, inodes: seq<Inode>, tree: Tree, n: Node, b: nat)
    requires RootsOk(sb, inodes, tree) && n.inum < sb.ninodes && |n.path| >= 1 && n.path[0] < NADDRS
    ensures RootsOk(sb, RootLinked(inodes, n, b), tree[n := b])
  {
    if |n.path| == 1 {
      assert n.path == [n.path[0]];
    }
  }

  function RootLinked(inodes: seq<Inode>, n: Node, b: nat): (r: seq<Inode>)
    requires n.inum < |inodes| && |n.path| >= 1 && n.path[0] < |inodes[n.inum].addrs|
    ensures |r| == |inodes|
  {
    if |n.path| == 1 then
      inodes[n.inum := inodes[n.inum].(addrs := inodes[n.inum].addrs[n.path[0] := b])]
    else inodes
  }

  ghost function Grown(s: St, n: Node, b: nat, d1: seq<Block>): St
    requires n.inum < |s.inodes| && |n.path| >= 1 && n.path[0] < |s.inodes[n.inum].addrs|
    requires |n.path| >= 2 ==> Parent(n) in s.tree && s.tree[Parent(n)] < |d1| && n.path[|n.path| - 1] < NINDIRECT
  {
    St(Linked(d1, s.tree, n, b), RootLinked(s.inodes, n, b), s.tree[n := b], s.owner[b := n],
       s.logged + {b} + if |n.path| >= 2 then {s.tree[Parent(n)]} else {})
  }

  /** Where a node may be hung: it fits the layout, is missing, and has its parent. */
  ghost predicate Missing(bd: Build, sb: Super, s: St, n: Node) {
    NodeOk(bd, sb.ninodes, n) && n !in s.tree && (|n.path| >= 2 ==> Parent(n) in s.tree)
  }

  /** Hanging a fresh block into a file's tree keeps everything in agreement. */
  lemma Grow(bd: Build, sb: Super, s: St, n: Node, b: nat, d1: seq<Block>)
    requires Wf(bd, sb, s) && Missing(bd, sb, s, n)
    requires Allocated(sb, s.data, s.owner, b, d1)
    ensures n.inum < |s.inodes| && |s.inodes[n.inum].addrs| == NADDRS
    ensures |n.path| >= 2 ==> s.tree[Parent(n)] < |d1|
    ensures Wf(bd, sb, Grown(s, n, b, d1))
    ensures Grows(bd, sb, s.data, s.tree, Linked(d1, s.tree, n, b), s.tree[n := b])
    ensures Linked(d1, s.tree, n, b)[b] == ZeroBlock()
  {
    hide BitmapOk, TreeOk, IndexOk, Covered, Grows, RootsOk, Allocated;
    MissingFacts(bd, sb, s, n, b, d1);
    GrowTree(bd, sb, s.tree, s.owner, n, b);
    GrowIndex(bd, sb, s.data, s.tree, s.owner, n, b, d1);
    GrowBitmap(sb, s.data, s.owner, n, b, d1);
    GrowRoots(sb, s.inodes, s.tree, n, b);
    GrowGrows(bd, sb, s.data, s.tree, s.owner, n, b, d1);
    GrowCovered(bd, s.inodes, s.tree, n, b);
    if |n.path| >= 2 {
      var p := s.tree[Parent(n)];
      KeepBitmap(sb, d1, s.owner[b := n], p, SetWord(d1[p], n.path[|n.path| - 1], b));
    }
  }

  lemma MissingFacts(bd: Build, sb: Super, s: St, n: Node, b: nat, d1: seq<Block>)
    requires Wf(bd, sb, s) && Missing(bd, sb, s, n)
    requires Allocated(sb, s.data, s.owner, b, d1)
    ensures SuperOk(sb) && |d1| == sb.size && Meta(sb) <= b < sb.size && b !in s.owner
    ensures |s.inodes| == sb.ninodes && n.inum < |s.inodes| && |s.inodes[n.inum].addrs| == NADDRS
    ensures |n.path| >= 1 && n.path[0] < NADDRS
    ensures |n.path| >= 2 ==>
              && Meta(sb) <= s.tree[Parent(n)] < sb.size && s.tree[Parent(n)] != b
              && n.path[|n.path| - 1] < NINDIRECT
              && s.tree[Parent(n)] in s.owner && s.owner[s.tree[Parent(n)]] == Parent(n)
  {
  }

  lemma GrowCovered(bd: Build, inodes: seq<Inode>, tree: Tree, n: Node, b: nat)
    requires Covered(bd, inodes, tree)
    requires n.inum < |inodes| && |n.path| >= 1 && n.path[0] < |inodes[n.inum].addrs|
    ensures Covered(bd, RootLinked(inodes, n, b), tree[n := b])
  {
  }

  lemma GrowGrows(bd: Build, sb: Super, data: seq<Block>, tree: Tree, owner: Owner, n: Node, b: nat, d1: seq<Block>)
    requires TreeOk(bd, sb, tree, owner)
    requires NodeOk(bd, sb.ninodes, n) && n !in tree && (|n.path| >= 2 ==> Parent(n) in tree)
    requires Allocated(sb, data, owner, b, d1)
    ensures Grows(bd, sb, data, tree, Linked(d1, tree, n, b), tree[n := b])
    ensures Linked(d1, tree, n, b)[b] == ZeroBlock()
  {
    hide Bit, BBlock, SetWord;
    if |n.path| >= 2 {
      assert !IsLeaf(bd, Parent(n));
      assert owner[tree[Parent(n)]] == Parent(n);
    }
  }

  // ---- one step and several steps of growth ----

  /** What bmap may do while it follows `target` in file `i`: only nodes on that path are new, only new blocks,
      index blocks they hang from and their blocks of the free map are logged, every block that changes is
      logged, and no other inode changes. */
  ghost predicate Extends(bd: Build, sb: Super, s: St, s': St, i: nat, target: seq<nat>) {
    && Wf(bd, sb, s')
    && Grows(bd, sb, s.data, s.tree, s'.data, s'.tree)
    && (forall n :: n in s'.tree && n !in s.tree ==> n.inum == i && n.path <= target)
    && |s'.inodes| == |s.inodes|
    && (forall k :: 0 <= k < |s.inodes| && k != i ==> s'.inodes[k] == s.inodes[k])
    && (i < |s.inodes| ==> s'.inodes[i] == s.inodes[i].(addrs := s'.inodes[i].addrs))
    && Noted(s.data, s.logged, s'.data, s'.logged)
    && NewLogged(sb, s.tree, s'.tree, s'.logged)
    && (forall x :: x in s'.logged && x !in s.logged ==> MayLog(sb, s, s', i, target, x))
  }

  ghost predicate MayLog(sb: Super, s: St, s': St, i: nat, target: seq<nat>, x: nat) {
    || FromMap(sb, s.tree, s'.owner, x)
    || (x in s'.owner && s'.owner[x].inum == i && s'.owner[x].path <= target && Stirred(s.tree, s'.tree, s'.owner[x]))
  }

  /** The walk from `s` to `s'` has reached the node at `path` of file `i`, in block `addr`: it was there
      all along and nothing changed, or it is new and zeroed. */
  ghost predicate Reached(bd: Build, sb: Super, s: St, s': St, i: nat, path: seq<nat>, addr: nat) {
    && Extends(bd, sb, s, s', i, path)
    && Node(i, path) in s'.tree && s'.tree[Node(i, path)] == addr
    && (Node(i, path) in s.tree ==> s' == s)
    && (Node(i, path) !in s.tree ==> At(s'.data, addr) == ZeroBlock())
  }

  lemma ReachedFacts(bd: Build, sb: Super, s: St, s': St, i: nat, path: seq<nat>, addr: nat)
    requires Reached(bd, sb, s, s', i, path, addr)
    ensures Wf(bd, sb, s') && Node(i, path) in s'.tree && s'.tree[Node(i, path)] == addr
  {
  }

  /** Following a path a step further. */
  lemma ReachedTrans(bd: Build, sb: Super, s0: St, s1: St, s2: St, i: nat, p: seq<nat>, a1: nat, j: nat, a2: nat)
    requires Wf(bd, sb, s0) && |p| >= 1
    requires Reached(bd, sb, s0, s1, i, p, a1) && Reached(bd, sb, s1, s2, i, p + [j], a2)
    ensures Reached(bd, sb, s0, s2, i, p + [j], a2)
  {
    hide Wf, Grows, MayLog, Noted, NewLogged;
    GrowsTrans(bd, sb, s0.data, s0.tree, s1.data, s1.tree, s2.data, s2.tree);
    GrowsTree(bd, sb, s0, s1);
    GrowsTree(bd, sb, s1, s2);
    NotedTrans(s0.data, s0.logged, s1.data, s1.logged, s2.data, s2.logged);
    NotedList(s1.data, s1.logged, s2.data, s2.logged);
    NewLoggedTrans(bd, sb, s0, s1, s2);
    forall x | x in s2.logged && x !in s0.logged
      ensures MayLog(sb, s0, s2, i, p + [j], x)
    {
      if x in s1.logged {
        MayLogKept(bd, sb, s0, s1, s2, i, p, j, x);
      } else {
        MayLogSince(bd, sb, s0, s1, s2, i, p + [j], x);
      }
    }
    var m := Node(i, p + [j]);
    if m in s0.tree {
      ParentIn(bd, sb, s0, i, p, j);
    }
  }

  lemma ParentIn(bd: Build, sb: Super, s: St, i: nat, p: seq<nat>, j: nat)
    requires Wf(bd, sb, s) && |p| >= 1 && Node(i, p + [j]) in s.tree
    ensures Node(i, p) in s.tree
  {
    assert Parent(Node(i, p + [j])) == Node(i, p);
  }

  lemma GrowsTree(bd: Build, sb: Super, s: St, s': St)
    requires Grows(bd, sb, s.data, s.tree, s'.data, s'.tree)
    ensures TreeKept(s.tree, s'.tree)
  {
  }

  lemma NotedList(d: seq<Block>, l: set<nat>, d': seq<Block>, l': set<nat>)
    requires Noted(d, l, d', l')
    ensures |d'| == |d| && l <= l'
  {
  }

  lemma OwnerKept(bd: Build, sb: Super, s: St, s1: St, x: nat)
    requires Wf(bd, sb, s) && Wf(bd, sb, s1) && TreeKept(s.tree, s1.tree) && x in s.owner
    ensures x in s1.owner && s1.owner[x] == s.owner[x]
  {
    hide BitmapOk, RootsOk, IndexOk, Covered, NodeOk;
    assert s1.owner[s1.tree[s.owner[x]]] == s.owner[x];
  }

  lemma FromMapKept(bd: Build, sb: Super, t: Tree, s1: St, s2: St, x: nat)
    requires Wf(bd, sb, s1) && Wf(bd, sb, s2) && TreeKept(s1.tree, s2.tree) && FromMap(sb, t, s1.owner, x)
    ensures FromMap(sb, t, s2.owner, x)
  {
    hide Wf, TreeKept, BBlock;
    var b :| b in s1.owner && s1.owner[b] !in t && x == BBlock(sb, b);
    OwnerKept(bd, sb, s1, s2, b);
  }

  lemma MayLogKept(bd: Build, sb: Super, s0: St, s1: St, s2: St, i: nat, p: seq<nat>, j: nat, x: nat)
    requires Wf(bd, sb, s1) && Wf(bd, sb, s2) && TreeKept(s0.tree, s1.tree) && TreeKept(s1.tree, s2.tree)
    requires MayLog(sb, s0, s1, i, p, x)
    ensures MayLog(sb, s0, s2, i, p + [j], x)
  {
    hide Wf, TreeKept, FromMap, Stirred;
    if FromMap(sb, s0.tree, s1.owner, x) {
      FromMapKept(bd, sb, s0.tree, s1, s2, x);
    } else {
      OwnerKept(bd, sb, s1, s2, x);
      StirredKept(s0.tree, s1.tree, s2.tree, s1.owner[x]);
    }
  }

  /** What was allowed since a later state was allowed since an earlier one. */
  lemma MayLogSince(bd: Build, sb: Super, s0: St, s1: St, s2: St, i: nat, q: seq<nat>, x: nat)
    requires TreeKept(s0.tree, s1.tree) && TreeKept(s1.tree, s2.tree)
    requires MayLog(sb, s1, s2, i, q, x)
    ensures MayLog(sb, s0, s2, i, q, x)
  {
    hide Stirred, BBlock;
    if x in s2.owner {
      StirredKept(s0.tree, s1.tree, s2.tree, s2.owner[x]);
    }
  }

  /** If a node is present, so are the nodes above it. */
  lemma {:induction false} AboveIn(bd: Build, sb: Super, s: St, i: nat, p: seq<nat>, q: seq<nat>)
    requires Wf(bd, sb, s) && Node(i, q) in s.tree && 1 <= |p| && p <= q
    ensures Node(i, p) in s.tree
    decreases |q|
  {
    hide BitmapOk, RootsOk, IndexOk, Covered, NodeOk;
    if p != q {
      var n := Node(i, q);
      assert Parent(n) == Node(i, q[..|q| - 1]);
      AboveIn(bd, sb, s, i, p, q[..|q| - 1]);
    }
  }

  lemma ReachedKeeps(bd: Build, sb: Super, s: St, s': St, i: nat, path: seq<nat>, addr: nat, n: Node)
    requires Reached(bd, sb, s, s', i, path, addr) && n in s.tree
    ensures n in s'.tree
  {
  }

  lemma ReachedHere(bd: Build, sb: Super, s: St, i: nat, path: seq<nat>)
    requires Wf(bd, sb, s) && Node(i, path) in s.tree
    ensures Reached(bd, sb, s, s, i, path, s.tree[Node(i, path)])
  {
  }

  /** The first block of a bitmap block's share. */
  predicate Aligned(b: nat) {
    b % BPB == 0
  }

  lemma AlignedNext(b: nat)
    ensures Aligned(0) && (Aligned(b) ==> Aligned(b + BPB))
  {
  }

  /** Where the scan of balloc looks for the bit of block b + bi. */
  lemma BitPlace(sb: Super, data: seq<Block>, b: nat, bi: nat)
    requires SuperOk(sb) && |data| == sb.size && Aligned(b) && bi < BPB && b + bi < sb.size
    ensures BBlock(sb, b) < |data|
    ensures Bit(sb, data, b + bi) <==> BitIn(data[BBlock(sb, b)], bi)
  {
    BBlockIsMeta(sb, b + bi);
    assert (b + bi) % BPB == bi && (b + bi) / BPB == b / BPB;
  }

  lemma BitmapFacts(sb: Super, data: seq<Block>, owner: Owner)
    requires BitmapOk(sb, data, owner)
    ensures SuperOk(sb) && |data| == sb.size
    ensures forall b :: 0 <= b < sb.size && !Bit(sb, data, b) ==> b >= Meta(sb) && b !in owner
  {
  }

  /** What a slot of an inode's addrs says: 0 if the node is missing, else its block. */
  lemma RootSlot(bd: Build, sb: Super, s: St, i: nat, k: nat)
    requires Wf(bd, sb, s) && i < |s.inodes| && k < NADDRS
    ensures BitmapOk(sb, s.data, s.owner) && |s.inodes| == sb.ninodes && |s.inodes[i].addrs| == NADDRS
    ensures s.inodes[i].addrs[k] != 0 <==> Node(i, [k]) in s.tree
    ensures Node(i, [k]) in s.tree ==> s.inodes[i].addrs[k] == s.tree[Node(i, [k])]
    ensures Node(i, [k]) !in s.tree ==> Missing(bd, sb, s, Node(i, [k]))
  {
  }

  /** What a slot of an index block says. */
  lemma IndexSlot(bd: Build, sb: Super, s: St, n: Node, j: nat)
    requires Wf(bd, sb, s) && n in s.tree && IsIndex(bd, n) && j < NINDIRECT
    ensures BitmapOk(sb, s.data, s.owner)
    ensures Meta(sb) <= s.tree[n] < |s.data|
    ensures Parent(Kid(n, j)) == n
    ensures Word(s.data[s.tree[n]], j) != 0 <==> Kid(n, j) in s.tree
    ensures Kid(n, j) in s.tree ==> Word(s.data[s.tree[n]], j) == s.tree[Kid(n, j)]
    ensures Kid(n, j) !in s.tree ==> Missing(bd, sb, s, Kid(n, j))
  {
    hide Bit, Word, Covered, RootsOk;
    assert Word(At(s.data, s.tree[n]), j) == Ptr(s.tree, Kid(n, j));
    assert Parent(Kid(n, j)).path == n.path;
  }

  lemma IndexPath(bd: Build, n: Node)
    requires IsIndex(bd, n)
    ensures |n.path| >= 1
  {
  }

  lemma IndexPlace(bd: Build, sb: Super, s: St, n: Node, j: nat)
    requires Wf(bd, sb, s) && n in s.tree && IsIndex(bd, n) && j < NINDIRECT
    ensures n.inum < |s.inodes| && |s.inodes[n.inum].addrs| == NADDRS
    ensures |n.path| >= 1 && n.path[0] < NADDRS && Kid(n, j).path == n.path + [j]
  {
  }

  /** The step that adds node `n`. */
  lemma GrowReached(bd: Build, sb: Super, s: St, n: Node, b: nat, d1: seq<Block>, s': St)
    requires Wf(bd, sb, s) && Missing(bd, sb, s, n)
    requires Allocated(sb, s.data, s.owner, b, d1)
    requires n.inum < |s.inodes| && |s.inodes[n.inum].addrs| == NADDRS
    requires |n.path| >= 2 ==> s.tree[Parent(n)] < |d1|
    requires s' == Grown(s, n, b, d1).(logged := Grown(s, n, b, d1).logged + {BBlock(sb, b)})
    ensures Reached(bd, sb, s, s', n.inum, n.path, b)
  {
    hide BitmapOk, TreeOk, IndexOk, Covered, RootsOk, Grows, Allocated, NodeOk, Noted, NewLogged, MayLog, BBlock;
    MissingFacts(bd, sb, s, n, b, d1);
    Grow(bd, sb, s, n, b, d1);
    GrownNoted(sb, s, n, b, d1, s');
    GrownNew(sb, s, n, b, s');
    forall x | x in s'.logged && x !in s.logged
      ensures MayLog(sb, s, s', n.inum, n.path, x)
    {
      GrownMayLog(sb, s, n, b, d1, s', x);
    }
  }

  lemma GrownNoted(sb: Super, s: St, n: Node, b: nat, d1: seq<Block>, s': St)
    requires Allocated(sb, s.data, s.owner, b, d1)
    requires n.inum < |s.inodes| && |n.path| >= 1 && n.path[0] < |s.inodes[n.inum].addrs|
    requires |n.path| >= 2 ==> Parent(n) in s.tree && s.tree[Parent(n)] < |d1| && n.path[|n.path| - 1] < NINDIRECT
    requires s' == Grown(s, n, b, d1).(logged := Grown(s, n, b, d1).logged + {BBlock(sb, b)})
    ensures Noted(s.data, s.logged, s'.data, s'.logged)
  {
    hide Bit, BBlock, RootLinked, SetWord;
  }

  lemma GrownNew(sb: Super, s: St, n: Node, b: nat, s': St)
    requires s'.tree == s.tree[n := b] && {b, BBlock(sb, b)} <= s'.logged
    requires |n.path| >= 2 ==> Parent(n) in s.tree && Parent(n) != n && s.tree[Parent(n)] in s'.logged
    ensures NewLogged(sb, s.tree, s'.tree, s'.logged)
  {
    hide BBlock;
  }

  lemma GrownMayLog(sb: Super, s: St, n: Node, b: nat, d1: seq<Block>, s': St, x: nat)
    requires n !in s.tree && b !in s.owner
    requires n.inum < |s.inodes| && |n.path| >= 1 && n.path[0] < |s.inodes[n.inum].addrs|
    requires |n.path| >= 2 ==>
               && Parent(n) in s.tree && s.tree[Parent(n)] < |d1| && n.path[|n.path| - 1] < NINDIRECT
               && s.tree[Parent(n)] in s.owner && s.owner[s.tree[Parent(n)]] == Parent(n)
    requires s' == Grown(s, n, b, d1).(logged := Grown(s, n, b, d1).logged + {BBlock(sb, b)})
    requires x in s'.logged && x !in s.logged
    ensures MayLog(sb, s, s', n.inum, n.path, x)
  {
    hide BBlock, RootLinked, Linked, Stirred;
    HungStirs(s.tree, n, b);
    if x == BBlock(sb, b) {
      assert s'.owner[b] == n;
    } else if x != b {
      assert x == s.tree[Parent(n)] && Parent(n).path <= n.path;
    }
  }

  /** Hanging a node stirs it and the one above it. */
  lemma HungStirs(t: Tree, n: Node, b: nat)
    requires n !in t && (|n.path| >= 2 ==> n.path[|n.path| - 1] < NINDIRECT)
    ensures Stirred(t, t[n := b], n)
    ensures |n.path| >= 2 ==> Stirred(t, t[n := b], Parent(n))
  {
    if |n.path| >= 2 {
      KidOfParent(Parent(n), n, n.path[|n.path| - 1]);
    }
  }

  // ---- the bytes of a file ----

  function LeafBlock(bd: Build, tree: Tree, i: nat, bn: nat): nat {
    if bn < Cap(bd) then Ptr(tree, Leaf(bd, i, bn)) else 0
  }

  predicate HasLeaf(bd: Build, tree: Tree, i: nat, bn: nat) {
    bn < Cap(bd) && Leaf(bd, i, bn) in tree
  }

  /** Byte `q` of file `i`. */
  function ByteAt(bd: Build, s: St, i: nat, q: nat): byte {
    At(s.data, LeafBlock(bd, s.tree, i, q / BSIZE))[q % BSIZE]
  }

  predicate HasByte(bd: Build, s: St, i: nat, q: nat) {
    HasLeaf(bd, s.tree, i, q / BSIZE)
  }

  function Bytes(bd: Build, s: St, i: nat, size: nat): (r: seq<byte>)
    ensures |r| == size
  {
    seq(size, q requires 0 <= q < size => ByteAt(bd, s, i, q))
  }

  /** A byte of a file is the byte at that place of the block that its addresses lead to. */
  lemma FileWords(bd: Build, sb: Super, s: St, i: nat, q: nat)
    requires Wf(bd, sb, s) && i < |s.inodes| && q < s.inodes[i].size
    ensures |s.inodes[i].addrs| == NADDRS
    ensures File(bd, s, i)[q] == At(s.data, BlockNumber(bd, s.data, s.inodes[i].addrs, q / BSIZE))[q % BSIZE]
  {
    hide Wf, BlockNumber, LeafBlock, HasLeaf, Path, Cap;
    SizeBacked(bd, sb, s, i, q);
    LeafWords(bd, sb, s, i, q / BSIZE);
  }

  /** The content of file `i`. */
  function File(bd: Build, s: St, i: nat): seq<byte>
    requires i < |s.inodes|
  {
    Bytes(bd, s, i, s.inodes[i].size)
  }

  /** `was` with `src` written at `off`, longer if need be. */
  function Splice(was: seq<byte>, off: nat, src: seq<byte>): seq<byte>
    requires off <= |was|
  {
    was[..off] + src + if off + |src| <= |was| then was[off + |src|..] else []
  }

  function Patch(blk: Block, o: nat, src: seq<byte>): (r: Block)
    requires o + |src| <= BSIZE
    ensures forall q :: 0 <= q < BSIZE ==> r[q] == if o <= q < o + |src| then src[q - o] else blk[q]
  {
    blk[..o] + src + blk[o + |src|..]
  }

  /** Every byte below a file's size is backed by a block. */
  lemma SizeBacked(bd: Build, sb: Super, s: St, i: nat, q: nat)
    requires Wf(bd, sb, s) && i < |s.inodes| && q < s.inodes[i].size
    ensures HasByte(bd, s, i, q)
  {
    var bn := q / BSIZE;
    assert bn * BSIZE < s.inodes[i].size;
    assert CoveredTo(bd, s.tree, i, s.inodes[i].size);
  }

  ghost predicate Touches(bd: Build, path: seq<nat>, lo: nat, hi: nat) {
    exists bn :: lo <= bn <= hi && bn < Cap(bd) && path <= Path(bd, bn)
  }

  /** What writing the first `tot` bytes of `src` at `off` into file `i` has done to state `s`. */
  ghost predicate Written(bd: Build, sb: Super, s: St, s': St, i: nat, off: nat, src: seq<byte>, tot: nat, last: nat) {
    && WroteInodes(sb, s, s', i, off + tot)
    && WroteBytes(bd, s, s', i, off, src, tot)
    && WroteLog(bd, sb, s, s', i, off / BSIZE, last)
    && WroteLeaves(bd, s', i, off, tot)
  }

  /** The block of byte `q` has been passed to log_write. */
  predicate ByteLogged(bd: Build, s: St, i: nat, q: nat) {
    LeafBlock(bd, s.tree, i, q / BSIZE) in s.logged
  }

  /** Every block written to is logged, whether its bytes have changed or not. */
  ghost predicate WroteLeaves(bd: Build, s': St, i: nat, off: nat, tot: nat) {
    forall q: nat :: off <= q < off + tot ==> ByteLogged(bd, s', i, q)
  }

  /** Only the addrs of inode `i` may differ, and not even those while the end is inside the file. */
  ghost predicate WroteInodes(sb: Super, s: St, s': St, i: nat, end: nat) {
    && |s'.inodes| == |s.inodes|
    && (forall k :: 0 <= k < |s.inodes| && k != i ==> s'.inodes[k] == s.inodes[k])
    && (i < |s.inodes| ==> s'.inodes[i] == s.inodes[i].(addrs := s'.inodes[i].addrs))
    && (i < |s.inodes| && end <= s.inodes[i].size ==> s'.inodes == s.inodes)
    && (forall b: nat :: b < sb.bmapstart ==> At(s'.data, b) == At(s.data, b))
  }

  ghost predicate WroteBytes(bd: Build, s: St, s': St, i: nat, off: nat, src: seq<byte>, tot: nat) {
    && tot <= |src|
    && (forall k: nat, q: nat :: HasByte(bd, s, k, q) ==> HasByte(bd, s', k, q))
    && (forall k: nat, q: nat :: HasByte(bd, s, k, q) && !(k == i && off <= q < off + tot) ==>
          ByteAt(bd, s', k, q) == ByteAt(bd, s, k, q))
    && (forall q: nat :: off <= q < off + tot ==> HasByte(bd, s', i, q) && ByteAt(bd, s', i, q) == src[q - off])
  }

  /** What a write to blocks `lo` to `hi` of file `i` may have logged so far. */
  ghost predicate WroteLog(bd: Build, sb: Super, s: St, s': St, i: nat, lo: nat, hi: nat) {
    && Marked(bd, sb, s, s', i, lo, hi)
    && (forall x :: x in s'.logged && x !in s.logged ==> WroteTo(bd, sb, s, s', i, lo, hi, x))
  }

  /** New nodes are on the way to blocks `lo` to `hi`, and both they and all changed blocks are logged. */
  ghost predicate Marked(bd: Build, sb: Super, s: St, s': St, i: nat, lo: nat, hi: nat) {
    && TreeKept(s.tree, s'.tree)
    && Noted(s.data, s.logged, s'.data, s'.logged)
    && NewLogged(sb, s.tree, s'.tree, s'.logged)
    && (forall n :: n in s'.tree && n !in s.tree ==> n.inum == i && Touches(bd, n.path, lo, hi))
  }

  ghost predicate WroteTo(bd: Build, sb: Super, s: St, s': St, i: nat, lo: nat, hi: nat, x: nat) {
    || FromMap(sb, s.tree, s'.owner, x)
    || (&& x in s'.owner && s'.owner[x].inum == i && Touches(bd, s'.owner[x].path, lo, hi)
        && (IsLeaf(bd, s'.owner[x]) || Stirred(s.tree, s'.tree, s'.owner[x])))
  }

  /** The state after bmap returned block `a` and `chunk` was copied into it at `o`. */
  function Copied(s: St, a: nat, o: nat, chunk: seq<byte>): St
    requires a < |s.data| && o + |chunk| <= BSIZE
  {
    s.(data := s.data[a := Patch(s.data[a], o, chunk)], logged := s.logged + {a})
  }

  lemma LeafPlace(bd: Build, sb: Super, s: St, i: nat, bn: nat)
    requires Wf(bd, sb, s) && HasLeaf(bd, s.tree, i, bn)
    ensures SuperOk(sb) && |s.data| == sb.size && i < |s.inodes| && |s.inodes| == sb.ninodes
    ensures Meta(sb) <= s.tree[Leaf(bd, i, bn)] < sb.size
    ensures s.tree[Leaf(bd, i, bn)] in s.owner && s.owner[s.tree[Leaf(bd, i, bn)]] == Leaf(bd, i, bn)
  {
  }

  /** Word `j` of block `a`, as an index block. */
  function Entry(data: seq<Block>, a: nat, j: nat): nat {
    if j < NINDIRECT then Word(At(data, a), j) else 0
  }

  lemma LeafIs(bd: Build, tree: Tree, i: nat, bn: nat)
    ensures HasLeaf(bd, tree, i, bn) ==> LeafBlock(bd, tree, i, bn) == tree[Leaf(bd, i, bn)]
  {
    hide Path;
  }

  /** A node below the root slots stands in the index block of the node above it. */
  lemma ChildWord(bd: Build, sb: Super, s: St, i: nat, p: seq<nat>, j: nat)
    requires Wf(bd, sb, s) && 1 <= |p| && Node(i, p + [j]) in s.tree
    ensures Node(i, p) in s.tree && j < NINDIRECT
    ensures s.tree[Node(i, p + [j])] == Entry(s.data, s.tree[Node(i, p)], j)
  {
    hide BitmapOk, RootsOk, Covered, Word;
    var n := Node(i, p + [j]);
    assert Parent(n) == Node(i, p) && Kid(Node(i, p), j) == n && n.path[0] == p[0];
    assert NodeOk(bd, sb.ninodes, n);
    assert n.path[|p|] == j;
    assert IsIndex(bd, Node(i, p));
  }

  lemma RootWord(bd: Build, sb: Super, s: St, i: nat, k: nat)
    requires Wf(bd, sb, s) && i < |s.inodes| && Node(i, [k]) in s.tree
    ensures k < |s.inodes[i].addrs| == NADDRS && s.tree[Node(i, [k])] == s.inodes[i].addrs[k]
  {
    hide BitmapOk, IndexOk, Covered;
    assert NodeOk(bd, sb.ninodes, Node(i, [k]));
  }

  /** The block in place `bn` of a file with these addresses, going by the words of index blocks alone: directly, or
      through one, two or three index blocks. Project3 does not subtract the blocks of the levels before, so it
      starts the double and the triple level at their entry 1. */
  function BlockNumber(bd: Build, data: seq<Block>, addrs: seq<nat>, bn: nat): nat
    requires |addrs| == NADDRS
  {
    var direct := if bd.Project1? then 12 else 10;
    if bn < direct then addrs[bn]
    else
      var r := bn - direct;
      if r < 128 then Entry(data, addrs[direct], r)
      else if r < 128 * 128 then Entry(data, Entry(data, addrs[11], r / 128), r % 128)
      else Entry(data, Entry(data, Entry(data, addrs[12], r / 16384), r % 16384 / 128), r % 128)
  }

  lemma LeafWords(bd: Build, sb: Super, s: St, i: nat, bn: nat)
    requires Wf(bd, sb, s) && i < |s.inodes| && HasLeaf(bd, s.tree, i, bn)
    ensures |s.inodes[i].addrs| == NADDRS
    ensures LeafBlock(bd, s.tree, i, bn) == BlockNumber(bd, s.data, s.inodes[i].addrs, bn)
  {
    hide Wf, Entry;
    var nd := NDirect(bd);
    var r := bn - nd;
    if bn < nd {
      RootWord(bd, sb, s, i, bn);
    } else if r < 128 {
      assert [nd] + [r] == Path(bd, bn);
      ChildWord(bd, sb, s, i, [nd], r);
      RootWord(bd, sb, s, i, nd);
    } else if r < 16384 {
      assert [11, r / 128] + [r % 128] == Path(bd, bn) && [11] + [r / 128] == [11, r / 128];
      ChildWord(bd, sb, s, i, [11, r / 128], r % 128);
      ChildWord(bd, sb, s, i, [11], r / 128);
      RootWord(bd, sb, s, i, 11);
    } else {
      var p, q := [12, r / 16384], [12, r / 16384, r % 16384 / 128];
      assert q + [r % 128] == Path(bd, bn) && p + [r % 16384 / 128] == q && [12] + [r / 16384] == p;
      ChildWord(bd, sb, s, i, q, r % 128);
      ChildWord(bd, sb, s, i, p, r % 16384 / 128);
      ChildWord(bd, sb, s, i, [12], r / 16384);
      RootWord(bd, sb, s, i, 12);
    }
  }

  /** Distinct nodes live in distinct blocks. */
  lemma NodesApart(bd: Build, sb: Super, tree: Tree, owner: Owner, m: Node, n: Node)
    requires TreeOk(bd, sb, tree, owner) && m in tree && n in tree && tree[m] == tree[n]
    ensures m == n
  {
  }

  lemma CopiedIndex(bd: Build, sb: Super, s: St, n: Node, w: Block)
    requires TreeOk(bd, sb, s.tree, s.owner) && IndexOk(bd, s.data, s.tree) && n in s.tree && IsLeaf(bd, n)
    requires s.tree[n] < |s.data|
    ensures IndexOk(bd, s.data[s.tree[n] := w], s.tree)
  {
    var d := s.data[s.tree[n] := w];
    forall m, j | m in s.tree && IsIndex(bd, m) && 0 <= j < NINDIRECT
      ensures Word(At(d, s.tree[m]), j) == Ptr(s.tree, Kid(m, j))
    {
      assert Word(At(s.data, s.tree[m]), j) == Ptr(s.tree, Kid(m, j));
      if s.tree[m] == s.tree[n] {
        NodesApart(bd, sb, s.tree, s.owner, m, n);
      }
    }
  }

  /** Writing into a data block disturbs no other structure. */
  lemma CopiedWf(bd: Build, sb: Super, s: St, i: nat, bn: nat, o: nat, chunk: seq<byte>)
    requires Wf(bd, sb, s) && HasLeaf(bd, s.tree, i, bn) && o + |chunk| <= BSIZE
    ensures s.tree[Leaf(bd, i, bn)] < |s.data|
    ensures Wf(bd, sb, Copied(s, s.tree[Leaf(bd, i, bn)], o, chunk))
  {
    LeafPlace(bd, sb, s, i, bn);
    LeafOk(bd, sb.ninodes, i, bn);
    var a := s.tree[Leaf(bd, i, bn)];
    CopiedIndex(bd, sb, s, Leaf(bd, i, bn), Patch(s.data[a], o, chunk));
    KeepBitmap(sb, s.data, s.owner, a, Patch(s.data[a], o, chunk));
  }

  lemma LeafBlocksApart(bd: Build, sb: Super, s: St, i: nat, bn: nat, k: nat, bk: nat)
    requires Wf(bd, sb, s) && HasLeaf(bd, s.tree, i, bn) && HasLeaf(bd, s.tree, k, bk)
    requires s.tree[Leaf(bd, i, bn)] == s.tree[Leaf(bd, k, bk)]
    ensures i == k && bn == bk
  {
    NodesApart(bd, sb, s.tree, s.owner, Leaf(bd, i, bn), Leaf(bd, k, bk));
    PathInjective(bd, bn, bk);
  }

  /** It changes the bytes of that block in that file and no byte of any other file. */
  lemma CopiedByte(bd: Build, sb: Super, s: St, i: nat, bn: nat, o: nat, chunk: seq<byte>, k: nat, q: nat)
    requires Wf(bd, sb, s) && HasLeaf(bd, s.tree, i, bn) && o + |chunk| <= BSIZE
    requires s.tree[Leaf(bd, i, bn)] < |s.data|
    requires HasByte(bd, s, k, q)
    ensures var s' := Copied(s, s.tree[Leaf(bd, i, bn)], o, chunk);
            HasByte(bd, s', k, q) &&
            ByteAt(bd, s', k, q) ==
              if k == i && bn * BSIZE + o <= q < bn * BSIZE + o + |chunk| then chunk[q - (bn * BSIZE + o)]
              else ByteAt(bd, s, k, q)
  {
    hide Wf, Path, Cap;
    BlockSpan(q, bn);
    if s.tree[Leaf(bd, k, q / BSIZE)] == s.tree[Leaf(bd, i, bn)] {
      LeafBlocksApart(bd, sb, s, i, bn, k, q / BSIZE);
    }
  }

  lemma BlockSpan(q: nat, bn: nat)
    ensures q / BSIZE == bn <==> bn * BSIZE <= q < bn * BSIZE + BSIZE
    ensures q / BSIZE == bn ==> q % BSIZE == q - bn * BSIZE
    ensures q % BSIZE < BSIZE
  {
  }

  lemma GrowsByte(bd: Build, sb: Super, s: St, s': St, k: nat, q: nat)
    requires Grows(bd, sb, s.data, s.tree, s'.data, s'.tree) && HasByte(bd, s, k, q)
    ensures HasByte(bd, s', k, q) && ByteAt(bd, s', k, q) == ByteAt(bd, s, k, q)
  {
    assert IsLeaf(bd, Leaf(bd, k, q / BSIZE));
  }

  lemma LeafReached(bd: Build, sb: Super, s: St, s1: St, i: nat, bn: nat, a: nat)
    requires bn < Cap(bd) && Reached(bd, sb, s, s1, i, Path(bd, bn), a)
    ensures Wf(bd, sb, s1) && Grows(bd, sb, s.data, s.tree, s1.data, s1.tree)
    ensures HasLeaf(bd, s1.tree, i, bn) && Leaf(bd, i, bn) in s1.tree && s1.tree[Leaf(bd, i, bn)] == a < |s1.data|
    ensures SuperOk(sb) && sb.bmapstart <= a && |s1.inodes| == |s.inodes|
    ensures HasLeaf(bd, s.tree, i, bn) ==> s1 == s
  {
    hide Wf, Grows, Path, Cap, MayLog;
    LeafPlace(bd, sb, s1, i, bn);
    MetaPlace(bd, sb, s1);
  }

  lemma MetaPlace(bd: Build, sb: Super, s: St)
    requires Wf(bd, sb, s)
    ensures SuperOk(sb) && sb.bmapstart <= Meta(sb) && |s.inodes| == sb.ninodes
  {
  }

  lemma StepInodes(bd: Build, sb: Super, s0: St, s: St, s1: St, i: nat, end: nat, bn: nat, a: nat, o: nat,
                   chunk: seq<byte>)
    requires Wf(bd, sb, s0) && Wf(bd, sb, s) && i < |s0.inodes| && WroteInodes(sb, s0, s, i, end)
    requires forall k: nat, q: nat :: HasByte(bd, s0, k, q) ==> HasByte(bd, s, k, q)
    requires bn == end / BSIZE < Cap(bd) && Reached(bd, sb, s, s1, i, Path(bd, bn), a)
    requires o + |chunk| <= BSIZE && |chunk| > 0
    ensures a < |s1.data|
    ensures WroteInodes(sb, s0, Copied(s1, a, o, chunk), i, end + |chunk|)
  {
    hide Wf, Grows, Path, Cap, HasLeaf, Patch;
    LeafReached(bd, sb, s, s1, i, bn, a);
    if end + |chunk| <= s0.inodes[i].size {
      SizeBacked(bd, sb, s0, i, end);
      assert HasByte(bd, s, i, end);
    }
    GrowsLow(bd, sb, s, s1);
  }

  lemma GrowsLow(bd: Build, sb: Super, s: St, s': St)
    requires Grows(bd, sb, s.data, s.tree, s'.data, s'.tree)
    ensures forall b: nat :: b < sb.bmapstart ==> At(s'.data, b) == At(s.data, b)
  {
  }

  lemma StepBytes(bd: Build, sb: Super, s0: St, s: St, s1: St, i: nat, off: nat, src: seq<byte>, tot: nat, m: nat,
                  bn: nat, a: nat)
    requires WroteBytes(bd, s0, s, i, off, src, tot)
    requires 0 < m <= |src| - tot && (off + tot) % BSIZE + m <= BSIZE
    requires bn == (off + tot) / BSIZE < Cap(bd) && Reached(bd, sb, s, s1, i, Path(bd, bn), a)
    ensures a < |s1.data|
    ensures WroteBytes(bd, s0, Copied(s1, a, (off + tot) % BSIZE, src[tot..tot + m]), i, off, src, tot + m)
  {
    hide Wf, Grows, Reached, Copied, ByteAt, HasLeaf, Leaf;
    var o, chunk := (off + tot) % BSIZE, src[tot..tot + m];
    LeafReached(bd, sb, s, s1, i, bn, a);
    var s2 := Copied(s1, a, o, chunk);
    forall k: nat, q: nat | HasByte(bd, s, k, q)
      ensures HasByte(bd, s2, k, q)
      ensures ByteAt(bd, s2, k, q) ==
                if k == i && off + tot <= q < off + tot + m then src[q - off] else ByteAt(bd, s, k, q)
    {
      GrowsByte(bd, sb, s, s1, k, q);
      CopiedByte(bd, sb, s1, i, bn, o, chunk, k, q);
    }
    forall q: nat | off + tot <= q < off + tot + m
      ensures HasByte(bd, s2, i, q) && ByteAt(bd, s2, i, q) == src[q - off]
    {
      assert q / BSIZE == bn && HasByte(bd, s1, i, q);
      CopiedByte(bd, sb, s1, i, bn, o, chunk, i, q);
    }
  }

  lemma StepLog(bd: Build, sb: Super, s0: St, s: St, s1: St, i: nat, lo: nat, hi: nat, bn: nat, a: nat,
                o: nat, chunk: seq<byte>)
    requires WroteLog(bd, sb, s0, s, i, lo, hi) && Wf(bd, sb, s)
    requires lo <= bn <= hi && bn < Cap(bd) && Reached(bd, sb, s, s1, i, Path(bd, bn), a)
    requires a < |s1.data| && o + |chunk| <= BSIZE
    ensures WroteLog(bd, sb, s0, Copied(s1, a, o, chunk), i, lo, hi)
  {
    hide Wf, Grows, Reached, Path, Cap, Touches, MayLog, WroteTo, HasLeaf, Marked, Copied, Leaf, TreeKept;
    ReachedLog(bd, sb, s, s1, i, Path(bd, bn), a);
    LeafReached(bd, sb, s, s1, i, bn, a);
    StepMarked(bd, sb, s0, s, s1, i, lo, hi, bn, a, o, chunk);
    var s2 := Copied(s1, a, o, chunk);
    CopiedShape(s1, a, o, chunk);
    MarkedTree(bd, sb, s0, s, i, lo, hi);
    forall x | x in s2.logged && x !in s0.logged
      ensures WroteTo(bd, sb, s0, s2, i, lo, hi, x)
    {
      if x == a {
        LeafWritten(bd, sb, s0, s1, i, lo, hi, bn);
      } else if x in s.logged {
        WroteToKept(bd, sb, s0, s, s1, i, lo, hi, x);
      } else {
        MayLogSince(bd, sb, s0, s, s1, i, Path(bd, bn), x);
        MayLogWritten(bd, sb, s0, s1, i, lo, hi, bn, x);
      }
      WroteToShape(bd, sb, s0, s1, s2, i, lo, hi, x);
    }
  }

  lemma StepLeaves(bd: Build, sb: Super, s0: St, s: St, s1: St, i: nat, off: nat, src: seq<byte>, tot: nat, m: nat,
                   bn: nat, a: nat)
    requires WroteBytes(bd, s0, s, i, off, src, tot) && WroteLeaves(bd, s, i, off, tot)
    requires 0 < m <= |src| - tot && (off + tot) % BSIZE + m <= BSIZE
    requires bn == (off + tot) / BSIZE < Cap(bd) && Reached(bd, sb, s, s1, i, Path(bd, bn), a)
    requires a < |s1.data|
    ensures WroteLeaves(bd, Copied(s1, a, (off + tot) % BSIZE, src[tot..tot + m]), i, off, tot + m)
  {
    hide Wf, Grows, Reached, Copied, Path, Cap, ByteAt, Leaf, TreeKept, ByteLogged;
    var s2 := Copied(s1, a, (off + tot) % BSIZE, src[tot..tot + m]);
    CopiedShape(s1, a, (off + tot) % BSIZE, src[tot..tot + m]);
    LeafReached(bd, sb, s, s1, i, bn, a);
    ReachedLog(bd, sb, s, s1, i, Path(bd, bn), a);
    forall q: nat | off <= q < off + (tot + m)
      ensures ByteLogged(bd, s2, i, q)
    {
      if q < off + tot {
        LoggedKept(bd, s, s2, i, q);
      } else {
        assert q / BSIZE == bn;
        LoggedHere(bd, s2, i, q, a);
      }
    }
  }

  lemma LoggedKept(bd: Build, s: St, s': St, i: nat, q: nat)
    requires TreeKept(s.tree, s'.tree) && s.logged <= s'.logged && HasByte(bd, s, i, q) && ByteLogged(bd, s, i, q)
    ensures ByteLogged(bd, s', i, q)
  {
    hide Path, Cap;
  }

  lemma LoggedHere(bd: Build, s: St, i: nat, q: nat, a: nat)
    requires HasLeaf(bd, s.tree, i, q / BSIZE) && s.tree[Leaf(bd, i, q / BSIZE)] == a && a in s.logged
    ensures ByteLogged(bd, s, i, q)
  {
    hide Path, Cap;
  }

  lemma CopiedShape(s: St, a: nat, o: nat, chunk: seq<byte>)
    requires a < |s.data| && o + |chunk| <= BSIZE
    ensures var s2 := Copied(s, a, o, chunk);
            && s2.tree == s.tree && s2.owner == s.owner && s2.logged == s.logged + {a} && |s2.data| == |s.data|
            && Noted(s.data, s.logged, s2.data, s2.logged)
  {
    hide Patch;
  }

  lemma MarkedTree(bd: Build, sb: Super, s: St, s': St, i: nat, lo: nat, hi: nat)
    requires Marked(bd, sb, s, s', i, lo, hi)
    ensures TreeKept(s.tree, s'.tree) && s.logged <= s'.logged
  {
  }

  lemma WroteToShape(bd: Build, sb: Super, s: St, s1: St, s2: St, i: nat, lo: nat, hi: nat, x: nat)
    requires s1.tree == s2.tree && s1.owner == s2.owner
    ensures WroteTo(bd, sb, s, s1, i, lo, hi, x) == WroteTo(bd, sb, s, s2, i, lo, hi, x)
  {
  }

  lemma StepMarked(bd: Build, sb: Super, s0: St, s: St, s1: St, i: nat, lo: nat, hi: nat, bn: nat, a: nat,
                   o: nat, chunk: seq<byte>)
    requires Marked(bd, sb, s0, s, i, lo, hi) && Wf(bd, sb, s)
    requires lo <= bn <= hi && bn < Cap(bd) && Reached(bd, sb, s, s1, i, Path(bd, bn), a)
    requires a < |s1.data| && o + |chunk| <= BSIZE
    ensures Marked(bd, sb, s0, Copied(s1, a, o, chunk), i, lo, hi)
  {
    hide Wf, Grows, Reached, Path, Cap, Touches, MayLog, Copied, TreeKept, Noted, NewLogged;
    ReachedLog(bd, sb, s, s1, i, Path(bd, bn), a);
    CopiedShape(s1, a, o, chunk);
    var s2 := Copied(s1, a, o, chunk);
    KeptTrans(s0.tree, s.tree, s1.tree);
    NotedTrans(s.data, s.logged, s1.data, s1.logged, s2.data, s2.logged);
    NotedTrans(s0.data, s0.logged, s.data, s.logged, s2.data, s2.logged);
    NotedList(s.data, s.logged, s1.data, s1.logged);
    NewLoggedTrans(bd, sb, s0, s, s1);
    NewLoggedMore(sb, s0.tree, s1.tree, s1.logged, s2.logged);
    forall n | n in s2.tree && n !in s0.tree
      ensures n.inum == i && Touches(bd, n.path, lo, hi)
    {
      if n !in s.tree {
        TouchesBy(bd, n.path, lo, hi, bn);
      }
    }
  }

  lemma KeptTrans(t0: Tree, t1: Tree, t2: Tree)
    requires TreeKept(t0, t1) && TreeKept(t1, t2)
    ensures TreeKept(t0, t2)
  {
  }

  lemma NewLoggedMore(sb: Super, t: Tree, t': Tree, l: set<nat>, l': set<nat>)
    requires NewLogged(sb, t, t', l) && l <= l'
    ensures NewLogged(sb, t, t', l')
  {
    hide BBlock;
  }

  lemma ReachedLog(bd: Build, sb: Super, s: St, s1: St, i: nat, path: seq<nat>, a: nat)
    requires Reached(bd, sb, s, s1, i, path, a)
    ensures TreeKept(s.tree, s1.tree)
    ensures Noted(s.data, s.logged, s1.data, s1.logged) && s.logged <= s1.logged
    ensures NewLogged(sb, s.tree, s1.tree, s1.logged)
    ensures forall n :: n in s1.tree && n !in s.tree ==> n.inum == i && n.path <= path
    ensures forall x :: x in s1.logged && x !in s.logged ==> MayLog(sb, s, s1, i, path, x)
  {
    hide Wf, MayLog, NewLogged;
  }

  lemma LeafWritten(bd: Build, sb: Super, s0: St, s1: St, i: nat, lo: nat, hi: nat, bn: nat)
    requires Wf(bd, sb, s1) && lo <= bn <= hi && bn < Cap(bd) && HasLeaf(bd, s1.tree, i, bn)
    ensures WroteTo(bd, sb, s0, s1, i, lo, hi, s1.tree[Leaf(bd, i, bn)])
  {
    LeafPlace(bd, sb, s1, i, bn);
    LeafOk(bd, sb.ninodes, i, bn);
    TouchesBy(bd, Path(bd, bn), lo, hi, bn);
  }

  lemma WroteToKept(bd: Build, sb: Super, s0: St, s: St, s1: St, i: nat, lo: nat, hi: nat, x: nat)
    requires Wf(bd, sb, s) && Wf(bd, sb, s1) && TreeKept(s0.tree, s.tree) && TreeKept(s.tree, s1.tree)
    requires WroteTo(bd, sb, s0, s, i, lo, hi, x)
    ensures WroteTo(bd, sb, s0, s1, i, lo, hi, x)
  {
    hide Wf, TreeKept, Touches, FromMap, Stirred, IsLeaf;
    if FromMap(sb, s0.tree, s.owner, x) {
      FromMapKept(bd, sb, s0.tree, s, s1, x);
    } else {
      OwnerKept(bd, sb, s, s1, x);
      StirredKept(s0.tree, s.tree, s1.tree, s.owner[x]);
    }
  }

  lemma MayLogWritten(bd: Build, sb: Super, s0: St, s1: St, i: nat, lo: nat, hi: nat, bn: nat, x: nat)
    requires lo <= bn <= hi && bn < Cap(bd) && MayLog(sb, s0, s1, i, Path(bd, bn), x)
    ensures WroteTo(bd, sb, s0, s1, i, lo, hi, x)
  {
    hide Touches, Path, Cap, FromMap, Stirred, IsLeaf;
    if x in s1.owner && s1.owner[x].path <= Path(bd, bn) {
      TouchesBy(bd, s1.owner[x].path, lo, hi, bn);
    }
  }

  lemma TouchesBy(bd: Build, p: seq<nat>, lo: nat, hi: nat, bn: nat)
    requires lo <= bn <= hi && bn < Cap(bd) && p <= Path(bd, bn)
    ensures Touches(bd, p, lo, hi)
  {
    hide Path, Cap;
  }

  lemma WrittenNothing(bd: Build, sb: Super, s: St, i: nat, off: nat, src: seq<byte>, last: nat)
    ensures Written(bd, sb, s, s, i, off, src, 0, last)
  {
  }

  /** One turn of writei's loop. */
  lemma WrittenStep(bd: Build, sb: Super, s0: St, s: St, s1: St, i: nat, off: nat, src: seq<byte>, tot: nat, m: nat,
                    a: nat, last: nat)
    requires Wf(bd, sb, s0) && Wf(bd, sb, s) && i < |s0.inodes|
    requires Written(bd, sb, s0, s, i, off, src, tot, last)
    requires 0 < m <= |src| - tot && (off + tot) % BSIZE + m <= BSIZE
    requires last * BSIZE + BSIZE >= off + |src|
    requires (off + tot) / BSIZE < Cap(bd) && Reached(bd, sb, s, s1, i, Path(bd, (off + tot) / BSIZE), a)
    ensures a < |s1.data|
    ensures Written(bd, sb, s0, Copied(s1, a, (off + tot) % BSIZE, src[tot..tot + m]), i, off, src, tot + m, last)
    ensures |Copied(s1, a, (off + tot) % BSIZE, src[tot..tot + m]).inodes| == |s0.inodes|
  {
    hide Wf, Reached, WroteInodes, WroteLog, Copied, ByteAt, HasByte, WroteLeaves;
    var bn, o, chunk := (off + tot) / BSIZE, (off + tot) % BSIZE, src[tot..tot + m];
    WroteShape(sb, s0, s, i, off + tot);
    LeafReached(bd, sb, s, s1, i, bn, a);
    StepInodes(bd, sb, s0, s, s1, i, off + tot, bn, a, o, chunk);
    StepLog(bd, sb, s0, s, s1, i, off / BSIZE, last, bn, a, o, chunk);
    hide WroteBytes;
    StepLeaves(bd, sb, s0, s, s1, i, off, src, tot, m, bn, a);
    StepBytes(bd, sb, s0, s, s1, i, off, src, tot, m, bn, a);
    WroteShape(sb, s0, Copied(s1, a, o, chunk), i, off + tot + m);
  }

  lemma WroteShape(sb: Super, s0: St, s: St, i: nat, end: nat)
    requires WroteInodes(sb, s0, s, i, end)
    ensures |s.inodes| == |s0.inodes|
  {
  }

  // ---- the inode on disk ----

  /** The inode block holds what is in core for inode `k`. */
  predicate Synced(sb: Super, s: St, k: nat)
    requires k < |s.inodes|
  {
    |s.inodes[k].addrs| == NADDRS && InodeSlot(At(s.data, IBlock(sb, k)), k) == EncodeInode(s.inodes[k])
  }

  ghost predicate AllSynced(sb: Super, s: St) {
    forall k :: 0 <= k < |s.inodes| ==> Synced(sb, s, k)
  }

  /** iupdate's effect. */
  function Updated(sb: Super, s: St, i: nat): St
    requires i < |s.inodes| && IBlock(sb, i) < |s.data| && |s.inodes[i].addrs| == NADDRS
  {
    s.(data := s.data[IBlock(sb, i) := PutInode(s.data[IBlock(sb, i)], i, s.inodes[i])],
       logged := s.logged + {IBlock(sb, i)})
  }

  lemma UpdatedInodes(sb: Super, s: St, i: nat)
    requires i < |s.inodes| && IBlock(sb, i) < |s.data| && |s.inodes[i].addrs| == NADDRS
    ensures Updated(sb, s, i).inodes == s.inodes
  {
  }

  lemma UpdatedIndex(bd: Build, sb: Super, tree: Tree, owner: Owner, data: seq<Block>, p: nat, w: Block)
    requires TreeOk(bd, sb, tree, owner) && IndexOk(bd, data, tree) && p < Meta(sb) && p < |data|
    ensures IndexOk(bd, data[p := w], tree)
  {
    forall m, j | m in tree && IsIndex(bd, m) && 0 <= j < NINDIRECT
      ensures Word(At(data[p := w], tree[m]), j) == Ptr(tree, Kid(m, j))
    {
      assert Word(At(data, tree[m]), j) == Ptr(tree, Kid(m, j));
    }
  }

  lemma UpdatedWf(bd: Build, sb: Super, s: St, i: nat)
    requires Wf(bd, sb, s) && i < |s.inodes|
    ensures IBlock(sb, i) < |s.data| && |s.inodes[i].addrs| == NADDRS
    ensures Wf(bd, sb, Updated(sb, s, i))
  {
    IBlockIsMeta(sb, i);
    var w := PutInode(s.data[IBlock(sb, i)], i, s.inodes[i]);
    UpdatedIndex(bd, sb, s.tree, s.owner, s.data, IBlock(sb, i), w);
    KeepBitmap(sb, s.data, s.owner, IBlock(sb, i), w);
  }

  /** iupdate brings inode `i` up to date on disk and leaves the others as they were. */
  lemma UpdatedSync(bd: Build, sb: Super, s: St, i: nat)
    requires Wf(bd, sb, s) && i < |s.inodes|
    requires forall k :: 0 <= k < |s.inodes| && k != i ==> Synced(sb, s, k)
    ensures IBlock(sb, i) < |s.data| && |s.inodes[i].addrs| == NADDRS
    ensures AllSynced(sb, Updated(sb, s, i))
  {
    IBlockIsMeta(sb, i);
    forall k | 0 <= k < |s.inodes|
      ensures Synced(sb, Updated(sb, s, i), k)
    {
      IBlockIsMeta(sb, k);
      PutInodeSlots(sb, s.data[IBlock(sb, i)], i, s.inodes[i], k);
      assert k != i ==> Synced(sb, s, k);
    }
  }

  lemma UpdatedByte(bd: Build, sb: Super, s: St, i: nat, k: nat, q: nat)
    requires Wf(bd, sb, s) && i < |s.inodes| && HasByte(bd, s, k, q)
    requires IBlock(sb, i) < |s.data| && |s.inodes[i].addrs| == NADDRS
    ensures ByteAt(bd, Updated(sb, s, i), k, q) == ByteAt(bd, s, k, q)
  {
    IBlockIsMeta(sb, i);
    LeafPlace(bd, sb, s, k, q / BSIZE);
  }

  /** Setting the size to the end of what was written leaves no hole below it. */
  lemma SizedWf(bd: Build, sb: Super, s0: St, s: St, i: nat, off: nat, src: seq<byte>)
    requires Wf(bd, sb, s0) && Wf(bd, sb, s) && i < |s0.inodes| == |s.inodes|
    requires off <= s0.inodes[i].size && off + |src| <= Cap(bd) * BSIZE
    requires WroteBytes(bd, s0, s, i, off, src, |src|)
    ensures Wf(bd, sb, s.(inodes := s.inodes[i := s.inodes[i].(size := off + |src|)]))
  {
    hide BitmapOk, TreeOk, IndexOk, ByteAt;
    forall bn | 0 <= bn && bn * BSIZE < off + |src|
      ensures Leaf(bd, i, bn) in s.tree
    {
      var q := bn * BSIZE;
      if q < off {
        SizeBacked(bd, sb, s0, i, q);
        assert HasByte(bd, s, i, q);
      } else {
        assert HasByte(bd, s, i, q);
      }
    }
  }

  /** The bytes of the file written and of every other file, once the new size is in place. */
  lemma WrittenFile(bd: Build, sb: Super, s0: St, s: St, i: nat, off: nat, src: seq<byte>)
    requires Wf(bd, sb, s0) && i < |s0.inodes| == |s.inodes| && off <= s0.inodes[i].size
    requires WroteBytes(bd, s0, s, i, off, src, |src|)
    requires s.inodes[i].size == if off + |src| > s0.inodes[i].size then off + |src| else s0.inodes[i].size
    ensures File(bd, s, i) == Splice(File(bd, s0, i), off, src)
  {
    hide Wf, ByteAt, HasByte;
    var f, g := File(bd, s, i), Splice(File(bd, s0, i), off, src);
    assert |f| == |g|;
    forall q | 0 <= q < |f|
      ensures f[q] == g[q]
    {
      if q < s0.inodes[i].size {
        SizeBacked(bd, sb, s0, i, q);
      }
    }
  }

  lemma OtherFile(bd: Build, sb: Super, s0: St, s: St, i: nat, off: nat, src: seq<byte>, k: nat)
    requires Wf(bd, sb, s0) && k < |s0.inodes| == |s.inodes| && k != i
    requires WroteBytes(bd, s0, s, i, off, src, |src|)
    requires s.inodes[k].size == s0.inodes[k].size
    ensures File(bd, s, k) == File(bd, s0, k)
  {
    hide Wf, ByteAt, HasByte;
    var f, g := File(bd, s, k), File(bd, s0, k);
    forall q | 0 <= q < |f|
      ensures f[q] == g[q]
    {
      SizeBacked(bd, sb, s0, k, q);
    }
  }

  /** Everything writei promises about its state, gathered. */
  ghost predicate WriteDone(bd: Build, sb: Super, s0: St, s: St, i: nat, off: nat, src: seq<byte>, last: nat)
    requires i < |s0.inodes| && off <= s0.inodes[i].size
  {
    && Wf(bd, sb, s) && AllSynced(sb, s)
    && OnlyFile(s0, s, i)
    && FilesAre(bd, s0, s, i, Splice(File(bd, s0, i), off, src))
    && DoneLog(bd, sb, s0, s, i, off / BSIZE, last)
    && WroteLeaves(bd, s, i, off, |src|)
  }

  /** No inode but `i` differs, and that one only in its addrs and size. */
  ghost predicate OnlyFile(s0: St, s: St, i: nat)
    requires i < |s0.inodes|
  {
    && |s.inodes| == |s0.inodes|
    && (forall k :: 0 <= k < |s0.inodes| && k != i ==> s.inodes[k] == s0.inodes[k])
    && s.inodes[i] == s0.inodes[i].(addrs := s.inodes[i].addrs, size := s.inodes[i].size)
  }

  /** File `i` now holds `content`; every other file holds what it held. */
  ghost predicate FilesAre(bd: Build, s0: St, s: St, i: nat, content: seq<byte>)
    requires i < |s0.inodes|
  {
    && |s.inodes| == |s0.inodes|
    && File(bd, s, i) == content
    && (forall k :: 0 <= k < |s0.inodes| && k != i ==> File(bd, s, k) == File(bd, s0, k))
  }

  ghost predicate DoneLog(bd: Build, sb: Super, s0: St, s: St, i: nat, lo: nat, hi: nat) {
    && Marked(bd, sb, s0, s, i, lo, hi)
    && (Resizes(s0, s, i) ==> IBlock(sb, i) in s.logged)
    && (forall x :: x in s.logged && x !in s0.logged ==>
          (x == IBlock(sb, i) && Resizes(s0, s, i)) || WroteTo(bd, sb, s0, s, i, lo, hi, x))
  }

  predicate Resizes(s0: St, s: St, i: nat) {
    i < |s0.inodes| && i < |s.inodes| && s.inodes[i].size != s0.inodes[i].size
  }

  lemma DoneBytes(bd: Build, sb: Super, s0: St, s: St, i: nat, off: nat, src: seq<byte>, last: nat)
    requires i < |s0.inodes| && off <= s0.inodes[i].size && WriteDone(bd, sb, s0, s, i, off, src, last)
    ensures i < |s.inodes|
    ensures var was, now := File(bd, s0, i), File(bd, s, i);
            && off <= |was| && |now| == (if off + |src| > |was| then off + |src| else |was|)
            && forall q :: 0 <= q < |now| ==> now[q] == if off <= q < off + |src| then src[q - off] else was[q]
  {
    hide Wf, AllSynced, DoneLog, WroteLeaves, OnlyFile, File;
    FileLength(bd, s0, i);
    SpliceBytes(File(bd, s0, i), off, src);
  }

  lemma SpliceBytes(was: seq<byte>, off: nat, src: seq<byte>)
    requires off <= |was|
    ensures var now := Splice(was, off, src);
            && |now| == (if off + |src| > |was| then off + |src| else |was|)
            && forall q :: 0 <= q < |now| ==> now[q] == if off <= q < off + |src| then src[q - off] else was[q]
  {
  }

  lemma WrittenFiles(bd: Build, sb: Super, s0: St, s: St, i: nat, off: nat, src: seq<byte>)
    requires Wf(bd, sb, s0) && i < |s0.inodes| && off <= s0.inodes[i].size
    requires WroteBytes(bd, s0, s, i, off, src, |src|) && OnlyFile(s0, s, i)
    requires s.inodes[i].size == if off + |src| > s0.inodes[i].size then off + |src| else s0.inodes[i].size
    ensures FilesAre(bd, s0, s, i, Splice(File(bd, s0, i), off, src))
  {
    hide Wf, WroteBytes, Bytes;
    WrittenFile(bd, sb, s0, s, i, off, src);
    forall k | 0 <= k < |s0.inodes| && k != i
      ensures File(bd, s, k) == File(bd, s0, k)
    {
      OtherFile(bd, sb, s0, s, i, off, src, k);
    }
  }

  lemma WroteOnly(sb: Super, s0: St, s: St, i: nat, end: nat, size: nat)
    requires WroteInodes(sb, s0, s, i, end) && i < |s0.inodes|
    ensures |s.inodes| == |s0.inodes| && s.inodes[i].size == s0.inodes[i].size
    ensures OnlyFile(s0, s, i) && OnlyFile(s0, Resized(s, i, size), i)
  {
  }

  lemma UpdatedLog(bd: Build, sb: Super, s0: St, s: St, i: nat, lo: nat, hi: nat)
    requires WroteLog(bd, sb, s0, s, i, lo, hi)
    requires i < |s.inodes| && IBlock(sb, i) < |s.data| && |s.inodes[i].addrs| == NADDRS && Resizes(s0, s, i)
    ensures DoneLog(bd, sb, s0, Updated(sb, s, i), i, lo, hi)
  {
    hide Touches, IsLeaf, FromMap, Stirred, NewLogged, TreeKept, Noted, WroteTo, PutInode, IBlock;
    var u := Updated(sb, s, i);
    NotedStep(s.data, s.logged, IBlock(sb, i), PutInode(s.data[IBlock(sb, i)], i, s.inodes[i]));
    NotedTrans(s0.data, s0.logged, s.data, s.logged, u.data, u.logged);
    NewLoggedMore(sb, s0.tree, s.tree, s.logged, u.logged);
    forall x | x in u.logged && x !in s0.logged && x != IBlock(sb, i)
      ensures WroteTo(bd, sb, s0, u, i, lo, hi, x)
    {
      WroteToShape(bd, sb, s0, s, u, i, lo, hi, x);
    }
  }

  lemma SameSize(bd: Build, sb: Super, s0: St, s: St, i: nat, off: nat, src: seq<byte>, last: nat)
    requires Wf(bd, sb, s0) && Wf(bd, sb, s) && AllSynced(sb, s0) && i < |s0.inodes|
    requires off <= s0.inodes[i].size && off + |src| <= s0.inodes[i].size
    requires Written(bd, sb, s0, s, i, off, src, |src|, last)
    ensures WriteDone(bd, sb, s0, s, i, off, src, last)
  {
    WroteOnly(sb, s0, s, i, off + |src|, 0);
    KeptSync(bd, sb, s0, s, i, off + |src|);
    hide Wf, WroteBytes, FilesAre, OnlyFile;
    WrittenFiles(bd, sb, s0, s, i, off, src);
  }

  lemma KeptSync(bd: Build, sb: Super, s0: St, s: St, i: nat, end: nat)
    requires Wf(bd, sb, s0) && AllSynced(sb, s0) && i < |s0.inodes| && WroteInodes(sb, s0, s, i, end)
    ensures forall k :: 0 <= k < |s.inodes| && (k != i || s.inodes == s0.inodes) ==> Synced(sb, s, k)
  {
    forall k | 0 <= k < |s.inodes| && (k != i || s.inodes == s0.inodes)
      ensures Synced(sb, s, k)
    {
      IBlockIsMeta(sb, k);
      assert Synced(sb, s0, k);
    }
  }

  function Resized(s: St, i: nat, size: nat): St
    requires i < |s.inodes|
  {
    s.(inodes := s.inodes[i := s.inodes[i].(size := size)])
  }

  lemma ResizedSync(sb: Super, s: St, i: nat, size: nat)
    requires i < |s.inodes|
    requires forall k :: 0 <= k < |s.inodes| && k != i ==> Synced(sb, s, k)
    ensures forall k :: 0 <= k < |s.inodes| && k != i ==> Synced(sb, Resized(s, i, size), k)
  {
    forall k | 0 <= k < |s.inodes| && k != i
      ensures Synced(sb, Resized(s, i, size), k)
    {
      assert Synced(sb, s, k);
    }
  }

  lemma ResizedBytes(bd: Build, s0: St, s: St, i: nat, off: nat, src: seq<byte>, size: nat)
    requires i < |s.inodes| && WroteBytes(bd, s0, s, i, off, src, |src|)
    ensures WroteBytes(bd, s0, Resized(s, i, size), i, off, src, |src|)
  {
    var t := Resized(s, i, size);
    assert forall k: nat, q: nat :: HasByte(bd, t, k, q) == HasByte(bd, s, k, q);
    assert forall k: nat, q: nat :: ByteAt(bd, t, k, q) == ByteAt(bd, s, k, q);
    hide ByteAt, HasByte;
  }

  lemma GrownSize(bd: Build, sb: Super, s0: St, s: St, i: nat, off: nat, src: seq<byte>, last: nat)
    requires Wf(bd, sb, s0) && Wf(bd, sb, s) && AllSynced(sb, s0) && i < |s0.inodes|
    requires off <= s0.inodes[i].size < off + |src| <= Cap(bd) * BSIZE
    requires Written(bd, sb, s0, s, i, off, src, |src|, last)
    ensures |s.inodes| == |s0.inodes| && s.inodes[i].size == s0.inodes[i].size
    ensures IBlock(sb, i) < |s.data| && |s.inodes[i].addrs| == NADDRS
    ensures WriteDone(bd, sb, s0, Updated(sb, Resized(s, i, off + |src|), i), i, off, src, last)
  {
    hide Wf, AllSynced, WroteBytes, WroteInodes, WroteLog, Bytes, Updated, Synced, OnlyFile, FilesAre, DoneLog;
    WroteOnly(sb, s0, s, i, off + |src|, off + |src|);
    var t := Resized(s, i, off + |src|);
    SizedWf(bd, sb, s0, s, i, off, src);
    KeptSync(bd, sb, s0, s, i, off + |src|);
    ResizedSync(sb, s, i, off + |src|);
    ResizedBytes(bd, s0, s, i, off, src, off + |src|);
    ResizedLog(bd, sb, s0, s, i, off / BSIZE, last, off + |src|);
    UpdatedWf(bd, sb, t, i);
    UpdatedSync(bd, sb, t, i);
    UpdatedBytes(bd, sb, s0, t, i, off, src);
    UpdatedLog(bd, sb, s0, t, i, off / BSIZE, last);
    UpdatedLeaves(bd, sb, s, i, off, |src|, off + |src|);
    UpdatedOnly(sb, s0, t, i);
    WrittenFiles(bd, sb, s0, Updated(sb, t, i), i, off, src);
  }

  lemma ResizedLog(bd: Build, sb: Super, s0: St, s: St, i: nat, lo: nat, hi: nat, size: nat)
    requires WroteLog(bd, sb, s0, s, i, lo, hi) && i < |s.inodes|
    ensures WroteLog(bd, sb, s0, Resized(s, i, size), i, lo, hi)
  {
    hide Touches, IsLeaf, FromMap, Stirred, NewLogged, TreeKept, Noted;
  }

  lemma UpdatedLeaves(bd: Build, sb: Super, s: St, i: nat, off: nat, tot: nat, size: nat)
    requires WroteLeaves(bd, s, i, off, tot) && i < |s.inodes|
    requires IBlock(sb, i) < |s.data| && |s.inodes[i].addrs| == NADDRS
    ensures WroteLeaves(bd, Updated(sb, Resized(s, i, size), i), i, off, tot)
  {
    hide PutInode, Path, Cap;
    forall q: nat | off <= q < off + tot
      ensures ByteLogged(bd, Updated(sb, Resized(s, i, size), i), i, q)
    {
      assert ByteLogged(bd, s, i, q);
    }
  }

  lemma UpdatedOnly(sb: Super, s0: St, t: St, i: nat)
    requires i < |s0.inodes| && OnlyFile(s0, t, i)
    requires i < |t.inodes| && IBlock(sb, i) < |t.data| && |t.inodes[i].addrs| == NADDRS
    ensures OnlyFile(s0, Updated(sb, t, i), i)
  {
  }

  lemma UpdatedBytes(bd: Build, sb: Super, s0: St, t: St, i: nat, off: nat, src: seq<byte>)
    requires Wf(bd, sb, t) && i < |t.inodes|
    requires IBlock(sb, i) < |t.data| && |t.inodes[i].addrs| == NADDRS
    requires WroteBytes(bd, s0, t, i, off, src, |src|)
    ensures WroteBytes(bd, s0, Updated(sb, t, i), i, off, src, |src|)
    ensures Updated(sb, t, i).inodes == t.inodes && Updated(sb, t, i).owner == t.owner
    ensures Updated(sb, t, i).logged == t.logged + {IBlock(sb, i)}
  {
    var u := Updated(sb, t, i);
    forall k: nat, q: nat | HasByte(bd, t, k, q)
      ensures HasByte(bd, u, k, q) && ByteAt(bd, u, k, q) == ByteAt(bd, t, k, q)
    {
      UpdatedByte(bd, sb, t, i, k, q);
    }
    hide ByteAt, Updated;
  }

  /** `off + n < off` in 32-bit arithmetic. */
  predicate Wraps(off: nat, n: nat) {
    (off + n) % UINT < off
  }

  lemma WrapsIff(off: nat, n: nat)
    requires off < UINT && n < UINT
    ensures Wraps(off, n) <==> off + n >= UINT
  {
  }

  /** The last block a range touches. */
  function LastBlock(off: nat, n: nat): (last: nat)
    ensures off / BSIZE <= last && last * BSIZE + BSIZE >= off + n
  {
    if n == 0 then off / BSIZE else (off + n - 1) / BSIZE
  }

  /** The ranges writei refuses: past the end of the file, wrapping around, or over the size limit. */
  predicate Refused(size: nat, off: nat, n: nat, maxFile: nat) {
    off > size || off + n >= UINT || off + n > maxFile * BSIZE
  }

  lemma SizedWritten(bd: Build, sb: Super, s0: St, s: St, i: nat, off: nat, src: seq<byte>, last: nat)
    requires Wf(bd, sb, s0) && Wf(bd, sb, s) && i < |s0.inodes|
    requires off <= s0.inodes[i].size < off + |src| <= Cap(bd) * BSIZE
    requires Written(bd, sb, s0, s, i, off, src, |src|, last)
    ensures i < |s.inodes| && Wf(bd, sb, Resized(s, i, off + |src|))
  {
    WroteShape(sb, s0, s, i, off + |src|);
    SizedWf(bd, sb, s0, s, i, off, src);
  }

  lemma SizeKept(bd: Build, sb: Super, s0: St, s: St, i: nat, off: nat, src: seq<byte>, tot: nat, last: nat)
    requires i < |s0.inodes| && Written(bd, sb, s0, s, i, off, src, tot, last)
    ensures |s.inodes| == |s0.inodes| && s.inodes[i].size == s0.inodes[i].size
  {
  }

  /** What readi appends in one turn of its loop. */
  lemma ReadStep(bd: Build, s: St, i: nat, off: nat, tot: nat, m: nat)
    requires i < |s.inodes| && off + tot + m <= s.inodes[i].size
    requires (off + tot) % BSIZE + m <= BSIZE
    ensures |File(bd, s, i)| == s.inodes[i].size
    ensures File(bd, s, i)[off..off + tot]
            + At(s.data, LeafBlock(bd, s.tree, i, (off + tot) / BSIZE))[(off + tot) % BSIZE..(off + tot) % BSIZE + m]
         == File(bd, s, i)[off..off + tot + m]
  {
    var a := At(s.data, LeafBlock(bd, s.tree, i, (off + tot) / BSIZE));
    var o := (off + tot) % BSIZE;
    var f := File(bd, s, i);
    forall q | off + tot <= q < off + tot + m
      ensures f[q] == a[q - (off + tot) + o]
    {
      assert q / BSIZE == (off + tot) / BSIZE && q % BSIZE == q - (off + tot) + o;
    }
    assert a[o..o + m] == f[off + tot..off + tot + m];
    assert f[off..off + tot] + f[off + tot..off + tot + m] == f[off..off + tot + m];
  }

  lemma FileLength(bd: Build, s: St, i: nat)
    requires i < |s.inodes|
    ensures |File(bd, s, i)| == s.inodes[i].size
  {
  }

  // ---- truncation ----

  /** The order in which itrunc frees a project1 file: direct slots below `k`, then what the indirect block
      points to below `j`, and last (k = 13) the indirect block. */
  predicate Gone(p: seq<nat>, k: nat, j: nat) {
    (|p| == 1 && p[0] < k) || (|p| == 2 && p[0] == 12 && p[1] < j)
  }

  lemma GoneNext(p: seq<nat>, k: nat, j: nat)
    ensures Gone(p, k + 1, j) <==> Gone(p, k, j) || p == [k]
    ensures Gone(p, k, j + 1) <==> Gone(p, k, j) || p == [12, j]
  {
  }

  /** The free map while file `i` is being freed. */
  ghost predicate BitsWithout(sb: Super, data: seq<Block>, owner: Owner, i: nat, k: nat, j: nat) {
    && SuperOk(sb) && |data| == sb.size
    && forall b :: 0 <= b < sb.size ==>
         (Bit(sb, data, b) <==> b < Meta(sb) || (b in owner && !(owner[b].inum == i && Gone(owner[b].path, k, j))))
  }

  function Without(tree: Tree, i: nat): Tree {
    map n | n in tree && n.inum != i :: tree[n]
  }

  function OwnerWithout(owner: Owner, i: nat): Owner {
    map b | b in owner && owner[b].inum != i :: owner[b]
  }

  /** The first `k` addresses cleared. */
  function Cleared(addrs: seq<nat>, k: nat): (r: seq<nat>)
    requires k <= |addrs|
    ensures |r| == |addrs|
    ensures forall j :: 0 <= j < |addrs| ==> r[j] == if j < k then 0 else addrs[j]
  {
    seq(k, j => 0) + addrs[k..]
  }

  lemma ClearedNext(addrs: seq<nat>, k: nat)
    requires k < |addrs|
    ensures Cleared(addrs, k)[k := 0] == Cleared(addrs, k + 1)
    ensures addrs[k] == 0 ==> Cleared(addrs, k) == Cleared(addrs, k + 1)
    ensures Cleared(addrs, 0) == addrs
  {
  }

  function NoAddrs(): (r: seq<nat>)
    ensures |r| == NADDRS && forall k :: 0 <= k < NADDRS ==> r[k] == 0
  {
    seq(NADDRS, k => 0)
  }

  /** File `i` emptied. */
  ghost function Emptied(s: St, data: seq<Block>, logged: set<nat>, i: nat): St
    requires i < |s.inodes|
  {
    St(data, s.inodes[i := s.inodes[i].(addrs := NoAddrs(), size := 0)], Without(s.tree, i), OwnerWithout(s.owner, i),
       logged)
  }

  /** From (k, j) to (k1, j1) exactly the path `p` goes. */
  ghost predicate GoesNext(p: seq<nat>, k: nat, j: nat, k1: nat, j1: nat) {
    !Gone(p, k, j) && ((k1 == k + 1 && j1 == j && p == [k]) || (k1 == k && j1 == j + 1 && p == [12, j]))
  }

  lemma DirectIsIndex(bd: Build, i: nat)
    ensures bd.Project1? ==> IsIndex(bd, Node(i, [12]))
  {
  }

  lemma GoesNow(p: seq<nat>, k: nat, j: nat, k1: nat, j1: nat)
    requires GoesNext(p, k, j, k1, j1)
    ensures !Gone(p, k, j)
  {
  }

  lemma GoesOrder(k: nat, j: nat)
    ensures k < 12 ==> GoesNext([k], k, 0, k + 1, 0)
    ensures GoesNext([12, j], 12, j, 12, j + 1)
    ensures GoesNext([12], 12, 128, 13, 128)
    ensures !Gone([12], 12, j)
  {
  }

  /** Freeing the block of the next path. */
  lemma FreeNode(bd: Build, sb: Super, s: St, data: seq<Block>, i: nat, k: nat, j: nat, p: seq<nat>, k1: nat, j1: nat,
                 d: seq<Block>)
    requires TreeOk(bd, sb, s.tree, s.owner) && BitsWithout(sb, data, s.owner, i, k, j)
    requires Node(i, p) in s.tree && GoesNext(p, k, j, k1, j1)
    requires |d| == sb.size
    requires forall c :: 0 <= c < sb.size ==> (Bit(sb, d, c) <==> c != s.tree[Node(i, p)] && Bit(sb, data, c))
    ensures BitsWithout(sb, d, s.owner, i, k1, j1)
  {
    forall b | 0 <= b < sb.size
      ensures Bit(sb, d, b) <==>
                || b < Meta(sb)
                || (b in s.owner && !(s.owner[b].inum == i && Gone(s.owner[b].path, k1, j1)))
    {
      if b in s.owner {
        GoneNext(s.owner[b].path, k, j);
      }
    }
  }

  lemma SkipNode(bd: Build, sb: Super, s: St, data: seq<Block>, i: nat, k: nat, j: nat, p: seq<nat>, k1: nat, j1: nat)
    requires TreeOk(bd, sb, s.tree, s.owner) && BitsWithout(sb, data, s.owner, i, k, j)
    requires Node(i, p) !in s.tree && GoesNext(p, k, j, k1, j1)
    ensures BitsWithout(sb, data, s.owner, i, k1, j1)
  {
    forall b | 0 <= b < sb.size
      ensures Bit(sb, data, b) <==>
                || b < Meta(sb)
                || (b in s.owner && !(s.owner[b].inum == i && Gone(s.owner[b].path, k1, j1)))
    {
      if b in s.owner {
        GoneNext(s.owner[b].path, k, j);
        assert s.owner[b] != Node(i, p);
      }
    }
  }

  lemma EmptiedTree(bd: Build, sb: Super, s: St, i: nat)
    requires TreeOk(bd, sb, s.tree, s.owner)
    ensures TreeOk(bd, sb, Without(s.tree, i), OwnerWithout(s.owner, i))
  {
  }

  lemma EmptiedIndex(bd: Build, sb: Super, s: St, data: seq<Block>, i: nat)
    requires TreeOk(bd, sb, s.tree, s.owner) && IndexOk(bd, s.data, s.tree)
    requires |s.data| == |data| && forall c :: Meta(sb) <= c < |data| ==> data[c] == s.data[c]
    ensures IndexOk(bd, data, Without(s.tree, i))
  {
    var t := Without(s.tree, i);
    forall n, j | n in t && IsIndex(bd, n) && 0 <= j < NINDIRECT
      ensures Word(At(data, t[n]), j) == Ptr(t, Kid(n, j))
    {
      assert Word(At(s.data, s.tree[n]), j) == Ptr(s.tree, Kid(n, j));
      assert Kid(n, j).inum == n.inum;
    }
  }

  lemma EmptiedRoots(sb: Super, s: St, i: nat)
    requires RootsOk(sb, s.inodes, s.tree) && i < |s.inodes|
    ensures RootsOk(sb, s.inodes[i := s.inodes[i].(addrs := NoAddrs(), size := 0)], Without(s.tree, i))
  {
    var r, t := s.inodes[i := s.inodes[i].(addrs := NoAddrs(), size := 0)], Without(s.tree, i);
    forall k | 0 <= k < |r|
      ensures RootsOf(r[k].addrs, k, t)
    {
      assert RootsOf(s.inodes[k].addrs, k, s.tree);
    }
  }

  lemma EmptiedCovered(bd: Build, s: St, i: nat)
    requires Covered(bd, s.inodes, s.tree) && i < |s.inodes|
    ensures Covered(bd, s.inodes[i := s.inodes[i].(addrs := NoAddrs(), size := 0)], Without(s.tree, i))
  {
    var r, t := s.inodes[i := s.inodes[i].(addrs := NoAddrs(), size := 0)], Without(s.tree, i);
    forall k | 0 <= k < |r| && k != i
      ensures CoveredTo(bd, t, k, r[k].size)
    {
      assert CoveredTo(bd, s.tree, k, s.inodes[k].size);
    }
  }

  /** With every node of file `i` gone, the free map is that of the tree without the file. */
  lemma EmptiedWf(bd: Build, sb: Super, s: St, data: seq<Block>, logged: set<nat>, i: nat)
    requires Wf(bd, sb, s) && i < |s.inodes|
    requires BitsWithout(sb, data, s.owner, i, 13, 128)
    requires forall n :: n in s.tree && n.inum == i ==> Gone(n.path, 13, 128)
    requires forall c :: 0 <= c < sb.size && !(sb.bmapstart <= c < Meta(sb)) ==> data[c] == s.data[c]
    ensures Wf(bd, sb, Emptied(s, data, logged, i))
  {
    EmptiedTree(bd, sb, s, i);
    EmptiedIndex(bd, sb, s, data, i);
    EmptiedRoots(sb, s, i);
    EmptiedCovered(bd, s, i);
    EmptiedBits(bd, sb, s, data, i);
  }

  lemma EmptiedBits(bd: Build, sb: Super, s: St, data: seq<Block>, i: nat)
    requires TreeOk(bd, sb, s.tree, s.owner)
    requires BitsWithout(sb, data, s.owner, i, 13, 128)
    requires forall n :: n in s.tree && n.inum == i ==> Gone(n.path, 13, 128)
    ensures BitmapOk(sb, data, OwnerWithout(s.owner, i))
  {
  }

  /** Emptying one file touches no byte of another. */
  lemma EmptiedByte(bd: Build, sb: Super, s: St, data: seq<Block>, logged: set<nat>, i: nat, k: nat, q: nat)
    requires Wf(bd, sb, s) && i < |s.inodes| && k != i && HasByte(bd, s, k, q)
    requires |data| == sb.size
    requires forall c :: 0 <= c < sb.size && !(sb.bmapstart <= c < Meta(sb)) ==> data[c] == s.data[c]
    ensures HasByte(bd, Emptied(s, data, logged, i), k, q)
    ensures ByteAt(bd, Emptied(s, data, logged, i), k, q) == ByteAt(bd, s, k, q)
  {
    LeafPlace(bd, sb, s, k, q / BSIZE);
  }

  /** What itrunc has done so far: the blocks up to (k, j) are free, nothing outside the free map has changed,
      only the free map has been logged, and every block that has changed is logged. */
  ghost predicate Freeing(sb: Super, s: St, data: seq<Block>, logged: set<nat>, i: nat, k: nat, j: nat) {
    && BitsWithout(sb, data, s.owner, i, k, j)
    && |s.data| == sb.size
    && (forall c :: 0 <= c < sb.size && !(sb.bmapstart <= c < Meta(sb)) ==> data[c] == s.data[c])
    && Noted(s.data, s.logged, data, logged)
    && (forall x :: x in logged && x !in s.logged ==> sb.bmapstart <= x < Meta(sb))
  }

  lemma WfTree(bd: Build, sb: Super, s: St)
    requires Wf(bd, sb, s)
    ensures TreeOk(bd, sb, s.tree, s.owner)
  {
  }

  lemma FreeingStart(bd: Build, sb: Super, s: St, i: nat)
    requires Wf(bd, sb, s)
    ensures Freeing(sb, s, s.data, s.logged, i, 0, 0)
  {
    forall b | 0 <= b < sb.size && b in s.owner
      ensures !Gone(s.owner[b].path, 0, 0)
    {
    }
  }

  lemma FreeingStep(bd: Build, sb: Super, s: St, d: seq<Block>, l: set<nat>, i: nat, k: nat, j: nat, p: seq<nat>,
                    k1: nat, j1: nat, d': seq<Block>, l': set<nat>)
    requires Wf(bd, sb, s) && Freeing(sb, s, d, l, i, k, j)
    requires Node(i, p) in s.tree && GoesNext(p, k, j, k1, j1)
    requires var b := s.tree[Node(i, p)];
             && b < sb.size && |d'| == sb.size && l' == l + {BBlock(sb, b)}
             && (forall c :: 0 <= c < sb.size ==> (Bit(sb, d', c) <==> c != b && Bit(sb, d, c)))
             && (forall c :: 0 <= c < sb.size && c != BBlock(sb, b) ==> d'[c] == d[c])
    ensures Freeing(sb, s, d', l', i, k1, j1)
  {
    hide Wf, TreeOk, BitsWithout, Bit, GoesNext;
    FreeingBit(bd, sb, s, d, l, i, k, j, p);
    BBlockIsMeta(sb, s.tree[Node(i, p)]);
    WfTree(bd, sb, s);
    FreeNode(bd, sb, s, d, i, k, j, p, k1, j1, d');
  }

  lemma FreeingSkip(bd: Build, sb: Super, s: St, d: seq<Block>, l: set<nat>, i: nat, k: nat, j: nat, p: seq<nat>,
                    k1: nat, j1: nat)
    requires Wf(bd, sb, s) && Freeing(sb, s, d, l, i, k, j) && Node(i, p) !in s.tree && GoesNext(p, k, j, k1, j1)
    ensures Freeing(sb, s, d, l, i, k1, j1)
  {
    SkipNode(bd, sb, s, d, i, k, j, p, k1, j1);
  }

  /** A block that is not yet gone has its bit set, and no block of the file has been overwritten. */
  lemma FreeingBit(bd: Build, sb: Super, s: St, d: seq<Block>, l: set<nat>, i: nat, k: nat, j: nat, p: seq<nat>)
    requires Wf(bd, sb, s) && Freeing(sb, s, d, l, i, k, j) && Node(i, p) in s.tree
    ensures SuperOk(sb) && |d| == sb.size && Meta(sb) <= s.tree[Node(i, p)] < sb.size
    ensures d[s.tree[Node(i, p)]] == s.data[s.tree[Node(i, p)]]
    ensures !Gone(p, k, j) ==> Bit(sb, d, s.tree[Node(i, p)])
  {
  }

  /** What itrunc leaves, before the inode goes to disk. */
  lemma FreeingEnd(bd: Build, sb: Super, s: St, d: seq<Block>, l: set<nat>, i: nat)
    requires bd.Project1? && Wf(bd, sb, s) && AllSynced(sb, s) && i < |s.inodes|
    requires Freeing(sb, s, d, l, i, 13, 128)
    ensures Wf(bd, sb, Emptied(s, d, l, i))
    ensures forall k :: 0 <= k < |s.inodes| && k != i ==> Synced(sb, Emptied(s, d, l, i), k)
    ensures FilesAre(bd, s, Emptied(s, d, l, i), i, [])
    ensures forall x :: x in l && x !in s.logged ==> sb.bmapstart <= x < Meta(sb)
    ensures Noted(s.data, s.logged, Emptied(s, d, l, i).data, l)
  {
    forall n | n in s.tree && n.inum == i
      ensures Gone(n.path, 13, 128)
    {
      assert NodeOk(bd, sb.ninodes, n);
    }
    EmptiedWf(bd, sb, s, d, l, i);
    EmptiedSync(bd, sb, s, d, l, i);
    forall k | 0 <= k < |s.inodes| && k != i
      ensures File(bd, Emptied(s, d, l, i), k) == File(bd, s, k)
    {
      EmptiedFile(bd, sb, s, d, l, i, k);
    }
  }

  lemma EmptiedSync(bd: Build, sb: Super, s: St, d: seq<Block>, l: set<nat>, i: nat)
    requires Wf(bd, sb, s) && AllSynced(sb, s) && i < |s.inodes| && |d| == sb.size
    requires forall c :: 0 <= c < sb.size && !(sb.bmapstart <= c < Meta(sb)) ==> d[c] == s.data[c]
    ensures forall k :: 0 <= k < |s.inodes| && k != i ==> Synced(sb, Emptied(s, d, l, i), k)
  {
    forall k | 0 <= k < |s.inodes| && k != i
      ensures Synced(sb, Emptied(s, d, l, i), k)
    {
      IBlockIsMeta(sb, k);
      assert Synced(sb, s, k);
    }
  }

  lemma EmptiedFile(bd: Build, sb: Super, s: St, d: seq<Block>, l: set<nat>, i: nat, k: nat)
    requires Wf(bd, sb, s) && i < |s.inodes| && k < |s.inodes| && k != i && |d| == sb.size
    requires forall c :: 0 <= c < sb.size && !(sb.bmapstart <= c < Meta(sb)) ==> d[c] == s.data[c]
    ensures File(bd, Emptied(s, d, l, i), k) == File(bd, s, k)
  {
    var f, g := File(bd, Emptied(s, d, l, i), k), File(bd, s, k);
    forall q | 0 <= q < |g|
      ensures f[q] == g[q]
    {
      SizeBacked(bd, sb, s, k, q);
      EmptiedByte(bd, sb, s, d, l, i, k, q);
    }
  }

  /** iupdate changes the content of no file. */
  lemma UpdatedFiles(bd: Build, sb: Super, s0: St, t: St, i: nat, content: seq<byte>)
    requires Wf(bd, sb, t) && i < |s0.inodes| && FilesAre(bd, s0, t, i, content)
    ensures IBlock(sb, i) < |t.data| && |t.inodes[i].addrs| == NADDRS
    ensures FilesAre(bd, s0, Updated(sb, t, i), i, content)
    ensures Updated(sb, t, i) == t.(data := Updated(sb, t, i).data, logged := t.logged + {IBlock(sb, i)})
  {
    UpdatedWf(bd, sb, t, i);
    var u := Updated(sb, t, i);
    forall k | 0 <= k < |t.inodes|
      ensures File(bd, u, k) == File(bd, t, k)
    {
      forall q | 0 <= q < t.inodes[k].size
        ensures File(bd, u, k)[q] == File(bd, t, k)[q]
      {
        SizeBacked(bd, sb, t, k, q);
        UpdatedByte(bd, sb, t, i, k, q);
      }
      assert File(bd, u, k) == File(bd, t, k);
    }
  }

  /** A file without an indirect block has nothing behind it either. */
  lemma {:induction false} NoIndirect(bd: Build, sb: Super, s: St, d: seq<Block>, l: set<nat>, i: nat, j: nat)
    requires Wf(bd, sb, s) && Node(i, [12]) !in s.tree && j <= 128
    requires Freeing(sb, s, d, l, i, 12, j)
    ensures Freeing(sb, s, d, l, i, 13, 128)
    decreases 128 - j
  {
    hide Wf, Freeing, GoesNext, Gone;
    GoesOrder(0, j);
    if j == 128 {
      FreeingSkip(bd, sb, s, d, l, i, 12, 128, [12], 13, 128);
    } else {
      if Node(i, [12, j]) in s.tree {
        AboveIn(bd, sb, s, i, [12], [12, j]);
      }
      FreeingSkip(bd, sb, s, d, l, i, 12, j, [12, j], 12, j + 1);
      NoIndirect(bd, sb, s, d, l, i, j + 1);
    }
  }

  // ---- writes one after the other ----

  lemma SpliceSplice(was: seq<byte>, off: nat, a: seq<byte>, b: seq<byte>)
    requires off <= |was|
    ensures |Splice(was, off, a)| == if off + |a| > |was| then off + |a| else |was|
    ensures Splice(Splice(was, off, a), off + |a|, b) == Splice(was, off, a + b)
  {
  }

  lemma SpliceNothing(was: seq<byte>, off: nat)
    requires off <= |was|
    ensures Splice(was, off, []) == was
  {
  }

  lemma DoneNoted(bd: Build, sb: Super, s0: St, s: St, i: nat, off: nat, src: seq<byte>, last: nat)
    requires i < |s0.inodes| && off <= s0.inodes[i].size
    requires WriteDone(bd, sb, s0, s, i, off, src, last)
    ensures Noted(s0.data, s0.logged, s.data, s.logged)
  {
    hide Wf, AllSynced, OnlyFile, FilesAre, WroteTo, Noted;
  }

  lemma UpdatedNoted(sb: Super, s0: St, t: St, i: nat)
    requires i < |t.inodes| && IBlock(sb, i) < |t.data| && |t.inodes[i].addrs| == NADDRS
    requires Noted(s0.data, s0.logged, t.data, t.logged)
    ensures Noted(s0.data, s0.logged, Updated(sb, t, i).data, Updated(sb, t, i).logged)
  {
    var w := PutInode(t.data[IBlock(sb, i)], i, t.inodes[i]);
    hide PutInode, Noted;
    NotedStep(t.data, t.logged, IBlock(sb, i), w);
    NotedTrans(s0.data, s0.logged, t.data, t.logged, Updated(sb, t, i).data, Updated(sb, t, i).logged);
  }

  /** Changing what an inode says besides its size and addresses changes the content of no file. */
  lemma Relabelled(bd: Build, sb: Super, s0: St, t: St, i: nat, ip: Inode, content: seq<byte>)
    requires Wf(bd, sb, t) && AllSynced(sb, t) && i < |s0.inodes| && FilesAre(bd, s0, t, i, content)
    requires ip == t.inodes[i].(typ := ip.typ, nlink := ip.nlink)
    ensures var u := t.(inodes := t.inodes[i := ip]);
            && Wf(bd, sb, u) && FilesAre(bd, s0, u, i, content)
            && (forall k :: 0 <= k < |u.inodes| && k != i ==> Synced(sb, u, k))
  {
    var u := t.(inodes := t.inodes[i := ip]);
    forall k | 0 <= k < |t.inodes|
      ensures File(bd, u, k) == File(bd, t, k)
    {
    }
    forall k | 0 <= k < |u.inodes| && k != i
      ensures Synced(sb, u, k)
    {
      assert Synced(sb, t, k);
    }
  }

  lemma SameFiles(bd: Build, s: St, i: nat)
    requires i < |s.inodes|
    ensures FilesAre(bd, s, s, i, File(bd, s, i))
  {
  }

  lemma NothingWritten(bd: Build, s: St, i: nat, off: nat, src: seq<byte>)
    requires i < |s.inodes| && off <= s.inodes[i].size
    ensures FilesAre(bd, s, s, i, Splice(File(bd, s, i), off, src[..0]))
  {
    SpliceNothing(File(bd, s, i), off);
  }

  /** Which blocks are logged matters to none of this. */
  lemma Relogged(bd: Build, sb: Super, s0: St, s: St, l: set<nat>, i: nat, content: seq<byte>)
    requires i < |s0.inodes|
    ensures Wf(bd, sb, s.(logged := l)) == Wf(bd, sb, s)
    ensures AllSynced(sb, s) ==> AllSynced(sb, s.(logged := l))
    ensures FilesAre(bd, s0, s, i, content) ==> FilesAre(bd, s0, s.(logged := l), i, content)
  {
    var t := s.(logged := l);
    if AllSynced(sb, s) {
      forall k | 0 <= k < |t.inodes|
        ensures Synced(sb, t, k)
      {
        assert Synced(sb, s, k);
      }
    }
    forall k | 0 <= k < |s.inodes|
      ensures File(bd, t, k) == File(bd, s, k)
    {
    }
  }

  lemma WriteDoneFacts(bd: Build, sb: Super, s0: St, s: St, i: nat, off: nat, src: seq<byte>, last: nat)
    requires i < |s0.inodes| && off <= s0.inodes[i].size
    requires WriteDone(bd, sb, s0, s, i, off, src, last)
    ensures Wf(bd, sb, s) && AllSynced(sb, s) && |s.inodes| == |s0.inodes|
    ensures FilesAre(bd, s0, s, i, Splice(File(bd, s0, i), off, src))
  {
  }

  /** Two consecutive writes are one write of both. */
  lemma ChunkWritten(bd: Build, sb: Super, s0: St, s: St, s': St, i: nat, off: nat, src: seq<byte>, done: nat, n1: nat)
    requires i < |s0.inodes| && off <= s0.inodes[i].size && done + n1 <= |src|
    requires FilesAre(bd, s0, s, i, Splice(File(bd, s0, i), off, src[..done]))
    requires off + done <= s.inodes[i].size
    requires FilesAre(bd, s, s', i, Splice(File(bd, s, i), off + done, src[done..done + n1]))
    ensures FilesAre(bd, s0, s', i, Splice(File(bd, s0, i), off, src[..done + n1]))
  {
    SpliceSplice(File(bd, s0, i), off, src[..done], src[done..done + n1]);
    assert src[..done] + src[done..done + n1] == src[..done + n1];
  }

  // ---- the transactions of one call ----

  /** One transaction of filewrite: the states around it and the write it carries out. */
  datatype Tx = Tx(before: St, after: St, off: nat, src: seq<byte>)

  /** It begins with an empty log and a sound state and does one write of at most 1536 bytes. */
  ghost predicate TxOk(bd: Build, sb: Super, i: nat, tx: Tx) {
    && Wf(bd, sb, tx.before) && AllSynced(sb, tx.before) && tx.before.logged == {}
    && i < |tx.before.inodes| && tx.off <= tx.before.inodes[i].size && 0 < |tx.src| <= 1536
    && WriteDone(bd, sb, tx.before, tx.after, i, tx.off, tx.src, LastBlock(tx.off, |tx.src|))
    && Noted(tx.before.data, {}, tx.after.data, tx.after.logged)
  }

  function Begun(s: St): St {
    s.(logged := {})
  }

  /** Each transaction begins where the one before it ended; they lead from `s0` to `s`. */
  ghost predicate Chained(s0: St, txs: seq<Tx>, s: St) {
    && (forall k :: 0 <= k < |txs| ==> txs[k].before == AfterTx(s0, txs, k))
    && Begun(s) == AfterTx(s0, txs, |txs|)
  }

  /** The state in which transaction number `k` begins. */
  function AfterTx(s0: St, txs: seq<Tx>, k: nat): St
    requires k <= |txs|
  {
    if k == 0 then Begun(s0) else Begun(txs[k - 1].after)
  }

  function Upto(n: nat, k: nat): nat {
    if 1536 * k < n then 1536 * k else n
  }

  /** Transaction number `k` writes the `k`-th 1536 bytes. */
  predicate Carries(tx: Tx, off: nat, src: seq<byte>, k: nat) {
    tx.off == off + 1536 * k && tx.src == src[Upto(|src|, k)..Upto(|src|, k + 1)]
  }

  lemma UptoNone(n: nat)
    ensures Upto(n, 0) == 0
  {
  }

  lemma UptoNext(n: nat, k: nat)
    ensures Upto(n, k + 1) == if 1536 * (k + 1) < n then 1536 * (k + 1) else n
    ensures Upto(n, k) <= n && Upto(n, k) <= Upto(n, k + 1)
    ensures Upto(n, k) < n ==>
              Upto(n, k) == 1536 * k
              && Upto(n, k + 1) == Upto(n, k) + if n - Upto(n, k) > 1536 then 1536 else n - Upto(n, k)
  {
  }

  lemma ShareCarried(tx: Tx, off: nat, src: seq<byte>, k: nat)
    requires Upto(|src|, k) < |src| && tx.off == off + Upto(|src|, k)
    requires Upto(|src|, k) + |tx.src| <= |src|
    requires |tx.src| == if |src| - Upto(|src|, k) > 1536 then 1536 else |src| - Upto(|src|, k)
    requires tx.src == src[Upto(|src|, k)..Upto(|src|, k) + |tx.src|]
    ensures Carries(tx, off, src, k)
  {
    hide Upto;
    UptoNext(|src|, k);
  }

  lemma ChainNone(s: St)
    ensures Chained(s, [], s)
  {
  }

  lemma ChainNext(s0: St, txs: seq<Tx>, s: St, tx: Tx)
    requires Chained(s0, txs, s) && tx.before == Begun(s)
    ensures Chained(s0, txs + [tx], tx.after)
  {
    var ts := txs + [tx];
    AfterTxKept(s0, txs, tx);
    hide AfterTx, Begun;
    forall k | 0 <= k < |ts|
      ensures ts[k].before == AfterTx(s0, ts, k)
    {
      assert AfterTx(s0, ts, k) == AfterTx(s0, txs, k);
      if k < |txs| {
        assert txs[k].before == AfterTx(s0, txs, k);
      }
    }
  }

  lemma AfterTxKept(s0: St, txs: seq<Tx>, tx: Tx)
    ensures forall k: nat :: k <= |txs| ==> AfterTx(s0, txs + [tx], k) == AfterTx(s0, txs, k)
    ensures AfterTx(s0, txs + [tx], |txs + [tx]|) == Begun(tx.after)
  {
    hide Begun;
  }

  /** begin_op changes nothing but the list of logged blocks. */
  lemma BegunSame(bd: Build, sb: Super, s: St)
    ensures Wf(bd, sb, Begun(s)) == Wf(bd, sb, s) && (AllSynced(sb, s) ==> AllSynced(sb, Begun(s)))
    ensures forall k :: 0 <= k < |s.inodes| ==> File(bd, Begun(s), k) == File(bd, s, k)
  {
    if |s.inodes| > 0 {
      Relogged(bd, sb, s, s, {}, 0, []);
    }
    forall k | 0 <= k < |s.inodes|
      ensures File(bd, Begun(s), k) == File(bd, s, k)
    {
    }
  }

  lemma BegunFiles(bd: Build, s: St, s': St, i: nat, content: seq<byte>)
    requires i < |s.inodes| && FilesAre(bd, Begun(s), s', i, content)
    ensures FilesAre(bd, s, s', i, content)
    ensures File(bd, Begun(s), i) == File(bd, s, i)
  {
    forall k | 0 <= k < |s.inodes|
      ensures File(bd, Begun(s), k) == File(bd, s, k)
    {
    }
  }

  /** A refused chunk leaves everything as it was. */
  lemma Refusal(bd: Build, sb: Super, s0: St, txs: seq<Tx>, s: St, i: nat, content: seq<byte>)
    requires Chained(s0, txs, s) && i < |s0.inodes|
    ensures Chained(s0, txs, Begun(s)) && Wf(bd, sb, Begun(s)) == Wf(bd, sb, s)
    ensures AllSynced(sb, s) ==> AllSynced(sb, Begun(s))
    ensures FilesAre(bd, s0, s, i, content) ==> FilesAre(bd, s0, Begun(s), i, content)
  {
    hide Wf, AllSynced, FilesAre;
    Relogged(bd, sb, s0, s, {}, i, content);
  }

  // ---- an empty file system ----

  predicate FreshMap(buf: Block, used: nat) {
    forall c :: 0 <= c < BPB ==> (BitIn(buf, c) <==> c < used)
  }

  lemma {:induction false} ZeroBit(k: nat)
    ensures !BitOf(0, k)
  {
    if k > 0 {
      ZeroBit(k - 1);
    }
  }

  lemma FreshMapNone()
    ensures FreshMap(ZeroBlock(), 0)
  {
    forall c | 0 <= c < BPB
      ensures !BitIn(ZeroBlock(), c)
    {
      ZeroBit(c % 8);
    }
  }

  lemma FreshMapNext(buf: Block, used: nat)
    requires FreshMap(buf, used) && used < BPB
    ensures !BitIn(buf, used) && FreshMap(SetBit(buf, used), used + 1)
  {
    forall c | 0 <= c < BPB
      ensures BitIn(SetBit(buf, used), c) <==> c < used + 1
    {
      SetBitIn(buf, used, c);
    }
  }

  function Unused(): Inode {
    Inode(0, 0, 0, 0, 0, NoAddrs())
  }

  lemma {:induction false} EncodeZero(k: nat)
    ensures forall j :: 0 <= j < k ==> Encode(0, k)[j] == 0
  {
    if k > 0 {
      EncodeZero(k - 1);
    }
  }

  lemma {:induction false} EncodeZeroAddrs(addrs: seq<nat>)
    requires forall k :: 0 <= k < |addrs| ==> addrs[k] == 0
    ensures forall j :: 0 <= j < 4 * |addrs| ==> EncodeAddrs(addrs)[j] == 0
    decreases |addrs|
  {
    if addrs != [] {
      EncodeZeroAddrs(addrs[..|addrs| - 1]);
      EncodeZero(4);
    }
  }

  lemma UnusedBytes()
    ensures forall j :: 0 <= j < 64 ==> EncodeInode(Unused())[j] == 0
  {
    EncodeZero(2);
    EncodeZero(4);
    EncodeZeroAddrs(NoAddrs());
  }

  function BlankAt(sb: Super, buf: Block, b: nat): Block {
    if b == sb.bmapstart then buf else ZeroBlock()
  }

  /** A disk of zeros but for one block of free map. */
  function Blank(sb: Super, buf: Block): (d: seq<Block>)
    ensures |d| == sb.size
    ensures forall b :: 0 <= b < sb.size ==> d[b] == BlankAt(sb, buf, b)
  {
    seq(sb.size, b requires 0 <= b < sb.size => BlankAt(sb, buf, b))
  }

  function BlankSt(sb: Super, buf: Block): St {
    St(Blank(sb, buf), seq(sb.ninodes, k => Unused()), map[], map[], {})
  }

  lemma BlankBits(sb: Super, buf: Block)
    requires SuperOk(sb) && Meta(sb) < BPB && FreshMap(buf, Meta(sb))
    ensures BitmapOk(sb, Blank(sb, buf), map[])
  {
    var d := Blank(sb, buf);
    FreshMapNone();
    forall b | 0 <= b < sb.size
      ensures Bit(sb, d, b) <==> b < Meta(sb)
    {
      BBlockIsMeta(sb, b);
    }
  }

  /** It is well formed, and its inodes on disk are the unused ones in core. */
  lemma BlankWf(bd: Build, sb: Super, buf: Block)
    requires SuperOk(sb) && Meta(sb) < BPB && FreshMap(buf, Meta(sb))
    ensures Wf(bd, sb, BlankSt(sb, buf)) && AllSynced(sb, BlankSt(sb, buf))
  {
    var s := BlankSt(sb, buf);
    BlankBits(sb, buf);
    UnusedBytes();
    hide BitmapOk;
    forall k | 0 <= k < |s.inodes|
      ensures Synced(sb, s, k)
    {
      IBlockIsMeta(sb, k);
      assert InodeSlot(ZeroBlock(), k) == EncodeInode(Unused());
    }
  }
}
