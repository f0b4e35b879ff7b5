/** fs.c above the log: block allocation, bmap, reading, writing and truncating inode contents.

    `data` is what the buffer cache shows; `logged` is the set of blocks the current transaction has passed
    to log_write. A method that returns None (or false for ok) stands for a kernel panic. */
module FileSys {
  import opened Basics
  import opened Words
  import opened FsLayout
  import opened FsTree
  import opened FsSpace

  class Fs {
    const bd: Build
    const sb: Super

    var data: seq<Block>
    var inodes: seq<Inode>   // in-core inodes, locked by the caller where they change
    var logged: set<nat>

    ghost var tree: Tree
    ghost var owner: Owner

    ghost function State(): St
      reads this
    {
      St(data, inodes, tree, owner, logged)
    }

    ghost predicate Valid()
      reads this
    {
      Wf(bd, sb, State())
    }

    ghost predicate Full(d: seq<Block>)
      requires SuperOk(sb) && |d| == sb.size
    {
      forall c :: 0 <= c < sb.size ==> Bit(sb, d, c)
    }

    /** mkfs, before it adds the root directory: a zeroed disk whose map marks the metadata. */
    constructor (bd: Build, sb: Super)
      requires SuperOk(sb) && Meta(sb) < BPB
      ensures this.bd == bd && this.sb == sb && logged == {} && tree == map[] && owner == map[]
      ensures Valid() && AllSynced(sb, State())
      ensures inodes == seq(sb.ninodes, k => Unused())
      ensures |Free(sb, data)| == sb.size - Meta(sb)
    {
      hide SuperOk, Meta, Wf, FreshMap, Blank, Free, BitmapOk;
      var buf := FreeMap(Meta(sb));
      this.bd, this.sb := bd, sb;
      data, inodes := Blank(sb, buf), seq(sb.ninodes, k => Unused());
      logged, tree, owner := {}, map[], map[];
      new;
      BlankBits(sb, buf);
      BlankWf(bd, sb, buf);
      BlankFree(sb, data);
    }

    /** What ialloc and create write into a new inode. */
    method Label(i: nat, typ: nat, nlink: nat)
      requires Valid() && AllSynced(sb, State()) && i < |inodes|
      modifies `data, `inodes, `logged
      ensures Valid() && AllSynced(sb, State())
      ensures inodes == old(inodes)[i := old(inodes[i]).(typ := typ, nlink := nlink)]
      ensures FilesAre(bd, old(State()), State(), i, File(bd, old(State()), i))
      ensures logged == old(logged) + {IBlock(sb, i)} && Noted(old(data), old(logged), data, logged)
      ensures Free(sb, data) == Free(sb, old(data))
    {
      hide Wf, AllSynced, FilesAre, Updated, Noted, Free;
      ghost var s := State();
      SameFiles(bd, s, i);
      NotedSame(data, logged);
      inodes := inodes[i := inodes[i].(typ := typ, nlink := nlink)];
      Relabelled(bd, sb, s, s, i, inodes[i], File(bd, s, i));
      UpdatedSync(bd, sb, State(), i);
      UpdatedFiles(bd, sb, s, State(), i, File(bd, s, i));
      UpdatedNoted(sb, s, State(), i);
      UpdatedFree(bd, sb, State(), i);
      Iupdate(i);
    }

    // ---- the free map ----

    method Bzero(b: nat)
      requires b < |data|
      modifies `data, `logged
      ensures data == old(data)[b := ZeroBlock()] && logged == old(logged) + {b}
    {
      data := data[b := ZeroBlock()];
      logged := logged + {b};
    }

    /** The first free block, marked and zeroed; a panic if there is none. */
    method Balloc() returns (r: Option<nat>)
      requires BitmapOk(sb, data, owner)
      modifies `data, `logged
      ensures r.None? ==> Full(old(data)) && data == old(data) && logged == old(logged)
      ensures r.Some? ==> Allocated(sb, old(data), owner, r.value, data)
      ensures r.Some? ==> !Bit(sb, old(data), r.value) && forall c :: 0 <= c < r.value ==> Bit(sb, old(data), c)
      ensures r.Some? ==> logged == old(logged) + {BBlock(sb, r.value), r.value}
    {
      hide BitmapOk, Allocated, Bit, BitIn, BBlock, Meta, Aligned;
      BitmapFacts(sb, data, owner);
      AlignedNext(0);
      var b := 0;
      while b < sb.size
        invariant Aligned(b)
        invariant data == old(data) && logged == old(logged)
        invariant forall c :: 0 <= c < b && c < sb.size ==> Bit(sb, old(data), c)
      {
        var bi := 0;
        while bi < BPB && b + bi < sb.size
          invariant 0 <= bi <= BPB
          invariant data == old(data) && logged == old(logged)
          invariant forall c :: 0 <= c < b + bi && c < sb.size ==> Bit(sb, old(data), c)
        {
          BitPlace(sb, data, b, bi);
          if !BitIn(data[BBlock(sb, b)], bi) {
            Take(b + bi);
            return Some(b + bi);
          }
          bi := bi + 1;
        }
        AlignedNext(b);
        b := b + BPB;
      }
      return None;
    }

    /** Set the bit of `b`, log the bitmap block, zero the block. */
    method Take(b: nat)
      requires BitmapOk(sb, data, owner) && b < sb.size && !Bit(sb, data, b)
      modifies `data, `logged
      ensures Allocated(sb, old(data), owner, b, data)
      ensures logged == old(logged) + {BBlock(sb, b), b}
    {
      BBlockIsMeta(sb, b);
      data := data[BBlock(sb, b) := SetBit(data[BBlock(sb, b)], b % BPB)];
      logged := logged + {BBlock(sb, b)};
      ghost var mid := data;
      Bzero(b);
      forall c | 0 <= c < sb.size
        ensures Bit(sb, data, c) <==> c == b || Bit(sb, old(data), c)
      {
        SetOneBit(sb, old(data), b, c);
        OutsideBitmap(sb, mid, b, ZeroBlock(), c);
      }
    }

    /** Clear the bit of `b`; a panic if it is clear already. */
    method Bfree(b: nat) returns (ok: bool)
      requires SuperOk(sb) && |data| == sb.size && b < sb.size
      modifies `data, `logged
      ensures ok <==> Bit(sb, old(data), b)
      ensures !ok ==> data == old(data)
      ensures |data| == sb.size
      ensures ok ==> forall c :: 0 <= c < sb.size ==> (Bit(sb, data, c) <==> c != b && Bit(sb, old(data), c))
      ensures forall c :: 0 <= c < sb.size && c != BBlock(sb, b) ==> data[c] == old(data)[c]
      ensures forall c :: 0 <= c < sb.size && !(sb.bmapstart <= c < Meta(sb)) ==> data[c] == old(data)[c]
      ensures logged == if ok then old(logged) + {BBlock(sb, b)} else old(logged)
    {
      BBlockIsMeta(sb, b);
      var bi := b % BPB;
      if !BitIn(data[BBlock(sb, b)], bi) {
        return false; // panic("freeing free block")
      }
      forall c | 0 <= c < sb.size
        ensures Bit(sb, data[BBlock(sb, b) := ClearBit(data[BBlock(sb, b)], bi)], c) <==> c != b && Bit(sb, data, c)
      {
        ClearOneBit(sb, data, b, c);
      }
      data := data[BBlock(sb, b) := ClearBit(data[BBlock(sb, b)], bi)];
      logged := logged + {BBlock(sb, b)};
      ok := true;
    }

    // ---- bmap ----

    /** The block in slot `k` of inode `i`, allocated if the slot is empty. */
    method Root(i: nat, k: nat) returns (r: Option<nat>)
      requires Valid() && i < |inodes| && k < NADDRS
      modifies `data, `inodes, `logged, `tree, `owner
      ensures r.None? ==> SuperOk(sb) && |data| == sb.size && Full(data)
      ensures r.None? ==> State() == old(State()) && Free(sb, data) == {}
      ensures r.None? ==> Node(i, [k]) !in old(tree)
      ensures r.Some? ==> Reached(bd, sb, old(State()), State(), i, [k], r.value)
    {
      hide Wf, Missing, Reached, BitmapOk, Allocated, Free;
      ghost var n := Node(i, [k]);
      RootSlot(bd, sb, State(), i, k);
      var addr := inodes[i].addrs[k];
      if addr != 0 {
        ReachedHere(bd, sb, State(), i, [k]);
        return Some(addr);
      }
      r := Balloc();
      if r.None? {
        BitmapFacts(sb, data, owner);
        NoneFree(sb, data);
        return;
      }
      inodes := inodes[i := inodes[i].(addrs := inodes[i].addrs[k := r.value])];
      tree := tree[n := r.value];
      owner := owner[r.value := n];
      assert logged == old(logged) + {r.value} + {} + {BBlock(sb, r.value)};
      GrowReached(bd, sb, old(State()), n, r.value, data, State());
    }

    /** The block in slot `j` of the index block at `addr` (node `n`), allocated if the slot is empty. */
    method Index(addr: nat, j: nat, ghost n: Node) returns (r: Option<nat>)
      requires Valid() && n in tree && addr == tree[n] && IsIndex(bd, n) && j < NINDIRECT
      modifies `data, `inodes, `logged, `tree, `owner
      ensures r.None? ==> SuperOk(sb) && |data| == sb.size && Full(data)
      ensures r.None? ==> State() == old(State()) && Free(sb, data) == {}
      ensures r.None? ==> Kid(n, j) !in old(tree)
      ensures r.Some? ==> Reached(bd, sb, old(State()), State(), n.inum, n.path + [j], r.value)
    {
      hide Wf, Missing, Reached, BitmapOk, Word, SetWord, IsIndex, Allocated, Meta, Free;
      ghost var m := Kid(n, j);
      IndexSlot(bd, sb, State(), n, j);
      IndexPlace(bd, sb, State(), n, j);
      var a := data[addr];
      r := Some(Word(a, j));
      if r.value != 0 {
        ReachedHere(bd, sb, State(), n.inum, m.path);
        return;
      }
      r := Balloc();
      if r.None? {
        BitmapFacts(sb, data, owner);
        NoneFree(sb, data);
        return;
      }
      ghost var d1 := data;
      AllocatedSize(sb, old(data), owner, r.value, data);
      data := data[addr := SetWord(data[addr], j, r.value)];
      logged := logged + {addr};
      tree := tree[m := r.value];
      owner := owner[r.value := m];
      assert logged == old(logged) + {r.value} + {addr} + {BBlock(sb, r.value)};
      assert data == PutPtr(d1, addr, j, r.value) == Linked(d1, old(tree), m, r.value);
      GrowReached(bd, sb, old(State()), m, r.value, d1, State());
    }

    /** One more level of a walk that began in state `s` and has reached node `n`. */
    method Down(addr: nat, j: nat, ghost n: Node, ghost s: St) returns (r: Option<nat>)
      requires Wf(bd, sb, s) && IsIndex(bd, n) && j < NINDIRECT
      requires Reached(bd, sb, s, State(), n.inum, n.path, addr)
      modifies `data, `inodes, `logged, `tree, `owner
      ensures r.None? ==> SuperOk(sb) && |data| == sb.size && Full(data)
      ensures r.None? ==> |Free(sb, s.data)| <= |n.path|
      ensures r.None? ==> Kid(n, j) !in s.tree
      ensures r.Some? ==> Reached(bd, sb, s, State(), n.inum, n.path + [j], r.value)
    {
      hide Wf, Reached, IsIndex, Free;
      ReachedFree(bd, sb, s, State(), n.inum, n.path, addr);
      ReachedFacts(bd, sb, s, State(), n.inum, n.path, addr);
      IndexPath(bd, n);
      if Kid(n, j) in s.tree {
        ReachedKeeps(bd, sb, s, State(), n.inum, n.path, addr, Kid(n, j));
      }
      r := Index(addr, j, n);
      if r.Some? {
        ReachedTrans(bd, sb, s, old(State()), State(), n.inum, n.path, addr, j, r.value);
      }
    }

    /** The disk block of block `bn` of inode `i`, allocated with its index blocks where missing: one of the direct
        addresses, or an entry of the indirect, double or triple indirect block. A panic if `bn` is out of range or
        the disk is full. */
    method Bmap(i: nat, bn: nat) returns (r: Option<nat>)
      requires Valid() && i < |inodes|
      modifies `data, `inodes, `logged, `tree, `owner
      ensures r.None? ==> bn >= Cap(bd) || (SuperOk(sb) && |data| == sb.size && Full(data))
      ensures bn >= Cap(bd) ==> r.None?
      ensures r.None? && bn < Cap(bd) ==> |Free(sb, old(data))| < 4
      ensures r.None? ==> !HasLeaf(bd, old(tree), i, bn)
      ensures r.Some? ==> Reached(bd, sb, old(State()), State(), i, Path(bd, bn), r.value)
      ensures r.Some? ==> |inodes| == |old(inodes)| && |inodes[i].addrs| == NADDRS
      ensures r.Some? && bn < (if bd.Project1? then 12 else 10) ==> r.value == inodes[i].addrs[bn]
      ensures r.Some? && bd.Project1? && 12 <= bn ==> r.value == Entry(data, inodes[i].addrs[12], bn - 12)
      ensures r.Some? && bd.Project3? && 10 <= bn < 138 ==> r.value == Entry(data, inodes[i].addrs[10], bn - 10)
      ensures r.Some? && bd.Project3? && 138 <= bn < 16394 ==>
                r.value == Entry(data, Entry(data, inodes[i].addrs[11], (bn - 10) / 128), (bn - 10) % 128)
      ensures r.Some? && bd.Project3? && 16394 <= bn ==>
                r.value == Entry(data, Entry(data, Entry(data, inodes[i].addrs[12], (bn - 10) / 16384),
                                                   (bn - 10) % 16384 / 128), (bn - 10) % 128)
    {
      hide Wf, Reached, Full, Free, Entry, LeafBlock;
      r := Follow(i, bn);
      if r.Some? {
        LeafReached(bd, sb, old(State()), State(), i, bn, r.value);
        LeafWords(bd, sb, State(), i, bn);
        LeafIs(bd, tree, i, bn);
      }
    }

    /** The three cases of bmap, by the slots they follow. */
    method Follow(i: nat, bn: nat) returns (r: Option<nat>)
      requires Valid() && i < |inodes|
      modifies `data, `inodes, `logged, `tree, `owner
      ensures r.None? ==> bn >= Cap(bd) || (SuperOk(sb) && |data| == sb.size && Full(data))
      ensures bn >= Cap(bd) ==> r.None?
      ensures r.None? && bn < Cap(bd) ==> |Free(sb, old(data))| < 4
      ensures r.None? ==> !HasLeaf(bd, old(tree), i, bn)
      ensures r.Some? ==> Reached(bd, sb, old(State()), State(), i, Path(bd, bn), r.value)
    {
      hide Wf, Reached, Full, Free;
      var nd := NDirect(bd);
      if bn < nd {
        r := Root(i, bn);
        return;
      }
      var rest := bn - nd;
      if rest < NINDIRECT {
        r := Root(i, nd);
        if r.Some? {
          r := Down(r.value, rest, Node(i, [nd]), old(State()));
        } else if Node(i, [nd, rest]) in old(tree) {
          AboveIn(bd, sb, old(State()), i, [nd], [nd, rest]);
        }
        assert [nd] + [rest] == [nd, rest];
        return;
      }
      if bd.Project3? {
        if rest < NINDIRECT * NINDIRECT {
          r := Double(i, rest);
          return;
        }
        if rest < NINDIRECT * NINDIRECT * NINDIRECT {
          r := Triple(i, rest);
          return;
        }
      }
      return None; // panic("bmap: out of range")
    }

    method Double(i: nat, rest: nat) returns (r: Option<nat>)
      requires Valid() && i < |inodes| && bd.Project3? && NINDIRECT <= rest < NINDIRECT * NINDIRECT
      modifies `data, `inodes, `logged, `tree, `owner
      ensures r.None? ==> SuperOk(sb) && |data| == sb.size && Full(data)
      ensures r.None? ==> |Free(sb, old(data))| < 4
      ensures r.None? ==> Node(i, [11, rest / 128, rest % 128]) !in old(tree)
      ensures r.Some? ==> Reached(bd, sb, old(State()), State(), i, [11, rest / 128, rest % 128], r.value)
    {
      hide Wf, Reached, Full, Free;
      if Node(i, [11, rest / 128, rest % 128]) in old(tree) {
        AboveIn(bd, sb, State(), i, [11], [11, rest / 128, rest % 128]);
        AboveIn(bd, sb, State(), i, [11, rest / 128], [11, rest / 128, rest % 128]);
      }
      r := Root(i, NDirect(bd) + 1);
      if r.None? {
        return;
      }
      assert [11] + [rest / 128] == [11, rest / 128];
      r := Down(r.value, rest / NINDIRECT, Node(i, [11]), old(State()));
      if r.None? {
        return;
      }
      assert [11, rest / 128] + [rest % 128] == [11, rest / 128, rest % 128];
      r := Down(r.value, rest % NINDIRECT, Node(i, [11, rest / 128]), old(State()));
    }

    method Triple(i: nat, rest: nat) returns (r: Option<nat>)
      requires Valid() && i < |inodes| && bd.Project3?
                 && NINDIRECT * NINDIRECT <= rest < NINDIRECT * NINDIRECT * NINDIRECT
      modifies `data, `inodes, `logged, `tree, `owner
      ensures r.None? ==> SuperOk(sb) && |data| == sb.size && Full(data)
      ensures r.None? ==> |Free(sb, old(data))| < 4
      ensures r.None? ==> Node(i, [12, rest / 16384, rest % 16384 / 128, rest % 128]) !in old(tree)
      ensures r.Some? ==>
                Reached(bd, sb, old(State()), State(), i, [12, rest / 16384, rest % 16384 / 128, rest % 128], r.value)
    {
      hide Wf, Reached, Full, Free;
      ghost var p := [12, rest / 16384, rest % 16384 / 128, rest % 128];
      if Node(i, p) in old(tree) {
        AboveIn(bd, sb, State(), i, [12], p);
        AboveIn(bd, sb, State(), i, [12, rest / 16384], p);
        AboveIn(bd, sb, State(), i, [12, rest / 16384, rest % 16384 / 128], p);
      }
      r := Root(i, NDirect(bd) + 2);
      if r.None? {
        return;
      }
      var j1 := rest / (NINDIRECT * NINDIRECT);
      assert [12] + [j1] == [12, j1];
      r := Down(r.value, j1, Node(i, [12]), old(State()));
      if r.None? {
        return;
      }
      var j2 := rest % (NINDIRECT * NINDIRECT) / NINDIRECT;
      assert [12, j1] + [j2] == [12, j1, j2];
      r := Down(r.value, j2, Node(i, [12, j1]), old(State()));
      if r.None? {
        return;
      }
      var j3 := rest % NINDIRECT;
      assert [12, j1, j2] + [j3] == [12, j1, j2, j3];
      r := Down(r.value, j3, Node(i, [12, j1, j2]), old(State()));
    }

    // ---- reading and writing ----

    /** bread(bmap(ip, bn)), a copy of `chunk` into the buffer at `o`, log_write. */
    method CopyIn(i: nat, bn: nat, o: nat, chunk: seq<byte>) returns (ok: bool, ghost mid: St, ghost a: nat)
      requires Valid() && i < |inodes| && o + |chunk| <= BSIZE
      modifies `data, `inodes, `logged, `tree, `owner
      ensures !ok ==> bn >= Cap(bd) || (SuperOk(sb) && |data| == sb.size && Full(data))
      ensures bn >= Cap(bd) ==> !ok
      ensures !ok && bn < Cap(bd) ==> |Free(sb, old(data))| < 4
      ensures HasLeaf(bd, old(tree), i, bn) ==> ok
      ensures ok ==> |Free(sb, old(data))| <= |Free(sb, data)| + 4
      ensures ok ==> Reached(bd, sb, old(State()), mid, i, Path(bd, bn), a)
      ensures ok ==> a < |mid.data| && State() == Copied(mid, a, o, chunk) && Valid()
    {
      hide Wf, Reached, Full, Free, Path, Patch;
      mid, a := State(), 0;
      var addr := Bmap(i, bn);
      if addr.None? {
        return false, mid, a;
      }
      mid, a := State(), addr.value;
      LeafReached(bd, sb, old(State()), mid, i, bn, a);
      data := data[addr.value := Patch(data[addr.value], o, chunk)];
      logged := logged + {addr.value};
      ok := true;
      CopiedWf(bd, sb, mid, i, bn, o, chunk);
      WalkFree(bd, sb, old(State()), mid, i, bn, a, data[a]);
    }

    /** The loop of writei: all of `src` at `off`, a block at a time. */
    method WriteBlocks(i: nat, off: nat, src: seq<byte>, ghost last: nat) returns (ok: bool)
      requires Valid() && i < |inodes|
      requires last * BSIZE + BSIZE >= off + |src|
      modifies `data, `inodes, `logged, `tree, `owner
      ensures !ok ==> |src| > 0 && (off + |src| > Cap(bd) * BSIZE || (SuperOk(sb) && |data| == sb.size && Full(data)))
      ensures |src| > 0 && off + |src| > Cap(bd) * BSIZE ==> !ok
      ensures !ok ==> off + |src| > Cap(bd) * BSIZE || |Free(sb, old(data))| < 4 * Touched(off, |src|)
      ensures off + |src| <= old(inodes[i].size) ==> ok
      ensures ok ==> |Free(sb, old(data))| <= |Free(sb, data)| + 4 * Touched(off, |src|)
      ensures ok ==> Valid() && Written(bd, sb, old(State()), State(), i, off, src, |src|, last)
    {
      hide Wf, Reached, Full, WroteInodes, WroteBytes, WroteLog, Copied, Free, Path;
      ghost var s0 := State();
      WrittenNothing(bd, sb, s0, i, off, src, last);
      var tot := 0;
      while tot < |src|
        invariant 0 <= tot <= |src|
        invariant Valid() && |inodes| == |s0.inodes|
        invariant Written(bd, sb, s0, State(), i, off, src, tot, last)
        invariant tot > 0 ==> off + tot <= Cap(bd) * BSIZE
        invariant 0 < tot < |src| ==> (off + tot) % BSIZE == 0
        invariant |Free(sb, s0.data)| <= |Free(sb, data)| + 4 * Turns(off, tot, |src|)
      {
        var bn, o := (off + tot) / BSIZE, (off + tot) % BSIZE;
        var m := if |src| - tot < BSIZE - o then |src| - tot else BSIZE - o;
        ghost var s := State();
        TurnsNext(off, tot, |src|, m);
        var copied, mid, a := CopyIn(i, bn, o, src[tot..tot + m]);
        if !copied {
          if off + |src| <= s0.inodes[i].size {
            SizeKept(bd, sb, s0, s, i, off, src, tot, last);
            SizeBacked(bd, sb, s, i, off + tot);
          }
          return false;
        }
        WrittenStep(bd, sb, s0, s, mid, i, off, src, tot, m, a, last);
        tot := tot + m;
      }
      ok := true;
    }

    /** Copy the in-core inode `i` to its disk block. */
    method Iupdate(i: nat)
      requires Valid() && i < |inodes|
      modifies `data, `logged
      ensures IBlock(sb, i) < |old(data)| && |inodes[i].addrs| == NADDRS
      ensures State() == Updated(sb, old(State()), i)
      ensures sb.inodestart + i / 8 < |data|
      ensures data[sb.inodestart + i / 8][64 * (i % 8)..64 * (i % 8) + 64] == EncodeInode(inodes[i])
      ensures Valid()
    {
      hide Wf;
      UpdatedWf(bd, sb, State(), i);
      var dip := EncodeInode(inodes[i]);
      data := data[IBlock(sb, i) := data[IBlock(sb, i)][..i % IPB * 64] + dip
                   + data[IBlock(sb, i)][i % IPB * 64 + 64..]];
      logged := logged + {IBlock(sb, i)};
    }

    /** The end of writei: record the new size if the file grew. */
    method FinishWrite(i: nat, off: nat, src: seq<byte>, ghost s0: St, ghost last: nat)
      requires Wf(bd, sb, s0) && AllSynced(sb, s0) && i < |s0.inodes| && off <= s0.inodes[i].size
      requires |src| > 0 ==> off + |src| <= Cap(bd) * BSIZE
      requires Valid() && Written(bd, sb, s0, State(), i, off, src, |src|, last)
      modifies `data, `inodes, `logged
      ensures WriteDone(bd, sb, s0, State(), i, off, src, last)
      ensures i < |inodes|
      ensures inodes[i].size == if off + |src| > s0.inodes[i].size then off + |src| else s0.inodes[i].size
      ensures Free(sb, data) == Free(sb, old(data))
    {
      hide Wf, Written, AllSynced, WriteDone, Cap, Updated, Free;
      var n := |src|;
      SizeKept(bd, sb, s0, State(), i, off, src, n, last);
      if n > 0 && off + n > inodes[i].size {
        GrownSize(bd, sb, s0, State(), i, off, src, last);
        SizedWritten(bd, sb, s0, State(), i, off, src, last);
        ghost var t := Resized(State(), i, off + n);
        inodes := inodes[i := inodes[i].(size := off + n)];
        UpdatedFree(bd, sb, t, i);
        Iupdate(i);
        UpdatedInodes(sb, t, i);
      } else {
        SameSize(bd, sb, s0, State(), i, off, src, last);
      }
    }

    /** writei: -1 if the range is refused, |src| if it was written, a panic (None) only if the range leaves
        what bmap can reach or the disk fills up, and never inside the file. With four free blocks for each block
        touched the panic comes exactly for an accepted range past bmap's reach. After a write the file is the old
        one with `src` spliced in, every other file is as it was, every block that changed is logged, and every
        inode on disk agrees with the one in core. */
    method Writei(i: nat, src: seq<byte>, off: nat) returns (r: Option<int>)
      requires Valid() && AllSynced(sb, State()) && i < |inodes|
      requires off < UINT && |src| < UINT
      modifies `data, `inodes, `logged, `tree, `owner
      ensures r == Some(-1) <==> Refused(old(inodes[i].size), off, |src|, MaxFile(bd))
      ensures r == Some(-1) <==> off > old(inodes[i].size) || off + |src| >= 0x1_0000_0000
                                 || off + |src| > (if bd.Project1? then 140 else 2113674) * 512
      ensures r == Some(-1) ==> State() == old(State())
      ensures r.None? ==>
                |src| > 0 && (off + |src| > Cap(bd) * BSIZE || (SuperOk(sb) && |data| == sb.size && Full(data)))
      ensures |src| > 0 && off + |src| > Cap(bd) * BSIZE && r != Some(-1) ==> r.None?
      ensures off + |src| <= old(inodes[i].size) ==> r == Some(|src|)
      ensures |Free(sb, old(data))| >= 4 * Touched(off, |src|) ==>
                (r.None? <==> |src| > 0 && off + |src| > Cap(bd) * BSIZE
                              && !Refused(old(inodes[i].size), off, |src|, MaxFile(bd)))
      ensures r.Some? && r.value != -1 ==>
                r.value == |src| && WriteDone(bd, sb, old(State()), State(), i, off, src, LastBlock(off, |src|))
      ensures r.Some? && r.value != -1 ==> Noted(old(data), old(logged), data, logged)
      ensures r.Some? && r.value != -1 ==>
                var was, now := File(bd, old(State()), i), File(bd, State(), i);
                && off <= |was| && |now| == (if off + |src| > |was| then off + |src| else |was|)
                && forall q :: 0 <= q < |now| ==> now[q] == if off <= q < off + |src| then src[q - off] else was[q]
      ensures r.Some? && r.value != -1 ==>
                inodes[i].size == if off + |src| > old(inodes[i].size) then off + |src| else old(inodes[i].size)
      ensures r.Some? ==> |Free(sb, old(data))| <= |Free(sb, data)| + 4 * Touched(off, |src|)
    {
      var n := |src|;
      WrapsIff(off, n);
      hide Wf, WroteInodes, WroteBytes, WroteLog, AllSynced, WriteDone, Full, File, Wraps, LastBlock, Cap, MaxFile,
           Free, Noted, Touched;
      MaxFileIs(bd);
      if off > inodes[i].size || Wraps(off, n) {
        return Some(-1);
      }
      if off + n > MaxFile(bd) * BSIZE {
        return Some(-1);
      }
      var ok := WriteBlocks(i, off, src, LastBlock(off, n));
      if !ok {
        return None;
      }
      FinishWrite(i, off, src, old(State()), LastBlock(off, n));
      DoneNoted(bd, sb, old(State()), State(), i, off, src, LastBlock(off, n));
      DoneBytes(bd, sb, old(State()), State(), i, off, src, LastBlock(off, n));
      r := Some(n);
    }

    /** bread(bmap(ip, bn)) and a copy of `m` bytes of the buffer from `o`, for a block that is there. */
    method CopyOut(i: nat, bn: nat, o: nat, m: nat) returns (chunk: seq<byte>)
      requires Valid() && i < |inodes| && HasLeaf(bd, tree, i, bn) && o + m <= BSIZE
      modifies `data, `inodes, `logged, `tree, `owner
      ensures State() == old(State())
      ensures chunk == At(data, LeafBlock(bd, tree, i, bn))[o..o + m]
    {
      hide Wf, Reached, Full;
      var addr := Bmap(i, bn);
      LeafReached(bd, sb, old(State()), State(), i, bn, addr.value);
      var bp := data[addr.value];
      chunk := bp[o..o + m];
    }

    /** The loop of readi: `k` bytes of the file from `off`. */
    method ReadBlocks(i: nat, off: nat, k: nat) returns (dst: seq<byte>)
      requires Valid() && i < |inodes| && off + k <= inodes[i].size
      modifies `data, `inodes, `logged, `tree, `owner
      ensures State() == old(State())
      ensures |File(bd, State(), i)| == inodes[i].size
      ensures dst == File(bd, State(), i)[off..off + k]
    {
      hide Wf, File, HasLeaf, LeafBlock;
      ghost var file := File(bd, State(), i);
      FileLength(bd, State(), i);
      dst := [];
      var tot := 0;
      while tot < k
        invariant 0 <= tot <= k
        invariant State() == old(State())
        invariant dst == file[off..off + tot]
      {
        var bn, o := (off + tot) / BSIZE, (off + tot) % BSIZE;
        var m := if k - tot < BSIZE - o then k - tot else BSIZE - o;
        SizeBacked(bd, sb, State(), i, off + tot);
        ReadStep(bd, State(), i, off, tot, m);
        var chunk := CopyOut(i, bn, o, m);
        dst := dst + chunk;
        tot := tot + m;
      }
    }

    /** readi: -1 if the offset is past the end or the range wraps around; otherwise the bytes of the file
        from `off`, at most `n`. It never allocates and never panics: there is no hole below the size. */
    method Readi(i: nat, off: nat, n: nat) returns (r: int, dst: seq<byte>)
      requires Valid() && i < |inodes|
      requires off < UINT && n < UINT
      modifies `data, `inodes, `logged, `tree, `owner
      ensures State() == old(State())
      ensures r == -1 <==> off > inodes[i].size || off + n >= UINT
      ensures r == -1 ==> dst == []
      ensures r != -1 ==>
                && r == |dst|
                && dst == File(bd, State(), i)[off..if off + n > inodes[i].size then inodes[i].size else off + n]
      ensures |inodes[i].addrs| == NADDRS
      ensures forall k :: 0 <= k < |dst| ==>
                dst[k] == At(data, BlockNumber(bd, data, inodes[i].addrs, (off + k) / BSIZE))[(off + k) % BSIZE]
    {
      hide Wf, File, Wraps, BlockNumber;
      RootSlot(bd, sb, State(), i, 0);
      WrapsIff(off, n);
      FileLength(bd, State(), i);
      if off > inodes[i].size || Wraps(off, n) {
        return -1, [];
      }
      var k := n;
      if off + k > inodes[i].size {
        k := inodes[i].size - off;
      }
      dst := ReadBlocks(i, off, k);
      r := k;
      forall j | 0 <= j < |dst|
        ensures dst[j] == At(data, BlockNumber(bd, data, inodes[i].addrs, (off + j) / BSIZE))[(off + j) % BSIZE]
      {
        FileWords(bd, sb, State(), i, off + j);
      }
    }

    // ---- truncation (project1) ----

    /** bfree of the block at `p` in file `i`, part of truncating a file that was in state `s`. */
    method FreeAt(b: nat, ghost s: St, ghost i: nat, ghost k: nat, ghost j: nat, ghost p: seq<nat>, ghost k1: nat,
                  ghost j1: nat)
      requires Wf(bd, sb, s) && Freeing(sb, s, data, logged, i, k, j)
      requires Node(i, p) in s.tree && s.tree[Node(i, p)] == b && GoesNext(p, k, j, k1, j1)
      modifies `data, `logged
      ensures Freeing(sb, s, data, logged, i, k1, j1)
    {
      hide Wf, Freeing, BitIn, GoesNext, Gone;
      GoesNow(p, k, j, k1, j1);
      FreeingBit(bd, sb, s, data, logged, i, k, j, p);
      ghost var d, l := data, logged;
      var ok := Bfree(b);
      assert ok; // panic("freeing free block") cannot happen
      FreeingStep(bd, sb, s, d, l, i, k, j, p, k1, j1, data, logged);
    }

    /** The direct blocks. */
    method FreeDirect(i: nat)
      requires bd.Project1? && Valid() && i < |inodes|
      modifies `data, `inodes, `logged
      ensures Freeing(sb, old(State()), data, logged, i, 12, 0)
      ensures |old(inodes[i].addrs)| == NADDRS
      ensures inodes == old(inodes)[i := old(inodes[i]).(addrs := Cleared(old(inodes[i].addrs), 12))]
    {
      hide Wf, Freeing, RootsOk, Missing, Cleared, GoesNext, Gone, Meta, BitmapOk;
      ghost var s := State();
      RootSlot(bd, sb, s, i, 0);
      FreeingStart(bd, sb, s, i);
      ClearedNext(s.inodes[i].addrs, 0);
      var k := 0;
      while k < NDirect(bd)
        invariant 0 <= k <= 12
        invariant Freeing(sb, s, data, logged, i, k, 0)
        invariant inodes == s.inodes[i := s.inodes[i].(addrs := Cleared(s.inodes[i].addrs, k))]
      {
        RootSlot(bd, sb, s, i, k);
        ClearedNext(s.inodes[i].addrs, k);
        GoesOrder(k, 0);
        if inodes[i].addrs[k] != 0 {
          FreeAt(inodes[i].addrs[k], s, i, k, 0, [k], k + 1, 0);
          inodes := inodes[i := inodes[i].(addrs := inodes[i].addrs[k := 0])];
        } else {
          FreeingSkip(bd, sb, s, data, logged, i, k, 0, [k], k + 1, 0);
        }
        k := k + 1;
      }
    }

    /** The blocks an indirect block points to; the indirect block itself is only read. */
    method FreeIndirect(i: nat, b: nat, ghost s: St)
      requires bd.Project1? && Wf(bd, sb, s) && i < |s.inodes|
      requires Node(i, [12]) in s.tree && s.tree[Node(i, [12])] == b
      requires Freeing(sb, s, data, logged, i, 12, 0)
      modifies `data, `logged
      ensures Freeing(sb, s, data, logged, i, 12, 128)
    {
      hide Wf, Freeing, Word, Missing, GoesNext, Gone, Meta, IsIndex, BitmapOk, BitIn;
      FreeingBit(bd, sb, s, data, logged, i, 12, 0, [12]);
      var a := data[b];
      DirectIsIndex(bd, i);
      var j := 0;
      while j < NINDIRECT
        invariant 0 <= j <= NINDIRECT
        invariant Freeing(sb, s, data, logged, i, 12, j)
      {
        IndexSlot(bd, sb, s, Node(i, [12]), j);
        assert [12] + [j] == [12, j];
        GoesOrder(0, j);
        if Word(a, j) != 0 {
          FreeAt(Word(a, j), s, i, 12, j, [12, j], 12, j + 1);
        } else {
          FreeingSkip(bd, sb, s, data, logged, i, 12, j, [12, j], 12, j + 1);
        }
        j := j + 1;
      }
    }

    /** Both parts of itrunc that free blocks. */
    method FreeAll(i: nat)
      requires bd.Project1? && Valid() && i < |inodes|
      modifies `data, `inodes, `logged
      ensures Freeing(sb, old(State()), data, logged, i, 13, 128)
      ensures inodes == old(inodes)[i := old(inodes[i]).(addrs := NoAddrs())]
    {
      hide Wf, Freeing, RootsOk, Missing, GoesNext, Gone, Meta, BitmapOk;
      ghost var s := State();
      RootSlot(bd, sb, s, i, 12);
      GoesOrder(0, 128);
      FreeDirect(i);
      var b := inodes[i].addrs[12];
      if b != 0 {
        FreeIndirect(i, b, s);
        FreeAt(b, s, i, 12, 128, [12], 13, 128);
        inodes := inodes[i := inodes[i].(addrs := inodes[i].addrs[12 := 0])];
      } else {
        NoIndirect(bd, sb, s, data, logged, i, 0);
      }
      assert inodes[i].addrs == NoAddrs();
    }

    /** itrunc: file `i` becomes empty; exactly its own blocks are freed. */
    method Itrunc(i: nat)
      requires bd.Project1? && Valid() && AllSynced(sb, State()) && i < |inodes|
      modifies `data, `inodes, `logged, `tree, `owner
      ensures Valid() && AllSynced(sb, State())
      ensures tree == Without(old(tree), i) && owner == OwnerWithout(old(owner), i)
      ensures inodes == old(inodes)[i := old(inodes[i]).(addrs := NoAddrs(), size := 0)]
      ensures FilesAre(bd, old(State()), State(), i, [])
      ensures forall x :: x in logged && x !in old(logged) ==> x == IBlock(sb, i) || sb.bmapstart <= x < Meta(sb)
      ensures Noted(old(data), old(logged), data, logged)
    {
      ghost var s := State();
      hide Wf, Freeing, AllSynced, FilesAre, Updated, Without, OwnerWithout, Noted;
      FreeAll(i);
      inodes := inodes[i := inodes[i].(size := 0)];
      FreeingEnd(bd, sb, s, data, logged, i);
      tree := Without(tree, i);
      owner := OwnerWithout(owner, i);
      ghost var t := State();
      assert t == Emptied(s, data, logged, i);
      UpdatedSync(bd, sb, t, i);
      UpdatedFiles(bd, sb, s, t, i, []);
      UpdatedNoted(sb, s, t, i);
      Iupdate(i);
    }

    /** iput, for an inode whose cache entry has `refs` references: the last reference to an unlinked inode
        frees its content and its number. */
    method Iput(i: nat, refs: nat, valid: bool) returns (left: nat)
      requires bd.Project1? && Valid() && AllSynced(sb, State()) && i < |inodes| && refs >= 1
      modifies `data, `inodes, `logged, `tree, `owner
      ensures Valid() && AllSynced(sb, State()) && left == refs - 1
      ensures if valid && old(inodes[i].nlink) == 0 && refs == 1
              then inodes == old(inodes)[i := old(inodes[i]).(typ := 0, addrs := NoAddrs(), size := 0)]
                   && tree == Without(old(tree), i) && FilesAre(bd, old(State()), State(), i, [])
              else State() == old(State())
      ensures forall x :: x in logged && x !in old(logged) ==> x == IBlock(sb, i) || sb.bmapstart <= x < Meta(sb)
      ensures Noted(old(data), old(logged), data, logged)
    {
      NotedSame(data, logged);
      if valid && inodes[i].nlink == 0 {
        if refs == 1 {
          hide Wf, AllSynced, FilesAre, Without, OwnerWithout, Updated, Noted;
          Itrunc(i);
          ghost var t := State();
          inodes := inodes[i := inodes[i].(typ := 0)];
          Relabelled(bd, sb, old(State()), t, i, inodes[i], []);
          UpdatedSync(bd, sb, State(), i);
          UpdatedFiles(bd, sb, old(State()), State(), i, []);
          UpdatedNoted(sb, old(State()), State(), i);
          Iupdate(i);
        }
      }
      left := refs - 1;
    }

    // ---- filewrite ----

    /** begin_op, writei of one chunk, end_op. */
    method WriteChunk(i: nat, off: nat, chunk: seq<byte>) returns (w: Option<int>, ghost tx: Tx)
      requires Valid() && AllSynced(sb, State()) && i < |inodes|
      requires off < UINT && 0 < |chunk| <= 1536
      modifies `data, `inodes, `logged, `tree, `owner
      ensures w.None? ==> PastReach(bd, off, |chunk|) || (SuperOk(sb) && |data| == sb.size && Full(data))
      ensures w.None? ==> PastReach(bd, off, |chunk|) || |Free(sb, old(data))| < 16
      ensures w.None? && (bd.Project1? || sb.size < Meta(sb) + 2113673) ==>
                SuperOk(sb) && |data| == sb.size && Full(data)
      ensures w == Some(-1) <==> Refused(old(inodes[i].size), off, |chunk|, MaxFile(bd))
      ensures w == Some(-1) ==> State() == Begun(old(State()))
      ensures w.Some? && w.value != -1 ==> w.value == |chunk| && off <= old(inodes[i].size)
      ensures w.Some? && w.value != -1 ==> tx == Tx(Begun(old(State())), State(), off, chunk)
      ensures w.Some? && w.value != -1 ==> TxOk(bd, sb, i, tx) && LogsFew(bd, sb, i, tx)
      ensures w.Some? && w.value != -1 ==> Valid() && AllSynced(sb, State()) && |inodes| == |old(inodes)|
      ensures w.Some? && w.value != -1 ==>
                && inodes[i].size == (if off + |chunk| > old(inodes[i].size) then off + |chunk|
                                      else old(inodes[i].size))
                && FilesAre(bd, old(State()), State(), i, Splice(File(bd, old(State()), i), off, chunk))
      ensures w.Some? ==> |Free(sb, old(data))| <= |Free(sb, data)| + 16
    {
      hide Wf, AllSynced, File, FilesAre, WriteDone, Full, LastBlock, Cap, MaxFile, Splice, Free, Noted, Touched,
           TxOk, LogsFew, Meta;
      BegunSame(bd, sb, State());
      logged := {}; // begin_op
      ghost var s := State();
      FileLength(bd, s, i);
      FourTouched(off, |chunk|);
      w := Writei(i, chunk, off);
      tx := Tx(s, State(), off, chunk);
      if w.None? {
        GapNeedsDisk(bd, sb, s, i, off, |chunk|);
      } else if w.value >= 0 {
        WriteDoneFacts(bd, sb, s, State(), i, off, chunk, LastBlock(off, |chunk|));
        BegunFiles(bd, old(State()), State(), i, Splice(File(bd, s, i), off, chunk));
        TxMade(bd, sb, i, tx);
      }
    }

    /** filewrite on an inode: the bytes go out in transactions of at most 1536 bytes. The result is |src|, or -1
        if some transaction was refused, in which case the transactions before it have been written. `txs` are
        the transactions that wrote something: each logs what it changes, and how much that can be is bounded for
        both builds. A panic needs a full disk, or a chunk past bmap's reach on a disk of more than 2113673
        blocks. */
    method FileWrite(i: nat, off: nat, src: seq<byte>) returns (r: Option<int>, newOff: nat, ghost txs: seq<Tx>)
      requires Valid() && AllSynced(sb, State()) && i < |inodes|
      requires off < UINT && |src| < 0x8000_0000
      modifies `data, `inodes, `logged, `tree, `owner
      ensures newOff == off + Upto(|src|, |txs|)
      ensures newOff == off + if 1536 * |txs| < |src| then 1536 * |txs| else |src|
      ensures r.None? ==> newOff < off + |src|
      ensures r.None? ==> PastReach(bd, newOff, Chunk(off + |src| - newOff))
                          || (SuperOk(sb) && |data| == sb.size && Full(data))
      ensures r.None? ==> PastReach(bd, newOff, Chunk(off + |src| - newOff))
                          || |Free(sb, old(data))| < 16 * (|txs| + 1)
      ensures r.None? && (bd.Project1? || sb.size < Meta(sb) + 2113673) ==>
                SuperOk(sb) && |data| == sb.size && Full(data)
      ensures r.Some? ==> r.value == |src| || r.value == -1
      ensures r.Some? ==> Valid() && AllSynced(sb, State()) && i < |inodes|
      ensures r.Some? ==> |inodes| == |old(inodes)| && |File(bd, old(State()), i)| == old(inodes[i].size)
      ensures r.Some? && newOff > off ==> off <= old(inodes[i].size)
      ensures r.Some? && off <= old(inodes[i].size) ==>
                FilesAre(bd, old(State()), State(), i, Splice(File(bd, old(State()), i), off, src[..newOff - off]))
      ensures r.Some? && off <= old(inodes[i].size) ==>
                WroteUpTo(File(bd, old(State()), i), File(bd, State(), i), off, src, newOff)
      ensures r.Some? && r.value == |src| ==> newOff == off + |src|
      ensures r == Some(-1) ==> newOff < off + |src|
                                && Refused(inodes[i].size, newOff, Chunk(off + |src| - newOff), MaxFile(bd))
      ensures r.Some? ==> Chained(old(State()), txs, State())
      ensures TxsOk(bd, sb, i, off, src, txs)
      ensures r.Some? ==> |Free(sb, old(data))| <= |Free(sb, data)| + 16 * |txs|
    {
      hide Wf, AllSynced, File, FilesAre, Full, Cap, MaxFile, Splice, Free, TxOk, LogsFew, Meta, Chained, Upto,
           PastReach, TxsOk, Carries, WroteUpTo;
      UptoNone(|src|);
      ghost var s0 := State();
      txs := [];
      newOff := off;
      ChainNone(s0);
      TxsNone(bd, sb, i, off, src);
      FileLength(bd, s0, i);
      if off <= inodes[i].size {
        NothingWritten(bd, s0, i, off, src);
      }
      while newOff - off < |src|
        invariant newOff == off + Upto(|src|, |txs|) <= off + |src| && newOff < UINT
        invariant Upto(|src|, |txs|) == if 1536 * |txs| < |src| then 1536 * |txs| else |src|
        invariant Valid() && AllSynced(sb, State()) && |inodes| == |s0.inodes|
        invariant newOff > off ==> off <= s0.inodes[i].size
        invariant off <= s0.inodes[i].size ==> inodes[i].size >= newOff
        invariant off > s0.inodes[i].size ==> inodes[i].size == s0.inodes[i].size
        invariant off <= s0.inodes[i].size ==>
                    FilesAre(bd, s0, State(), i, Splice(File(bd, s0, i), off, src[..newOff - off]))
        invariant Chained(s0, txs, State())
        invariant |Free(sb, s0.data)| <= |Free(sb, data)| + 16 * |txs|
        invariant TxsOk(bd, sb, i, off, src, txs)
      {
        var done := newOff - off;
        var n1 := Chunk(|src| - done);
        UptoNext(|src|, |txs|);
        ghost var s := State();
        FileLength(bd, s, i);
        var w, tx := WriteChunk(i, newOff, src[done..done + n1]);
        if w.None? {
          return None, newOff, txs;
        }
        if w.value < 0 {
          Refusal(bd, sb, s0, txs, s, i,
                  if off <= s0.inodes[i].size then Splice(File(bd, s0, i), off, src[..done]) else []);
          FileSpliced(bd, s0, State(), i, off, src, newOff);
          return Some(-1), newOff, txs;
        }
        ChunkWritten(bd, sb, s0, s, State(), i, off, src, done, n1);
        ChainNext(s0, txs, s, tx);
        ShareCarried(tx, off, src, |txs|);
        TxsNext(bd, sb, i, off, src, txs, tx);
        txs := txs + [tx]; // end_op
        newOff := newOff + w.value;
      }
      assert src[..newOff - off] == src;
      FileSpliced(bd, s0, State(), i, off, src, newOff);
      r := Some(|src|);
    }
  }

  /** The bytes of `src` are at `off`, as far as offset `end`, and the others are as they were. */
  predicate WroteUpTo(was: seq<byte>, now: seq<byte>, off: nat, src: seq<byte>, end: nat) {
    && off <= |was| && off <= end <= off + |src| && |now| == (if end > |was| then end else |was|)
    && forall q :: 0 <= q < |now| ==> now[q] == if off <= q < end then src[q - off] else was[q]
  }

  lemma FileSpliced(bd: Build, s0: St, s: St, i: nat, off: nat, src: seq<byte>, end: nat)
    requires i < |s0.inodes| && off <= end <= off + |src|
    requires off <= s0.inodes[i].size ==>
               off <= |File(bd, s0, i)|
               && FilesAre(bd, s0, s, i, Splice(File(bd, s0, i), off, src[..end - off]))
    ensures off <= s0.inodes[i].size ==>
              i < |s.inodes| && WroteUpTo(File(bd, s0, i), File(bd, s, i), off, src, end)
  {
    hide File;
    if off <= s0.inodes[i].size {
      SpliceBytes(File(bd, s0, i), off, src[..end - off]);
    }
  }

  function Chunk(n: int): int {
    var max := (10 - 1 - 1 - 2) / 2 * 512;
    if n > max then max else n
  }

  /** A block of free map whose first `used` bits are set. */
  method FreeMap(used: nat) returns (buf: Block)
    requires used < BPB
    ensures FreshMap(buf, used)
  {
    hide FreshMap, SetBit, BitIn;
    FreshMapNone();
    buf := ZeroBlock();
    var i := 0;
    while i < used
      invariant 0 <= i <= used && FreshMap(buf, i)
    {
      FreshMapNext(buf, i);
      buf := SetBit(buf, i);
      i := i + 1;
    }
  }
}
