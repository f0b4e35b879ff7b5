/** Files over the log: a transaction of filewrite as the log sees it, and what a crash leaves of a whole call. */
module FileLog {
  import opened Basics
  import opened Words
  import R = RedoLog
  import L = Log
  import C = Commit
  import opened FsLayout
  import opened FsTree
  import opened FsSpace

  /** Two contents agree wherever the file system keeps anything. */
  predicate SameFs(sb: Super, d: seq<Block>, e: seq<Block>) {
    C.SameFrom(sb.inodestart, d, e)
  }

  // ---- a transaction of filewrite as the log sees it ----

  function ChangeOf(tx: Tx): C.Change {
    C.Change(tx.before.data, tx.after.data, tx.after.logged)
  }

  /** It logs every block it changes, and only blocks above the log; at most 17 of them, 7 in project1 on a disk
      with one block of free map. Carrying them out carries out the transaction. */
  lemma TxAsUpdates(bd: Build, sb: Super, i: nat, tx: Tx, op: R.OpId)
    requires TxOk(bd, sb, i, tx) && LogsFew(bd, sb, i, tx)
    ensures C.ChangeOk(sb.inodestart, sb.size, ChangeOf(tx))
    ensures R.Apply(tx.before.data, C.UpdatesOf(op, ChangeOf(tx))) == tx.after.data
    ensures |R.Blocks(C.UpdatesOf(op, ChangeOf(tx)))| <= |tx.after.logged| <= 17
    ensures bd.Project1? && sb.size < BPB ==> |R.Blocks(C.UpdatesOf(op, ChangeOf(tx)))| <= 7
  {
    TxChange(bd, sb, i, tx);
    hide TxOk, C.UpdatesOf, C.ChangeOk;
    C.ChangeAsUpdates(sb.inodestart, sb.size, ChangeOf(tx), op);
  }

  lemma TxChange(bd: Build, sb: Super, i: nat, tx: Tx)
    requires TxOk(bd, sb, i, tx)
    ensures C.ChangeOk(sb.inodestart, sb.size, ChangeOf(tx))
  {
    hide TxOk, Noted;
    TxNoted(bd, sb, i, tx);
    TxSizes(bd, sb, i, tx);
    forall x | x in tx.after.logged
      ensures sb.inodestart <= x < sb.size
    {
      LoggedAbove(bd, sb, i, tx, x);
    }
  }

  /** Every block a transaction logs lies among the inodes, the free map or the data. */
  lemma LoggedAbove(bd: Build, sb: Super, i: nat, tx: Tx, x: nat)
    requires TxOk(bd, sb, i, tx) && x in tx.after.logged
    ensures sb.inodestart <= x < sb.size && |tx.before.data| == |tx.after.data| == sb.size
  {
    LoggedFacts(bd, sb, i, tx, x);
    hide TxOk, Wf, FromMap;
    if x == IBlock(sb, i) {
      InodePlace(bd, sb, tx.before, i);
    } else if FromMap(sb, tx.before.tree, tx.after.owner, x) {
      FromMapPlace(bd, sb, tx.before, tx.after, x);
      MetaSize(bd, sb, tx.after);
    } else {
      OwnerPlace(bd, sb, tx.after, x);
    }
  }

  lemma LoggedFacts(bd: Build, sb: Super, i: nat, tx: Tx, x: nat)
    requires TxOk(bd, sb, i, tx) && x in tx.after.logged
    ensures Wf(bd, sb, tx.before) && Wf(bd, sb, tx.after) && i < |tx.before.inodes|
    ensures |tx.before.data| == |tx.after.data| == sb.size
    ensures x == IBlock(sb, i) || FromMap(sb, tx.before.tree, tx.after.owner, x) || x in tx.after.owner
  {
    WfSize(bd, sb, tx.before);
    hide Wf, AllSynced, Marked, IsLeaf, Stirred, Touches, FilesAre, OnlyFile;
  }

  lemma InodePlace(bd: Build, sb: Super, s: St, i: nat)
    requires Wf(bd, sb, s) && i < |s.inodes|
    ensures sb.inodestart <= IBlock(sb, i) < sb.size
  {
    IBlockIsMeta(sb, i);
  }

  lemma MetaSize(bd: Build, sb: Super, s: St)
    requires Wf(bd, sb, s)
    ensures sb.inodestart <= sb.bmapstart <= Meta(sb) <= sb.size
  {
  }

  lemma OwnerPlace(bd: Build, sb: Super, s: St, x: nat)
    requires Wf(bd, sb, s) && x in s.owner
    ensures sb.inodestart <= x < sb.size
  {
    assert s.tree[s.owner[x]] == x;
  }

  // ---- what Wf looks at ----

  lemma SameFsWf(bd: Build, sb: Super, s: St, d: seq<Block>)
    requires Wf(bd, sb, s) && SameFs(sb, s.data, d)
    ensures Wf(bd, sb, s.(data := d))
  {
    SameFsBits(bd, sb, s, d);
    SameFsIndex(bd, sb, s, d);
  }

  lemma SameFsBits(bd: Build, sb: Super, s: St, d: seq<Block>)
    requires BitmapOk(sb, s.data, s.owner) && SameFs(sb, s.data, d)
    ensures BitmapOk(sb, d, s.owner)
  {
    hide BitIn;
    forall b | 0 <= b < sb.size
      ensures Bit(sb, d, b) == Bit(sb, s.data, b)
    {
      BBlockIsMeta(sb, b);
    }
  }

  lemma SameFsIndex(bd: Build, sb: Super, s: St, d: seq<Block>)
    requires TreeOk(bd, sb, s.tree, s.owner) && IndexOk(bd, s.data, s.tree)
    requires SuperOk(sb) && |s.data| == sb.size && SameFs(sb, s.data, d)
    ensures IndexOk(bd, d, s.tree)
  {
    hide Word;
    forall n, j | n in s.tree && IsIndex(bd, n) && 0 <= j < NINDIRECT
      ensures Word(At(d, s.tree[n]), j) == Ptr(s.tree, Kid(n, j))
    {
      assert Word(At(s.data, s.tree[n]), j) == Ptr(s.tree, Kid(n, j));
    }
  }

  lemma SameFsSync(bd: Build, sb: Super, s: St, d: seq<Block>)
    requires Wf(bd, sb, s) && AllSynced(sb, s) && SameFs(sb, s.data, d)
    ensures AllSynced(sb, s.(data := d))
  {
    forall k | 0 <= k < |s.inodes|
      ensures Synced(sb, s.(data := d), k)
    {
      IBlockIsMeta(sb, k);
      assert Synced(sb, s, k);
    }
  }

  lemma SameFsFile(bd: Build, sb: Super, s: St, d: seq<Block>, k: nat)
    requires Wf(bd, sb, s) && SameFs(sb, s.data, d) && k < |s.inodes|
    ensures File(bd, s.(data := d), k) == File(bd, s, k)
  {
    var t := s.(data := d);
    forall q | 0 <= q < s.inodes[k].size
      ensures File(bd, t, k)[q] == File(bd, s, k)[q]
    {
      SameFsByte(bd, sb, s, d, k, q);
    }
    assert File(bd, t, k) == File(bd, s, k);
  }

  lemma SameFsByte(bd: Build, sb: Super, s: St, d: seq<Block>, k: nat, q: nat)
    requires Wf(bd, sb, s) && SameFs(sb, s.data, d) && k < |s.inodes| && q < s.inodes[k].size
    ensures ByteAt(bd, s.(data := d), k, q) == ByteAt(bd, s, k, q)
  {
    SizeBacked(bd, sb, s, k, q);
    LeafPlace(bd, sb, s, k, q / BSIZE);
    MetaSize(bd, sb, s);
    hide Wf, Path, Cap;
  }

  lemma TxSizes(bd: Build, sb: Super, i: nat, tx: Tx)
    requires TxOk(bd, sb, i, tx)
    ensures |tx.before.data| == |tx.after.data| == sb.size
  {
    WfSize(bd, sb, tx.before);
    hide Wf, AllSynced, WriteDone;
  }

  lemma TxNoted(bd: Build, sb: Super, i: nat, tx: Tx)
    requires TxOk(bd, sb, i, tx)
    ensures Noted(tx.before.data, {}, tx.after.data, tx.after.logged)
  {
    hide Wf, AllSynced, WriteDone;
  }

  // ---- a whole call, and a crash anywhere in it ----

  /** The transactions of a filewrite of `src` at `off` that began in state `s0`. */
  ghost predicate CallOk(bd: Build, sb: Super, i: nat, off: nat, src: seq<byte>, s0: St, txs: seq<Tx>) {
    && Wf(bd, sb, s0) && AllSynced(sb, s0) && i < |s0.inodes| && off <= s0.inodes[i].size
    && TxsOk(bd, sb, i, off, src, txs)
    && forall k :: 0 <= k < |txs| ==> txs[k].before == AfterTx(s0, txs, k)
  }

  /** What filewrite reports, in either build and on any disk, is such a call. */
  lemma EveryCall(bd: Build, sb: Super, i: nat, off: nat, src: seq<byte>, s0: St, txs: seq<Tx>, s: St)
    requires Wf(bd, sb, s0) && AllSynced(sb, s0) && i < |s0.inodes| && off <= s0.inodes[i].size
    requires TxsOk(bd, sb, i, off, src, txs) && Chained(s0, txs, s)
    ensures CallOk(bd, sb, i, off, src, s0, txs)
  {
    hide Wf, AllSynced, TxsOk;
  }

  lemma CallAt(bd: Build, sb: Super, i: nat, off: nat, src: seq<byte>, s0: St, txs: seq<Tx>, k: nat)
    requires CallOk(bd, sb, i, off, src, s0, txs) && k < |txs|
    ensures TxOk(bd, sb, i, txs[k]) && Carries(txs[k], off, src, k) && 1 <= |txs[k].after.logged| <= 17
    ensures txs[k].before == AfterTx(s0, txs, k)
    ensures AfterTx(s0, txs, k).data == txs[k].before.data && AfterTx(s0, txs, k + 1).data == txs[k].after.data
  {
    hide Wf, AllSynced, TxOk, Carries, Need, MapBlocks, FromMap;
  }

  lemma CallStart(s0: St, txs: seq<Tx>)
    ensures AfterTx(s0, txs, 0).data == s0.data
  {
  }

  /** What each transaction logs. */
  function Logs(txs: seq<Tx>): seq<set<nat>> {
    seq(|txs|, k requires 0 <= k < |txs| => txs[k].after.logged)
  }

  /** A whole filewrite through the log, with power lost before the commit of transaction number `cut` or when the
      supply of block writes ends. The image left behind recovers to a file system in which the first `j`
      transactions have happened in full and the others not at all, `j` being exactly the number of those that are
      durable: all its structures agree, the file is the old one with the first 1536 * j bytes spliced in, every
      other file is as it was. */
  method CommitCall(m: L.Machine, first: R.OpId, txs: seq<Tx>, cut: nat, others: nat -> nat -> seq<R.CacheAct>,
                    ghost bd: Build, ghost sb: Super, ghost i: nat, ghost off: nat, ghost src: seq<byte>,
                    ghost s0: St) returns (ghost j: nat, ghost left: St)
    requires C.Idle(m) && (forall op :: first <= op ==> op !in m.all && op !in m.waiting)
    requires CallOk(bd, sb, i, off, src, s0, txs)
    requires C.Below(m.start, sb.inodestart) && |m.disk| == sb.size && SameFs(sb, s0.data, m.Stable())
    modifies m
    ensures m.Valid() && m.panicked == old(m.panicked)
    ensures j <= |txs| && forall k :: 0 <= k < |txs| ==> (k < j <==> C.Durable(Logs(txs), old(m.power), cut, k))
    ensures m.power == C.Left(Logs(txs), old(m.power), cut, |txs|)
    ensures left == AfterTx(s0, txs, j).(data := left.data) && R.RecoversTo(m.start, m.disk, left.data)
    ensures Wf(bd, sb, left) && AllSynced(sb, left) && i < |s0.inodes| && off <= |File(bd, s0, i)|
    ensures FilesAre(bd, s0, left, i, Splice(File(bd, s0, i), off, src[..Upto(|src|, j)]))
  {
    hide CallOk, TxOk, C.Idle, C.ChangeOk, R.Thrifty, R.Apply, R.Effect, R.RecoversTo, R.WholeOps, R.OpenGroup,
         R.Reserved, R.Pinned, R.Sees, R.Coherent, L.Machine.Valid, C.SameFrom, Wf, AllSynced, FilesAre, Splice, File,
         Upto, AfterTx, Carries, C.UpdatesOf, C.Below, C.Left, C.Durable, C.Spent, C.Cost, R.Less;
    j := 0;
    CallStart(s0, txs);
    C.IdleValid(m);
    ghost var supply, logs := m.power, Logs(txs);
    C.LeftNone(logs, supply, cut);
    var k := 0;
    while m.power > 0 && k < |txs|
      invariant 0 <= j <= k <= |txs| && m.Valid() && m.panicked == old(m.panicked) && |m.disk| == sb.size
      invariant m.power > 0 ==> C.Idle(m) && forall op :: first + k <= op ==> op !in m.waiting
      invariant forall op :: first + k <= op ==> op !in m.all
      invariant m.power == C.Left(logs, supply, cut, k)
      invariant forall l :: 0 <= l < k ==> (l < j <==> C.Durable(logs, supply, cut, l))
      invariant m.power > 0 ==> j == k
      invariant SameFs(sb, AfterTx(s0, txs, j).data, m.Stable())
      decreases |txs| - k
    {
      CallAt(bd, sb, i, off, src, s0, txs, k);
      TxChange(bd, sb, i, txs[k]);
      C.LeftNext(logs, supply, cut, k);
      ghost var done := C.Run(m, first + k, ChangeOf(txs[k]), k == cut, others(k), sb.inodestart);
      k := k + 1;
      if done {
        j := k;
      }
    }
    if k < |txs| {
      C.NotDurable(logs, supply, cut, k);
    }
    left := AfterTx(s0, txs, j).(data := m.Stable());
    C.Recovers(m);
    AfterCrash(bd, sb, i, off, src, s0, txs, j, m.Stable());
  }

  // ---- the state after the first transactions ----

  lemma {:induction false} AfterTxs(bd: Build, sb: Super, i: nat, off: nat, src: seq<byte>, s0: St, txs: seq<Tx>,
                                    j: nat)
    requires CallOk(bd, sb, i, off, src, s0, txs) && j <= |txs|
    ensures i < |s0.inodes| && off <= |File(bd, s0, i)|
    ensures var s := AfterTx(s0, txs, j);
            && Wf(bd, sb, s) && AllSynced(sb, s) && |s.inodes| == |s0.inodes|
            && off + Upto(|src|, j) <= s.inodes[i].size
            && FilesAre(bd, s0, s, i, Splice(File(bd, s0, i), off, src[..Upto(|src|, j)]))
  {
    hide CallOk, Wf, AllSynced, FilesAre, Splice, File, Upto, Carries, TxOk;
    CallFacts(bd, sb, i, off, src, s0, txs);
    UptoNext(|src|, if j == 0 then 0 else j - 1);
    if j == 0 {
      UptoNone(|src|);
      NothingWritten(bd, s0, i, off, src);
      Relogged(bd, sb, s0, s0, {}, i, Splice(File(bd, s0, i), off, src[..0]));
    } else {
      AfterTxs(bd, sb, i, off, src, s0, txs, j - 1);
      CallAt(bd, sb, i, off, src, s0, txs, j - 1);
      OneMore(bd, sb, i, off, src, s0, txs[j - 1], j - 1);
    }
  }

  lemma CallFacts(bd: Build, sb: Super, i: nat, off: nat, src: seq<byte>, s0: St, txs: seq<Tx>)
    requires CallOk(bd, sb, i, off, src, s0, txs)
    ensures Wf(bd, sb, s0) && AllSynced(sb, s0) && i < |s0.inodes| && off <= s0.inodes[i].size == |File(bd, s0, i)|
  {
    hide Wf, AllSynced, TxsOk;
  }

  lemma OneMore(bd: Build, sb: Super, i: nat, off: nat, src: seq<byte>, s0: St, tx: Tx, k: nat)
    requires i < |s0.inodes| && off <= |File(bd, s0, i)| && TxOk(bd, sb, i, tx) && Carries(tx, off, src, k)
    requires |tx.before.inodes| == |s0.inodes| && off + Upto(|src|, k) <= tx.before.inodes[i].size
    requires FilesAre(bd, s0, tx.before, i, Splice(File(bd, s0, i), off, src[..Upto(|src|, k)]))
    ensures var s := Begun(tx.after);
            && Wf(bd, sb, s) && AllSynced(sb, s) && |s.inodes| == |s0.inodes|
            && off + Upto(|src|, k + 1) <= s.inodes[i].size
            && FilesAre(bd, s0, s, i, Splice(File(bd, s0, i), off, src[..Upto(|src|, k + 1)]))
  {
    hide Wf, AllSynced, FilesAre, Splice, File, TxOk, Carries, Upto;
    TxWrote(bd, sb, i, tx);
    var was, n, n' := File(bd, s0, i), Upto(|src|, k), Upto(|src|, k + 1);
    FileLength(bd, s0, i);
    TxShare(bd, sb, i, tx, off, src, k);
    ChunkWritten(bd, sb, s0, tx.before, tx.after, i, off, src, n, n' - n);
    WroteSize(bd, tx.before, tx.after, i, off + n, src[n..n']);
    Relogged(bd, sb, s0, tx.after, {}, i, Splice(was, off, src[..n']));
  }

  lemma TxWrote(bd: Build, sb: Super, i: nat, tx: Tx)
    requires TxOk(bd, sb, i, tx)
    ensures Wf(bd, sb, tx.after) && AllSynced(sb, tx.after) && |tx.after.inodes| == |tx.before.inodes|
    ensures i < |tx.before.inodes| && tx.off <= |File(bd, tx.before, i)| == tx.before.inodes[i].size
    ensures FilesAre(bd, tx.before, tx.after, i, Splice(File(bd, tx.before, i), tx.off, tx.src))
  {
    hide Wf, AllSynced, Splice, Marked, WroteTo, Noted;
  }

  lemma TxShare(bd: Build, sb: Super, i: nat, tx: Tx, off: nat, src: seq<byte>, k: nat)
    requires TxOk(bd, sb, i, tx) && Carries(tx, off, src, k)
    ensures Upto(|src|, k) < Upto(|src|, k + 1) <= |src|
    ensures tx.off == off + Upto(|src|, k) && tx.src == src[Upto(|src|, k)..Upto(|src|, k + 1)]
  {
    hide Wf, AllSynced, WriteDone, Noted;
  }

  lemma WroteSize(bd: Build, s: St, s': St, i: nat, off: nat, src: seq<byte>)
    requires i < |s.inodes| && off <= |File(bd, s, i)|
    requires FilesAre(bd, s, s', i, Splice(File(bd, s, i), off, src))
    ensures off + |src| <= s'.inodes[i].size
  {
    FileLength(bd, s', i);
  }

  lemma AfterCrash(bd: Build, sb: Super, i: nat, off: nat, src: seq<byte>, s0: St, txs: seq<Tx>, j: nat,
                   d: seq<Block>)
    requires CallOk(bd, sb, i, off, src, s0, txs) && j <= |txs| && SameFs(sb, AfterTx(s0, txs, j).data, d)
    ensures i < |s0.inodes| && off <= |File(bd, s0, i)|
    ensures var s := AfterTx(s0, txs, j).(data := d);
            && Wf(bd, sb, s) && AllSynced(sb, s)
            && FilesAre(bd, s0, s, i, Splice(File(bd, s0, i), off, src[..Upto(|src|, j)]))
  {
    hide Wf, AllSynced, Splice, File, CallOk, SameFs, Upto, AfterTx;
    AfterTxs(bd, sb, i, off, src, s0, txs, j);
    var s := AfterTx(s0, txs, j);
    SameFsWf(bd, sb, s, d);
    SameFsSync(bd, sb, s, d);
    forall k | 0 <= k < |s.inodes|
      ensures File(bd, s.(data := d), k) == File(bd, s, k)
    {
      SameFsFile(bd, sb, s, d, k);
    }
  }
}
