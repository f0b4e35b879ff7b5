/** The redo log of log.c over a block disk (memide.c) and an abstract view of the buffer cache.

    Power may fail before any block write: `power` is the number of block writes the supply still allows,
    so running an operation for every value of `power` covers every crash point. When `power` reaches 0
    the machine is off; what is left is `disk`. A kernel panic halts the machine the same way. */
module RedoLog {
  import opened Basics
  import opened Words

  const MAXOPBLOCKS := 10
  const LOGSIZE := 30
  const NLOG := LOGSIZE // one header block and LOGSIZE - 1 data blocks

  type Disk = seq<Block>
  type OpId = nat

  /** One cached block modification followed by log_write, by system call `op`. */
  datatype Upd = Upd(op: OpId, b: nat, v: Block)

  /** The system calls that commit together, and their modifications in order. */
  datatype Group = Group(ops: set<OpId>, writes: seq<Upd>)

  /** What processes outside a transaction may do to the cache while a commit or recovery runs. */
  datatype CacheAct = Fetch(b: nat) | Recycle(b: nat)

  // ---- what a disk image means ----

  predicate InLog(start: nat, b: nat) {
    start <= b < start + NLOG
  }

  predicate Home(start: nat, size: nat, b: nat) {
    b < size && !InLog(start, b)
  }

  function HeadBlocks(hdr: Block): (h: seq<nat>)
    requires Word(hdr, 0) <= LOGSIZE
    ensures |h| == Word(hdr, 0)
  {
    seq(Word(hdr, 0), i requires 0 <= i < Word(hdr, 0) => Word(hdr, 1 + i))
  }

  /** A list of block numbers the log may hold: it fits, repeats nothing and stays out of the log. */
  predicate Loggable(start: nat, size: nat, h: seq<nat>) {
    && |h| <= NLOG - 1
    && (forall i :: 0 <= i < |h| ==> Home(start, size, h[i]))
    && (forall i, j :: 0 <= i < j < |h| ==> h[i] != h[j])
  }

  predicate Formatted(start: nat, d: Disk) {
    && start + NLOG <= |d| < UINT
    && Word(d[start], 0) <= NLOG - 1
    && Loggable(start, |d|, HeadBlocks(d[start]))
  }

  /** The image `d`, once recovered, holds `home` in every block outside the log. */
  ghost predicate RecoversTo(start: nat, d: Disk, home: Disk) {
    && Formatted(start, d)
    && |home| == |d|
    && var h := HeadBlocks(d[start]);
       && (forall i :: 0 <= i < |h| ==> home[h[i]] == d[start + 1 + i])
       && (forall b: nat :: Home(start, |d|, b) && b !in h ==> home[b] == d[b])
  }

  ghost predicate SameHome(start: nat, d: Disk, e: Disk) {
    |d| == |e| && forall b: nat :: Home(start, |d|, b) ==> d[b] == e[b]
  }

  /** An image recovers to one home content only. */
  lemma RecoveryUnique(start: nat, d: Disk, h1: Disk, h2: Disk)
    requires RecoversTo(start, d, h1) && RecoversTo(start, d, h2)
    ensures SameHome(start, h1, h2)
  {
    var h := HeadBlocks(d[start]);
    forall b: nat | Home(start, |d|, b)
      ensures h1[b] == h2[b]
    {
      if b in h {
        var i :| 0 <= i < |h| && h[i] == b;
        assert h1[h[i]] == d[start + 1 + i] == h2[h[i]];
      }
    }
  }

  lemma RecoverySize(start: nat, d: Disk, home: Disk)
    requires RecoversTo(start, d, home)
    ensures |home| == |d|
  {
  }

  // ---- the effect of modifications ----

  function Apply(d: Disk, ws: seq<Upd>): (r: Disk)
    ensures |r| == |d|
    decreases |ws|
  {
    if ws == [] then d
    else
      var u := ws[|ws| - 1];
      var p := Apply(d, ws[..|ws| - 1]);
      if u.b < |p| then p[u.b := u.v] else p
  }

  function Effect(initial: Disk, groups: seq<Group>): (r: Disk)
    ensures |r| == |initial|
    decreases |groups|
  {
    if groups == [] then initial
    else Apply(Effect(initial, groups[..|groups| - 1]), groups[|groups| - 1].writes)
  }

  function ByOp(ws: seq<Upd>, op: OpId): seq<Upd>
    decreases |ws|
  {
    if ws == [] then []
    else ByOp(ws[..|ws| - 1], op) + if ws[|ws| - 1].op == op then [ws[|ws| - 1]] else []
  }

  lemma ApplySnoc(d: Disk, ws: seq<Upd>, u: Upd)
    requires u.b < |d|
    ensures Apply(d, ws + [u]) == Apply(d, ws)[u.b := u.v]
  {
    assert (ws + [u])[..|ws|] == ws;
  }

  lemma EffectSnoc(initial: Disk, groups: seq<Group>, g: Group)
    ensures Effect(initial, groups + [g]) == Apply(Effect(initial, groups), g.writes)
  {
    assert (groups + [g])[..|groups|] == groups;
  }

  lemma ByOpSnoc(ws: seq<Upd>, u: Upd, op: OpId)
    ensures ByOp(ws + [u], op) == ByOp(ws, op) + if u.op == op then [u] else []
  {
    assert (ws + [u])[..|ws|] == ws;
  }

  lemma {:induction false} ByOpNone(ws: seq<Upd>, op: OpId)
    requires forall i :: 0 <= i < |ws| ==> ws[i].op != op
    ensures ByOp(ws, op) == []
    decreases |ws|
  {
    if ws != [] {
      ByOpNone(ws[..|ws| - 1], op);
    }
  }

  // ---- the on-disk header ----

  function PutBlocks(hdr: Block, h: seq<nat>, k: nat): (r: Block)
    requires k <= |h| <= LOGSIZE
  {
    if k == 0 then hdr else SetWord(PutBlocks(hdr, h, k - 1), k, h[k - 1])
  }

  function PutHead(hdr: Block, h: seq<nat>): Block
    requires |h| <= LOGSIZE
  {
    PutBlocks(SetWord(hdr, 0, |h|), h, |h|)
  }

  lemma {:induction false} PutBlocksWord(hdr: Block, h: seq<nat>, k: nat, j: nat)
    requires k <= |h| <= LOGSIZE && j < 128
    requires forall i :: 0 <= i < |h| ==> h[i] < UINT
    ensures Word(PutBlocks(hdr, h, k), j) == if 1 <= j <= k then h[j - 1] else Word(hdr, j)
  {
    if k > 0 {
      PutBlocksWord(hdr, h, k - 1, j);
      WordOfSetWord(PutBlocks(hdr, h, k - 1), k, h[k - 1], j);
    }
  }

  /** Reading back a written header gives the list that was written, whatever the buffer held before. */
  lemma HeadRoundTrip(hdr: Block, h: seq<nat>)
    requires |h| <= LOGSIZE
    requires forall i :: 0 <= i < |h| ==> h[i] < UINT
    ensures Word(PutHead(hdr, h), 0) == |h|
    ensures HeadBlocks(PutHead(hdr, h)) == h
  {
    var b := SetWord(hdr, 0, |h|);
    WordOfSetWord(hdr, 0, |h|, 0);
    PutBlocksWord(b, h, |h|, 0);
    var r := PutHead(hdr, h);
    forall i | 0 <= i < |h|
      ensures HeadBlocks(r)[i] == h[i]
    {
      PutBlocksWord(b, h, |h|, 1 + i);
    }
  }

  // ---- invariants of the running kernel ----

  function Elems(h: seq<nat>): set<nat> {
    set x | x in h
  }

  lemma ElemsTake(h: seq<nat>, k: nat)
    requires k < |h|
    ensures Elems(h[..k + 1]) == Elems(h[..k]) + {h[k]}
  {
    assert h[..k + 1] == h[..k] + [h[k]];
  }

  lemma ElemsNone()
    ensures Elems([]) == {}
  {
  }

  lemma LoggableFacts(start: nat, size: nat, h: seq<nat>)
    requires Loggable(start, size, h)
    ensures |h| <= NLOG - 1
    ensures forall i :: 0 <= i < |h| ==> Home(start, size, h[i])
    ensures forall i, j :: 0 <= i < j < |h| ==> h[i] != h[j]
    ensures forall b :: InLog(start, b) ==> b !in h
  {
  }

  /** Valid buffers that are not dirty hold what the disk holds. */
  ghost predicate Coherent(disk: Disk, cache: map<nat, Block>, dirty: set<nat>) {
    forall b :: b in cache ==> b < |disk| && (b !in dirty ==> cache[b] == disk[b])
  }

  /** The volatile state between transactions' block writes: dirty buffers are exactly the logged ones. */
  predicate Pinned(start: nat, disk: Disk, cache: map<nat, Block>, dirty: set<nat>, lh: seq<nat>) {
    && Loggable(start, |disk|, lh)
    && dirty == Elems(lh)
    && dirty <= cache.Keys
  }

  /** What is pinned is what is to be logged: dirty home blocks, none of them in the log area. */
  lemma PinnedFacts(start: nat, disk: Disk, cache: map<nat, Block>, dirty: set<nat>, lh: seq<nat>)
    requires Pinned(start, disk, cache, dirty, lh)
    ensures |lh| < NLOG && dirty <= cache.Keys
    ensures forall i :: 0 <= i < |lh| ==> lh[i] in dirty && lh[i] < |disk| && !InLog(start, lh[i])
    ensures forall b :: InLog(start, b) ==> b !in dirty
  {
  }

  /** Only blocks of the log after its head differ. */
  predicate OnlyLog(start: nat, d0: Disk, d: Disk) {
    |d| == |d0| && forall b :: 0 <= b < |d| && (b == start || !InLog(start, b)) ==> d[b] == d0[b]
  }

  /** The first `k` log blocks hold what the buffers of the first `k` logged blocks held. */
  predicate Copied(start: nat, d: Disk, cache: map<nat, Block>, lh: seq<nat>, k: nat)
    requires start + 1 + k <= |d| && k <= |lh|
  {
    forall i :: 0 <= i < k ==> lh[i] in cache && d[start + 1 + i] == cache[lh[i]]
  }

  lemma CopyNone(start: nat, d: Disk, cache: map<nat, Block>, lh: seq<nat>)
    requires start + 1 <= |d|
    ensures OnlyLog(start, d, d) && Copied(start, d, cache, lh, 0)
  {
  }

  lemma CopiedAt(start: nat, d: Disk, cache: map<nat, Block>, lh: seq<nat>)
    requires start + NLOG <= |d| && |lh| < NLOG
    ensures Copied(start, d, cache, lh, |lh|) ==>
              forall i :: 0 <= i < |lh| ==> lh[i] in cache && d[start + 1 + i] == cache[lh[i]]
  {
  }

  lemma CopyNext(start: nat, d0: Disk, d: Disk, cache: map<nat, Block>, lh: seq<nat>, k: nat, v: Block)
    requires start + NLOG <= |d| && k < |lh| < NLOG && OnlyLog(start, d0, d) && lh[k] in cache && v == cache[lh[k]]
    ensures OnlyLog(start, d0, d[start + 1 + k := v])
    ensures Copied(start, d, cache, lh, k) ==> Copied(start, d[start + 1 + k := v], cache, lh, k + 1)
    ensures InLog(start, start + 1 + k)
  {
  }

  /** `now` is the disk content a process sees through the cache. */
  ghost predicate Sees(start: nat, disk: Disk, cache: map<nat, Block>, dirty: set<nat>, now: Disk)
    requires dirty <= cache.Keys
  {
    && |now| == |disk|
    && forall b: nat :: Home(start, |disk|, b) ==> now[b] == if b in dirty then cache[b] else disk[b]
  }

  /** All or nothing: each operation's modifications lie in one group, complete and in order. */
  ghost predicate WholeOps(groups: seq<Group>, all: map<OpId, seq<Upd>>) {
    && (forall i, op :: 0 <= i < |groups| && op in groups[i].ops ==>
          op in all && ByOp(groups[i].writes, op) == all[op])
    && (forall i, k :: 0 <= i < |groups| && 0 <= k < |groups[i].writes| ==>
          groups[i].writes[k].op in groups[i].ops)
    && (forall i, j :: 0 <= i < j < |groups| ==> groups[i].ops !! groups[j].ops)
  }

  /** The group still open: disjoint from the committed ones, and it too holds its operations whole. */
  ghost predicate OpenGroup(groups: seq<Group>, open: Group, active: set<OpId>, all: map<OpId, seq<Upd>>) {
    && active <= open.ops <= all.Keys
    && (forall op :: op in open.ops ==> ByOp(open.writes, op) == all[op])
    && (forall k :: 0 <= k < |open.writes| ==> open.writes[k].op in open.ops)
    && (forall i :: 0 <= i < |groups| ==> groups[i].ops !! open.ops)
  }

  lemma BeginKeepsOps(groups: seq<Group>, open: Group, active: set<OpId>, all: map<OpId, seq<Upd>>, op: OpId)
    requires WholeOps(groups, all) && OpenGroup(groups, open, active, all)
    requires op !in all
    ensures op !in active
    ensures WholeOps(groups, all[op := []])
    ensures OpenGroup(groups, Group(open.ops + {op}, open.writes), active + {op}, all[op := []])
  {
    forall k | 0 <= k < |open.writes|
      ensures open.writes[k].op != op
    {
      assert open.writes[k].op in all;
    }
    ByOpNone(open.writes, op);
    forall i | 0 <= i < |groups|
      ensures op !in groups[i].ops
    {
    }
  }

  lemma ActiveKnown(groups: seq<Group>, open: Group, active: set<OpId>, all: map<OpId, seq<Upd>>, op: OpId)
    requires OpenGroup(groups, open, active, all) && op in active
    ensures op in open.ops && op in all
  {
  }

  lemma ActiveCounts(active: set<OpId>, op: OpId)
    requires op in active
    ensures |active| >= 1
  {
  }

  lemma ModifyKeepsOps(groups: seq<Group>, open: Group, active: set<OpId>, all: map<OpId, seq<Upd>>, u: Upd)
    requires WholeOps(groups, all) && OpenGroup(groups, open, active, all)
    requires u.op in active
    ensures WholeOps(groups, all[u.op := all[u.op] + [u]])
    ensures OpenGroup(groups, Group(open.ops, open.writes + [u]), active, all[u.op := all[u.op] + [u]])
  {
    var all' := all[u.op := all[u.op] + [u]];
    forall op | op in open.ops
      ensures ByOp(open.writes + [u], op) == all'[op]
    {
      ByOpSnoc(open.writes, u, op);
    }
    forall i, op | 0 <= i < |groups| && op in groups[i].ops
      ensures op in all' && ByOp(groups[i].writes, op) == all'[op]
    {
      assert op !in open.ops;
    }
  }

  lemma EndKeepsOps(groups: seq<Group>, open: Group, active: set<OpId>, all: map<OpId, seq<Upd>>, op: OpId)
    requires OpenGroup(groups, open, active, all)
    ensures OpenGroup(groups, open, active - {op}, all)
  {
  }

  lemma FreshGroup(groups: seq<Group>, all: map<OpId, seq<Upd>>)
    ensures OpenGroup(groups, Group({}, []), {}, all)
    ensures forall d: Disk :: Apply(d, []) == d
  {
  }

  lemma CommitKeepsOps(groups: seq<Group>, open: Group, all: map<OpId, seq<Upd>>)
    requires WholeOps(groups, all) && OpenGroup(groups, open, {}, all)
    ensures WholeOps(groups + [open], all)
    ensures OpenGroup(groups + [open], Group({}, []), {}, all)
  {
    var gs := groups + [open];
    forall i, k | 0 <= i < |gs| && 0 <= k < |gs[i].writes|
      ensures gs[i].writes[k].op in gs[i].ops
    {
      if i < |groups| {
        assert groups[i].writes[k].op in groups[i].ops;
      }
    }
    forall i, j | 0 <= i < j < |gs|
      ensures gs[i].ops !! gs[j].ops
    {
      if j < |groups| {
        assert groups[i].ops !! groups[j].ops;
      }
    }
  }

  lemma SeesHome(start: nat, disk: Disk, cache: map<nat, Block>, dirty: set<nat>, now: Disk, b: nat)
    requires dirty <= cache.Keys
    requires Sees(start, disk, cache, dirty, now) && Coherent(disk, cache, dirty) && Home(start, |disk|, b)
    ensures b < |now| && now[b] == if b in cache then cache[b] else disk[b]
  {
  }

  lemma LogElems(lh: seq<nat>, b: nat)
    ensures Elems(if b in lh then lh else lh + [b]) == Elems(lh) + {b}
  {
  }

  lemma LogLoggable(start: nat, size: nat, lh: seq<nat>, b: nat)
    requires Loggable(start, size, lh) && Home(start, size, b) && |lh| < NLOG - 1
    ensures Loggable(start, size, if b in lh then lh else lh + [b])
  {
  }

  /** A logged modification changes what processes see at that block and nothing else. */
  lemma LogKeepsView(start: nat, disk: Disk, cache: map<nat, Block>, dirty: set<nat>, lh: seq<nat>, now: Disk,
                     b: nat, v: Block)
    requires Pinned(start, disk, cache, dirty, lh) && Coherent(disk, cache, dirty)
    requires Sees(start, disk, cache, dirty, now)
    requires Home(start, |disk|, b) && |lh| < NLOG - 1
    ensures Pinned(start, disk, cache[b := v], dirty + {b}, if b in lh then lh else lh + [b])
    ensures Coherent(disk, cache[b := v], dirty + {b})
    ensures Sees(start, disk, cache[b := v], dirty + {b}, now[b := v])
  {
    hide Elems, Loggable, InLog;
    LogElems(lh, b);
    LogLoggable(start, |disk|, lh, b);
  }

  // ---- log space ----

  function Blocks(ws: seq<Upd>): set<nat> {
    set u | u in ws :: u.b
  }

  lemma BlocksSnoc(ws: seq<Upd>, u: Upd)
    ensures Blocks(ws + [u]) == Blocks(ws) + {u.b}
  {
    assert forall x :: x in ws + [u] <==> x in ws || x == u;
  }

  lemma {:induction false} BlocksCount(ws: seq<Upd>)
    ensures |Blocks(ws)| <= |ws|
    decreases |ws|
  {
    if ws == [] {
      assert Blocks(ws) == {};
    } else {
      var front := ws[..|ws| - 1];
      BlocksCount(front);
      BlocksSnoc(front, ws[|ws| - 1]);
      assert front + [ws[|ws| - 1]] == ws;
    }
  }

  /** Blocks that the active operations may still add, if each logs at most MAXOPBLOCKS - 1. */
  ghost function Slack(active: set<OpId>, all: map<OpId, seq<Upd>>): int
    requires active <= all.Keys
  {
    if active == {} then 0
    else
      var op :| op in active;
      (MAXOPBLOCKS - 1 - |Blocks(all[op])|) + Slack(active - {op}, all)
  }

  lemma {:induction false} SlackRemove(active: set<OpId>, all: map<OpId, seq<Upd>>, op: OpId)
    requires active <= all.Keys && op in active
    ensures Slack(active, all) == (MAXOPBLOCKS - 1 - |Blocks(all[op])|) + Slack(active - {op}, all)
    decreases active
  {
    var p :| p in active && Slack(active, all)
              == (MAXOPBLOCKS - 1 - |Blocks(all[p])|) + Slack(active - {p}, all);
    if p != op {
      SlackRemove(active - {p}, all, op);
      SlackRemove(active - {op}, all, p);
      assert active - {p} - {op} == active - {op} - {p};
    }
  }

  lemma {:induction false} SlackFrame(active: set<OpId>, t1: map<OpId, seq<Upd>>, t2: map<OpId, seq<Upd>>)
    requires active <= t1.Keys && active <= t2.Keys
    requires forall op :: op in active ==> t1[op] == t2[op]
    ensures Slack(active, t1) == Slack(active, t2)
    decreases active
  {
    if active != {} {
      var p :| p in active;
      SlackRemove(active, t1, p);
      SlackRemove(active, t2, p);
      SlackFrame(active - {p}, t1, t2);
    }
  }

  lemma {:induction false} SlackBounds(active: set<OpId>, all: map<OpId, seq<Upd>>)
    requires active <= all.Keys
    requires forall op :: op in active ==> |Blocks(all[op])| <= MAXOPBLOCKS - 1
    ensures 0 <= Slack(active, all) <= (MAXOPBLOCKS - 1) * |active|
    decreases active
  {
    if active != {} {
      var p :| p in active;
      SlackRemove(active, all, p);
      SlackBounds(active - {p}, all);
      assert |active - {p}| == |active| - 1;
    }
  }

  /** Every operation so far kept to MAXOPBLOCKS - 1 distinct blocks. */
  ghost predicate Thrifty(all: map<OpId, seq<Upd>>) {
    forall op :: op in all ==> |Blocks(all[op])| <= MAXOPBLOCKS - 1
  }

  lemma ThriftyBefore(all: map<OpId, seq<Upd>>, op: OpId, ws: seq<Upd>)
    requires op in all ==> Blocks(all[op]) <= Blocks(ws)
    requires Thrifty(all[op := ws])
    ensures Thrifty(all)
  {
    forall o | o in all
      ensures |Blocks(all[o])| <= MAXOPBLOCKS - 1
    {
      assert o in all[op := ws];
      if o == op {
        SubsetSize(Blocks(all[op]), Blocks(ws));
      }
    }
  }

  ghost predicate Reserved(active: set<OpId>, all: map<OpId, seq<Upd>>, lh: seq<nat>) {
    && active <= all.Keys
    && (forall op :: op in active ==> Blocks(all[op]) <= Elems(lh))
    && (Thrifty(all) ==> |lh| + Slack(active, all) <= NLOG - 2)
  }

  lemma BeginReserved(active: set<OpId>, all: map<OpId, seq<Upd>>, lh: seq<nat>, op: OpId)
    requires Reserved(active, all, lh) && op !in all
    requires active == {} ==> lh == []
    requires |lh| + (|active| + 1) * MAXOPBLOCKS <= LOGSIZE
    ensures Reserved(active + {op}, all[op := []], lh)
    ensures Thrifty(all[op := []]) ==> Thrifty(all)
  {
    var t := all[op := []];
    if Thrifty(t) {
      ThriftyBefore(all, op, []);
      SlackRemove(active + {op}, t, op);
      assert active + {op} - {op} == active;
      SlackFrame(active, all, t);
      SlackBounds(active, all);
    }
  }

  lemma LogReserved(active: set<OpId>, all: map<OpId, seq<Upd>>, lh: seq<nat>, u: Upd)
    requires Reserved(active, all, lh) && u.op in active
    ensures Reserved(active, all[u.op := all[u.op] + [u]], if u.b in lh then lh else lh + [u.b])
    ensures Thrifty(all[u.op := all[u.op] + [u]]) ==> Thrifty(all)
  {
    var t := all[u.op := all[u.op] + [u]];
    BlocksSnoc(all[u.op], u);
    if Thrifty(t) {
      ThriftyBefore(all, u.op, t[u.op]);
      SlackRemove(active, all, u.op);
      SlackRemove(active, t, u.op);
      SlackFrame(active - {u.op}, all, t);
      SubsetSize(Blocks(all[u.op]), Blocks(t[u.op]));
    }
  }

  lemma CommitReserved(all: map<OpId, seq<Upd>>)
    ensures Reserved({}, all, [])
  {
  }

  lemma EndReserved(active: set<OpId>, all: map<OpId, seq<Upd>>, lh: seq<nat>, op: OpId)
    requires Reserved(active, all, lh) && op in active
    ensures Reserved(active - {op}, all, lh)
  {
    SlackRemove(active, all, op);
  }

  /** With thrifty operations only, an active one always finds room: log_write's capacity test passes. */
  lemma RoomToLog(active: set<OpId>, all: map<OpId, seq<Upd>>, lh: seq<nat>)
    requires Reserved(active, all, lh) && Thrifty(all)
    ensures |lh| < NLOG - 1
  {
    SlackBounds(active, all);
  }

  function Less(p: nat, k: nat): nat {
    if p <= k then 0 else p - k
  }
}
