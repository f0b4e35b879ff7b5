/** One transaction of any kind through the log: what its list of logged blocks must be, and what a crash leaves. */
module Commit {
  import opened Basics
  import opened Words
  import R = RedoLog
  import L = Log
  import opened FsTree

  /** A transaction as the log sees it: the content before and after, and the blocks passed to log_write. */
  datatype Change = Change(before: seq<Block>, after: seq<Block>, logged: set<nat>)

  /** Every block that differs is logged, and only blocks from `base` on are. */
  ghost predicate ChangeOk(base: nat, size: nat, c: Change) {
    && |c.before| == |c.after| == size
    && Noted(c.before, {}, c.after, c.logged)
    && forall x :: x in c.logged ==> base <= x < size
  }

  /** The log lies below block `base`. */
  predicate Below(start: nat, base: nat) {
    start + R.NLOG <= base
  }

  /** Two contents agree from block `base` on. */
  predicate SameFrom(base: nat, d: seq<Block>, e: seq<Block>) {
    |d| == |e| && forall b :: base <= b < |d| ==> d[b] == e[b]
  }

  // ---- as a list of modifications ----

  /** Each logged block below `k` takes its final content. */
  ghost function Updates(op: R.OpId, d: seq<Block>, logged: set<nat>, k: nat): (ws: seq<R.Upd>)
    requires k <= |d|
    ensures forall i :: 0 <= i < |ws| ==> ws[i].op == op && ws[i].b in logged && ws[i].b < k
  {
    if k == 0 then []
    else if k - 1 in logged then Updates(op, d, logged, k - 1) + [R.Upd(op, k - 1, d[k - 1])]
    else Updates(op, d, logged, k - 1)
  }

  ghost function UpdatesOf(op: R.OpId, c: Change): seq<R.Upd> {
    Updates(op, c.after, c.logged, |c.after|)
  }

  lemma {:induction false} UpdatesApplied(op: R.OpId, d0: seq<Block>, d: seq<Block>, logged: set<nat>, k: nat)
    requires k <= |d| == |d0|
    ensures forall b :: 0 <= b < |d| ==>
              R.Apply(d0, Updates(op, d, logged, k))[b] == if b < k && b in logged then d[b] else d0[b]
  {
    hide R.Apply;
    R.FreshGroup([], map[]);
    if k > 0 {
      UpdatesApplied(op, d0, d, logged, k - 1);
      if k - 1 in logged {
        R.ApplySnoc(d0, Updates(op, d, logged, k - 1), R.Upd(op, k - 1, d[k - 1]));
      }
    }
  }

  lemma UpdatesNext(op: R.OpId, d: seq<Block>, logged: set<nat>, k: nat)
    requires k < |d|
    ensures Updates(op, d, logged, k + 1)
            == if k in logged then Updates(op, d, logged, k) + [R.Upd(op, k, d[k])] else Updates(op, d, logged, k)
  {
  }

  lemma UpdatesBlocks(op: R.OpId, d: seq<Block>, logged: set<nat>, k: nat)
    requires k <= |d|
    ensures R.Blocks(Updates(op, d, logged, k)) <= logged
    ensures |R.Blocks(Updates(op, d, logged, k))| <= |logged|
  {
    SubsetSize(R.Blocks(Updates(op, d, logged, k)), logged);
  }

  /** Carrying out the logged blocks carries out the transaction: nothing it changed is missing. */
  lemma ChangeAsUpdates(base: nat, size: nat, c: Change, op: R.OpId)
    requires ChangeOk(base, size, c)
    ensures R.Apply(c.before, UpdatesOf(op, c)) == c.after
    ensures forall k :: 0 <= k < |UpdatesOf(op, c)| ==> UpdatesOf(op, c)[k].op == op
    ensures |R.Blocks(UpdatesOf(op, c))| <= |c.logged|
  {
    UpdatesApplied(op, c.before, c.after, c.logged, |c.after|);
    UpdatesBlocks(op, c.after, c.logged, |c.after|);
  }

  // ---- its writes ----

  /** What a process sees while the blocks below `k` have been passed to log_write. */
  ghost predicate Halfway(d0: seq<Block>, c: Change, k: nat, now: seq<Block>) {
    && |now| == |d0| == |c.after|
    && forall b :: 0 <= b < |now| ==> now[b] == if b < k && b in c.logged then c.after[b] else d0[b]
  }

  lemma HalfwayNone(base: nat, size: nat, c: Change, d0: seq<Block>)
    requires ChangeOk(base, size, c) && SameFrom(base, c.before, d0)
    ensures Halfway(d0, c, 0, d0)
  {
  }

  lemma HalfwayNext(d0: seq<Block>, c: Change, k: nat, now: seq<Block>)
    requires Halfway(d0, c, k, now) && k < |c.after|
    ensures |now| == |c.after|
    ensures Halfway(d0, c, k + 1, if k in c.logged then now[k := c.after[k]] else now)
  {
  }

  /** With all of them passed, it sees the state after the transaction. */
  lemma HalfwayDone(base: nat, size: nat, c: Change, d0: seq<Block>, now: seq<Block>)
    requires ChangeOk(base, size, c) && SameFrom(base, c.before, d0) && Halfway(d0, c, |c.after|, now)
    ensures SameFrom(base, c.after, now)
  {
  }

  lemma ChangeSize(base: nat, size: nat, c: Change)
    requires ChangeOk(base, size, c)
    ensures |c.after| == size
  {
  }

  /** The blocks of a transaction are outside the log. */
  lemma LoggedHome(start: nat, base: nat, size: nat, c: Change, b: nat)
    requires ChangeOk(base, size, c) && Below(start, base) && b in c.logged
    ensures R.Home(start, size, b)
  {
  }

  function BelowPart(s: set<nat>, k: nat): set<nat> {
    set x | x in s && x < k
  }

  lemma BelowPartNone(s: set<nat>)
    ensures |BelowPart(s, 0)| == 0
  {
    assert BelowPart(s, 0) == {};
  }

  lemma BelowPartNext(s: set<nat>, k: nat)
    ensures |BelowPart(s, k + 1)| == |BelowPart(s, k)| + if k in s then 1 else 0
    ensures |BelowPart(s, k + 1)| <= |s|
  {
    assert BelowPart(s, k + 1) == BelowPart(s, k) + if k in s then {k} else {};
    SubsetSize(BelowPart(s, k + 1), s);
  }

  lemma BelowPartAll(s: set<nat>, k: nat)
    requires forall x :: x in s ==> x < k
    ensures BelowPart(s, k) == s
  {
  }

  /** The list holds the logged blocks below `k`. */
  predicate Listed(lh: seq<nat>, s: set<nat>, k: nat) {
    |lh| == |BelowPart(s, k)| && forall x :: x in lh ==> x < k
  }

  lemma ListedNone(s: set<nat>)
    ensures Listed([], s, 0)
  {
    BelowPartNone(s);
  }

  lemma ListedNext(lh: seq<nat>, s: set<nat>, k: nat)
    requires Listed(lh, s, k)
    ensures k !in lh && Listed(if k in s then lh + [k] else lh, s, k + 1)
    ensures k in s ==> |lh| < |s|
  {
    hide BelowPart;
    BelowPartNext(s, k);
  }

  lemma ListedAll(base: nat, size: nat, c: Change, lh: seq<nat>)
    requires ChangeOk(base, size, c) && Listed(lh, c.logged, size)
    ensures |lh| == |c.logged|
  {
    BelowPartAll(c.logged, size);
  }

  /** The history `all` is `all0` with the transaction's blocks below `k` under `op`. */
  ghost predicate Recorded(all0: map<R.OpId, seq<R.Upd>>, all: map<R.OpId, seq<R.Upd>>, op: R.OpId, c: Change, k: nat)
  {
    k <= |c.after| && all == all0[op := Updates(op, c.after, c.logged, k)]
  }

  lemma RecordedNone(all: map<R.OpId, seq<R.Upd>>, op: R.OpId, c: Change)
    requires op in all && all[op] == []
    ensures Recorded(all, all, op, c, 0)
  {
  }

  lemma RecordedNext(all0: map<R.OpId, seq<R.Upd>>, all: map<R.OpId, seq<R.Upd>>, op: R.OpId, c: Change, k: nat)
    requires Recorded(all0, all, op, c, k) && k < |c.after|
    ensures op in all
    ensures Recorded(all0, if k in c.logged then all[op := all[op] + [R.Upd(op, k, c.after[k])]] else all, op, c, k + 1)
  {
    UpdatesNext(op, c.after, c.logged, k);
  }

  lemma RecordedAll(all0: map<R.OpId, seq<R.Upd>>, all: map<R.OpId, seq<R.Upd>>, op: R.OpId, c: Change)
    requires Recorded(all0, all, op, c, |c.after|)
    ensures all == all0[op := UpdatesOf(op, c)]
  {
  }

  /** The history stays thrifty. */
  lemma RecordedThrifty(all0: map<R.OpId, seq<R.Upd>>, all: map<R.OpId, seq<R.Upd>>, op: R.OpId, c: Change, k: nat)
    requires R.Thrifty(all0) && |c.logged| < R.MAXOPBLOCKS && Recorded(all0, all, op, c, k)
    ensures R.Thrifty(all)
  {
    UpdatesBlocks(op, c.after, c.logged, k);
  }

  /** Block `k` of the transaction, if it logs that block, through bread, log_write and brelse. */
  method LogBlock(m: L.Machine, op: R.OpId, c: Change, k: nat, ghost base: nat)
    requires m.Valid() && m.power > 0 && op in m.active && op in m.all
    requires ChangeOk(base, |m.disk|, c) && Below(m.start, base) && k < |c.after|
    requires k in c.logged ==> R.Thrifty(m.all) || |m.lh| < R.NLOG - 1
    modifies m`power, m`cache, m`dirty, m`lh, m`open, m`all, m`panicked
    ensures m.Valid() && m.power == old(m.power) && m.panicked == old(m.panicked)
    ensures k in c.logged ==> k < |old(m.Now())| && m.Now() == old(m.Now())[k := c.after[k]]
    ensures k in c.logged ==> m.all == old(m.all)[op := old(m.all)[op] + [R.Upd(op, k, c.after[k])]]
    ensures k in c.logged ==> m.lh == if k in old(m.lh) then old(m.lh) else old(m.lh) + [k]
    ensures k !in c.logged ==> m.Now() == old(m.Now()) && m.all == old(m.all) && m.lh == old(m.lh)
  {
    hide ChangeOk, R.Thrifty, R.Apply, R.Effect, R.RecoversTo, R.WholeOps, R.OpenGroup, R.Reserved, R.Pinned, R.Sees,
         R.Coherent, L.Machine.Valid, L.Machine.Now, Below, R.Home;
    if k in c.logged {
      LoggedHome(m.start, base, |m.disk|, c, k);
      var ok := m.Modify(op, k, c.after[k]);
      assert ok; // panic("too big a transaction") cannot happen
    }
  }

  /** In a log of its own every log_write of the transaction finds room, as long as it has no more blocks than
      the log; afterwards every reader sees the state after it, and the log lists exactly its blocks. */
  method LogAlone(m: L.Machine, op: R.OpId, c: Change, ghost base: nat)
    requires m.Valid() && m.power > 0 && op in m.active && op in m.all && m.all[op] == [] && m.lh == []
    requires ChangeOk(base, |m.disk|, c) && |c.logged| <= R.NLOG - 1
    requires Below(m.start, base) && SameFrom(base, c.before, m.Now())
    modifies m`power, m`cache, m`dirty, m`lh, m`open, m`all, m`panicked
    ensures m.Valid() && m.power == old(m.power) && m.panicked == old(m.panicked)
    ensures m.all == old(m.all)[op := UpdatesOf(op, c)]
    ensures SameFrom(base, c.after, m.Now()) && |m.lh| == |c.logged|
  {
    hide ChangeOk, Halfway, Noted, R.Thrifty, R.Apply, R.Effect, R.RecoversTo, R.WholeOps, R.OpenGroup, R.Reserved,
         R.Pinned, R.Sees, R.Coherent, L.Machine.Valid, L.Machine.Now, Listed, Recorded, UpdatesOf, R.Blocks, SameFrom,
         Below, R.Home;
    ChangeSize(base, |m.disk|, c);
    ghost var d0, all0 := m.Now(), m.all;
    HalfwayNone(base, |m.disk|, c, d0);
    ListedNone(c.logged);
    RecordedNone(m.all, op, c);
    var b := 0;
    while b < |c.after|
      invariant 0 <= b <= |c.after|
      invariant m.Valid() && m.power == old(m.power) && m.panicked == old(m.panicked)
      invariant Recorded(all0, m.all, op, c, b)
      invariant Halfway(d0, c, b, m.Now())
      invariant Listed(m.lh, c.logged, b)
    {
      HalfwayNext(d0, c, b, m.Now());
      RecordedNext(all0, m.all, op, c, b);
      ListedNext(m.lh, c.logged, b);
      LogBlock(m, op, c, b, base);
      b := b + 1;
    }
    ListedAll(base, |m.disk|, c, m.lh);
    RecordedAll(all0, m.all, op, c);
    HalfwayDone(base, |m.disk|, c, d0, m.Now());
  }

  /** In a log shared with other operations the same holds of a transaction of at most nine blocks, from any valid
      state, as long as the others keep to nine too. */
  method LogShared(m: L.Machine, op: R.OpId, c: Change, ghost base: nat)
    requires m.Valid() && m.power > 0 && op in m.active && op in m.all && m.all[op] == []
    requires ChangeOk(base, |m.disk|, c) && |c.logged| < R.MAXOPBLOCKS && R.Thrifty(m.all)
    requires Below(m.start, base) && SameFrom(base, c.before, m.Now())
    modifies m`power, m`cache, m`dirty, m`lh, m`open, m`all, m`panicked
    ensures m.Valid() && m.power == old(m.power) && m.panicked == old(m.panicked)
    ensures m.all == old(m.all)[op := UpdatesOf(op, c)] && R.Thrifty(m.all)
    ensures SameFrom(base, c.after, m.Now())
  {
    hide ChangeOk, Halfway, Noted, R.Thrifty, R.Apply, R.Effect, R.RecoversTo, R.WholeOps, R.OpenGroup, R.Reserved,
         R.Pinned, R.Sees, R.Coherent, L.Machine.Valid, L.Machine.Now, Recorded, UpdatesOf, R.Blocks, SameFrom,
         Below, R.Home;
    ChangeSize(base, |m.disk|, c);
    ghost var d0, all0 := m.Now(), m.all;
    HalfwayNone(base, |m.disk|, c, d0);
    RecordedNone(m.all, op, c);
    var b := 0;
    while b < |c.after|
      invariant 0 <= b <= |c.after|
      invariant m.Valid() && m.power == old(m.power) && m.panicked == old(m.panicked)
      invariant Recorded(all0, m.all, op, c, b)
      invariant Halfway(d0, c, b, m.Now())
    {
      HalfwayNext(d0, c, b, m.Now());
      RecordedNext(all0, m.all, op, c, b);
      RecordedThrifty(all0, m.all, op, c, b);
      LogBlock(m, op, c, b, base);
      b := b + 1;
    }
    RecordedThrifty(all0, m.all, op, c, |c.after|);
    RecordedAll(all0, m.all, op, c);
    HalfwayDone(base, |m.disk|, c, d0, m.Now());
  }

  /** Whatever interleaving the operations run in: as long as each has logged only blocks of a transaction that
      logs at most nine, log_write has room. */
  lemma WritesFindRoom(active: set<R.OpId>, all: map<R.OpId, seq<R.Upd>>, lh: seq<nat>, logs: map<R.OpId, set<nat>>)
    requires R.Reserved(active, all, lh)
    requires forall op :: op in all ==>
               op in logs && |logs[op]| < R.MAXOPBLOCKS && R.Blocks(all[op]) <= logs[op]
    ensures R.Thrifty(all) && |lh| < R.NLOG - 1
  {
    forall op | op in all
      ensures |R.Blocks(all[op])| <= R.MAXOPBLOCKS - 1
    {
      SubsetSize(R.Blocks(all[op]), logs[op]);
    }
    R.RoomToLog(active, all, lh);
  }

  // ---- its commit ----

  /** The machine is on and no operation is open. */
  ghost predicate Idle(m: L.Machine)
    reads m
  {
    m.Valid() && m.power > 0 && m.active == {} && !m.committing
  }

  lemma IdleValid(m: L.Machine)
    requires Idle(m)
    ensures m.Valid() && m.power > 0
  {
  }

  /** Then nothing is in the log and processes see the committed content. */
  lemma IdleFacts(m: L.Machine)
    requires Idle(m)
    ensures m.Now() == m.Stable() && m.lh == [] && m.outstanding == 0 && |m.disk| == |m.Stable()|
    ensures m.open == R.Group({}, [])
  {
    hide R.WholeOps, R.OpenGroup, R.Reserved, R.Thrifty, R.Pinned, R.Sees, R.Coherent, R.Effect;
    R.RecoverySize(m.start, m.disk, m.Stable());
  }

  /** begin_op and the writes of one transaction: nothing reaches the disk. */
  method Open(m: L.Machine, op: R.OpId, c: Change, ghost base: nat)
    requires Idle(m) && op !in m.all && op !in m.waiting
    requires ChangeOk(base, |m.disk|, c) && |c.logged| <= R.NLOG - 1
    requires Below(m.start, base) && SameFrom(base, c.before, m.Stable())
    modifies m
    ensures m.Valid() && m.power == old(m.power) && m.panicked == old(m.panicked) && m.disk == old(m.disk)
    ensures m.active == {op} && m.groups == old(m.groups) && |m.lh| == |c.logged|
    ensures m.all == old(m.all)[op := UpdatesOf(op, c)]
    ensures SameFrom(base, c.after, m.Now())
  {
    hide ChangeOk, R.Thrifty, R.Apply, R.Effect, R.RecoversTo, R.WholeOps, R.OpenGroup, R.Reserved,
         R.Pinned, R.Sees, R.Coherent, L.Machine.Valid, L.Machine.Now, L.Machine.Stable, SameFrom, UpdatesOf, Below;
    IdleFacts(m);
    var granted := m.BeginOp(op);
    OpenNothing(m);
    LogAlone(m, op, c, base);
  }

  /** end_op of the only open operation, with the commit: all of it happens or nothing, and it happens exactly if
      the supply of block writes outlasts the listed blocks, so that the header is written. */
  method Close(m: L.Machine, op: R.OpId, others: nat -> seq<R.CacheAct>) returns (ghost done: bool)
    requires m.Valid() && m.power > 0 && m.active == {op}
    modifies m
    ensures m.Valid() && m.panicked == old(m.panicked) && m.all == old(m.all) && |m.disk| == |old(m.disk)|
    ensures m.Stable() == if done then old(m.Now()) else old(m.Stable())
    ensures done <==> old(m.lh) == [] || |old(m.lh)| < old(m.power)
    ensures m.power == if old(m.lh) == [] then old(m.power) else R.Less(old(m.power), 2 * |old(m.lh)| + 2)
    ensures m.power > 0 ==> Idle(m) && m.waiting == {}
  {
    hide R.Thrifty, R.Apply, R.Effect, R.RecoversTo, R.WholeOps, R.OpenGroup, R.Reserved,
         R.Pinned, R.Sees, R.Coherent, L.Machine.Valid, L.Machine.Now, L.Machine.Stable;
    ghost var groups, open := m.groups, m.open;
    StableNow(m);
    var last := m.EndOp(op);
    m.CommitGroup(others);
    done := m.groups == groups + [open];
    CommitStable(m, groups, open, old(m.Stable()), old(m.Now()));
  }

  /** Block writes of a commit: each logged block goes to the log and home, the header is written twice. */
  function Cost(logged: set<nat>): nat {
    if logged == {} then 0 else 2 * |logged| + 2
  }

  lemma CostNone(logged: set<nat>)
    ensures logged == {} <==> |logged| == 0
  {
  }

  /** begin_op, the writes of one transaction, end_op with its commit. What is on disk stands for the state after
      the transaction exactly if power is not cut before the commit and the supply covers the blocks of the log and
      the header; otherwise for the state before it. */
  method Run(m: L.Machine, op: R.OpId, c: Change, cut: bool, others: nat -> seq<R.CacheAct>, ghost base: nat)
    returns (ghost done: bool)
    requires Idle(m) && op !in m.all && op !in m.waiting
    requires ChangeOk(base, |m.disk|, c) && |c.logged| <= R.NLOG - 1
    requires Below(m.start, base) && SameFrom(base, c.before, m.Stable())
    modifies m
    ensures m.Valid() && m.panicked == old(m.panicked) && |m.disk| == |old(m.disk)|
    ensures m.all == old(m.all)[op := UpdatesOf(op, c)]
    ensures done <==> !cut && |c.logged| < old(m.power)
    ensures SameFrom(base, if done then c.after else c.before, m.Stable())
    ensures m.power == if cut then 0 else R.Less(old(m.power), Cost(c.logged))
    ensures m.power > 0 ==> Idle(m) && m.waiting == {}
  {
    hide ChangeOk, Idle, R.Thrifty, L.Machine.Valid, L.Machine.Now, L.Machine.Stable, SameFrom, UpdatesOf, Below;
    IdleValid(m);
    Open(m, op, c, base);
    if cut {
      m.LosePower();
      done := false;
    } else {
      CostNone(c.logged);
      done := Close(m, op, others);
    }
  }

  // ---- several transactions, one after another ----

  /** Block writes that the first `k` transactions take, given what each logs. */
  function Spent(logs: seq<set<nat>>, k: nat): nat
    requires k <= |logs|
  {
    if k == 0 then 0 else Spent(logs, k - 1) + Cost(logs[k - 1])
  }

  /** Transaction number `k` is durable: power is not cut before its commit, and the supply covers everything
      before it and its own blocks in the log, and still the header. */
  predicate Durable(logs: seq<set<nat>>, supply: nat, cut: nat, k: nat)
    requires k < |logs|
  {
    k < cut && Spent(logs, k) + |logs[k]| < supply
  }

  lemma {:induction false} SpentGrows(logs: seq<set<nat>>, k: nat, l: nat)
    requires k <= l <= |logs|
    ensures Spent(logs, k) <= Spent(logs, l)
    decreases l - k
  {
    if k < l {
      SpentGrows(logs, k, l - 1);
    }
  }

  /** What is left of the supply after the first `k` transactions. */
  function Left(logs: seq<set<nat>>, supply: nat, cut: nat, k: nat): nat
    requires k <= |logs|
  {
    if k > cut then 0 else R.Less(supply, Spent(logs, k))
  }

  lemma LeftNone(logs: seq<set<nat>>, supply: nat, cut: nat)
    ensures Left(logs, supply, cut, 0) == supply
  {
  }

  /** Whether the next transaction is durable, and what it leaves. */
  lemma LeftNext(logs: seq<set<nat>>, supply: nat, cut: nat, k: nat)
    requires k < |logs| && Left(logs, supply, cut, k) > 0
    ensures var p := Left(logs, supply, cut, k);
            && (Durable(logs, supply, cut, k) <==> k != cut && |logs[k]| < p)
            && Left(logs, supply, cut, k + 1) == (if k == cut then 0 else R.Less(p, Cost(logs[k])))
            && (Left(logs, supply, cut, k + 1) > 0 ==> Durable(logs, supply, cut, k))
  {
    CostNone(logs[k]);
  }

  /** Once the power is gone no later transaction is durable. */
  lemma NotDurable(logs: seq<set<nat>>, supply: nat, cut: nat, k: nat)
    requires k <= |logs| && Left(logs, supply, cut, k) == 0
    ensures Left(logs, supply, cut, |logs|) == 0
    ensures forall l :: k <= l < |logs| ==> !Durable(logs, supply, cut, l)
  {
    SpentGrows(logs, k, |logs|);
    forall l | k <= l < |logs|
      ensures !Durable(logs, supply, cut, l)
    {
      SpentGrows(logs, k, l);
    }
  }

  /** What the first transactions take does not depend on those after them. */
  lemma {:induction false} SpentFront(logs: seq<set<nat>>, more: seq<set<nat>>, k: nat)
    requires k <= |logs|
    ensures Spent(logs + more, k) == Spent(logs, k)
  {
    if k > 0 {
      SpentFront(logs, more, k - 1);
    }
  }

  lemma OpenNothing(m: L.Machine)
    requires m.open.writes == []
    ensures m.Now() == m.Stable()
  {
  }

  lemma StableNow(m: L.Machine)
    ensures m.Stable() == R.Effect(m.initial, m.groups) && m.Now() == R.Apply(m.Stable(), m.open.writes)
  {
  }

  lemma CommitStable(m: L.Machine, groups: seq<R.Group>, open: R.Group, was: R.Disk, now: R.Disk)
    requires m.groups == groups || m.groups == groups + [open]
    requires was == R.Effect(m.initial, groups) && now == R.Apply(was, open.writes)
    ensures m.Stable() == if m.groups == groups + [open] then now else was
  {
    R.EffectSnoc(m.initial, groups, open);
  }

  lemma Recovers(m: L.Machine)
    requires m.Valid()
    ensures R.RecoversTo(m.start, m.disk, m.Stable())
  {
  }
}
