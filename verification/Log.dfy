/** log.c as a machine: the in-memory log, the cache it pins buffers in, and the disk below. */
module Log {
  import opened Basics
  import opened Words
  import opened RedoLog
  import opened LogTrace

  class Machine {
    const start: nat             // log.start

    var disk: Disk
    var power: nat               // block writes left before the machine goes off

    var cache: map<nat, Block>   // valid buffers
    var dirty: set<nat>          // buffers with B_DIRTY
    var lh: seq<nat>             // log.lh
    var outstanding: nat         // log.outstanding
    var committing: bool         // log.committing
    var waiting: set<OpId>       // callers asleep in begin_op

    // The history the machine is judged against.
    ghost const initial: Disk
    ghost var groups: seq<Group>               // committed
    ghost var open: Group                      // begun since the last commit
    var active: set<OpId>                      // between begin_op and end_op
    var all: map<OpId, seq<Upd>>               // every modification each operation ever made
    ghost var panicked: bool

    ghost function Stable(): Disk
      reads `groups
    {
      Effect(initial, groups)
    }

    ghost function Now(): Disk
      reads `groups, `open
    {
      Apply(Stable(), open.writes)
    }

    /** What is true whether or not the machine is on. */
    ghost predicate OnDisk()
      reads this
    {
      && RecoversTo(start, disk, Stable())
      && WholeOps(groups, all)
    }

    ghost predicate Volatile(now: Disk)
      requires start + NLOG <= |disk|
      reads this
    {
      && Word(disk[start], 0) == 0
      && Pinned(start, disk, cache, dirty, lh)
      && Coherent(disk, cache, dirty)
      && Sees(start, disk, cache, dirty, now)
    }

    ghost predicate Counters()
      reads this
    {
      && outstanding == |active|
      && (committing ==> active == {})
      && (!committing && active == {} ==> lh == [] && open == Group({}, []))
      && Reserved(active, all, lh)
      && (waiting != {} ==> committing || |lh| + (outstanding + 1) * MAXOPBLOCKS > LOGSIZE)
    }

    ghost predicate Valid()
      reads this
    {
      && start + NLOG <= |disk| < UINT
      && OnDisk()
      && (panicked ==> !Thrifty(all))
      && (power > 0 ==> OpenGroup(groups, open, active, all) && Volatile(Now()) && Counters())
    }

    ghost function Snap(): State
      reads this
    {
      State(disk, power, cache, dirty, lh, outstanding, committing, waiting, groups, open, active, all, panicked)
    }

    // ---- bio.c and memide.c, as seen from here ----

    method BRead(b: nat) returns (v: Block)
      requires b < |disk|
      modifies `cache
      ensures v == if b in old(cache) then old(cache)[b] else disk[b]
      ensures cache == old(cache)[b := v]
    {
      if b in cache {
        v := cache[b];
        assert cache == cache[b := v];
      } else {
        v := disk[b];
        cache := cache[b := v];
      }
    }

    method BWrite(b: nat, v: Block)
      requires b < |disk|
      modifies `disk, `power, `cache, `dirty
      ensures cache == old(cache)[b := v] && dirty == old(dirty) - {b}
      ensures power == Less(old(power), 1)
      ensures disk == if old(power) > 0 then old(disk)[b := v] else old(disk)
    {
      cache := cache[b := v];
      dirty := dirty - {b};
      if power > 0 {
        disk := disk[b := v];
        power := power - 1;
      }
    }

    /** A process reads a block, or recycles a clean buffer. */
    method Another(act: CacheAct)
      modifies `cache
      ensures cache == AfterAct(disk, old(cache), dirty, act)
    {
      match act {
        case Fetch(b) =>
          if b < |disk| {
            var _ := BRead(b);
          }
        case Recycle(b) =>
          if b !in dirty {
            cache := cache - {b};
          }
      }
    }

    /** Other processes read blocks and recycle clean buffers. */
    method Others(acts: seq<CacheAct>)
      modifies `cache
      ensures forall b :: b in dirty && b in old(cache) ==> b in cache && cache[b] == old(cache)[b]
      ensures Coherent(disk, old(cache), dirty) ==> Coherent(disk, cache, dirty)
    {
      for i := 0 to |acts|
        invariant forall b :: b in dirty && b in old(cache) ==> b in cache && cache[b] == old(cache)[b]
        invariant Coherent(disk, old(cache), dirty) ==> Coherent(disk, cache, dirty)
      {
        Another(acts[i]);
      }
    }

    // ---- the parts of commit and recovery ----

    /** One iteration of write_log's loop. */
    method CopyToLog(tail: nat)
      requires tail < |lh| && lh[tail] in cache && lh[tail] < |disk| && start + 1 + tail < |disk|
      modifies `disk, `power, `cache, `dirty
      ensures cache == old(cache)[start + 1 + tail := old(cache)[lh[tail]]]
      ensures dirty == old(dirty) - {start + 1 + tail}
      ensures power == Less(old(power), 1)
      ensures disk == if old(power) > 0 then old(disk)[start + 1 + tail := old(cache)[lh[tail]]] else old(disk)
      ensures power > 0 && Coherent(old(disk), old(cache), old(dirty)) ==> Coherent(disk, cache, dirty)
    {
      var to := BRead(start + tail + 1);
      var from := BRead(lh[tail]);
      to := from;
      BWrite(start + tail + 1, to);
    }

    method WriteLog(others: nat -> seq<CacheAct>)
      requires start + NLOG <= |disk| && Pinned(start, disk, cache, dirty, lh)
      requires power > 0 ==> Coherent(disk, cache, dirty)
      modifies `disk, `power, `cache, `dirty
      ensures dirty == old(dirty) <= cache.Keys
      ensures forall b :: b in dirty ==> cache[b] == old(cache)[b]
      ensures OnlyLog(start, old(disk), disk) && |lh| < NLOG
      ensures power == Less(old(power), |lh|)
      ensures |lh| <= old(power) ==>
                && Copied(start, disk, old(cache), lh, |lh|)
                && forall i :: 0 <= i < |lh| ==> lh[i] in old(cache) && disk[start + 1 + i] == old(cache)[lh[i]]
      ensures power > 0 ==> Coherent(disk, cache, dirty)
    {
      hide Coherent, Pinned, Loggable, Elems, InLog, Home, OnlyLog, Copied;
      PinnedFacts(start, disk, cache, dirty, lh);
      CopyNone(start, disk, cache, lh);
      var tail := 0;
      while tail < |lh|
        invariant 0 <= tail <= |lh| && |disk| == |old(disk)|
        invariant dirty == old(dirty) <= cache.Keys
        invariant forall b :: b in dirty ==> cache[b] == old(cache)[b]
        invariant OnlyLog(start, old(disk), disk)
        invariant power == Less(old(power), tail)
        invariant tail <= old(power) ==> Copied(start, disk, old(cache), lh, tail)
        invariant power > 0 ==> Coherent(disk, cache, dirty)
      {
        Others(others(tail));
        ghost var v := old(cache)[lh[tail]];
        assert lh[tail] in dirty && cache[lh[tail]] == v;
        CopyNext(start, old(disk), disk, old(cache), lh, tail, v);
        CopyToLog(tail);
        tail := tail + 1;
      }
      CopiedAt(start, disk, old(cache), lh);
    }

    /** The header block in its buffer: the count, then the list. */
    method FillHead(buf: Block) returns (hb: Block)
      requires |lh| <= NLOG - 1 && forall i :: 0 <= i < |lh| ==> lh[i] < UINT
      ensures Word(hb, 0) == |lh| && HeadBlocks(hb) == lh
      ensures forall i :: 0 <= i < |lh| ==> Word(hb, 1 + i) == lh[i]
    {
      hide SetWord, Word;
      hb := SetWord(buf, 0, |lh|);
      var i := 0;
      while i < |lh|
        invariant 0 <= i <= |lh|
        invariant hb == PutBlocks(SetWord(buf, 0, |lh|), lh, i)
      {
        hb := SetWord(hb, 1 + i, lh[i]);
        i := i + 1;
      }
      HeadRoundTrip(buf, lh);
      forall j | 0 <= j < |lh|
        ensures Word(hb, 1 + j) == lh[j]
      {
        assert HeadBlocks(hb)[j] == lh[j];
      }
    }

    /** write_head: the list goes into the header block, the rest of which stays as it is. */
    method WriteHead()
      requires start + NLOG <= |disk| < UINT && |lh| <= NLOG - 1
      requires forall i :: 0 <= i < |lh| ==> lh[i] < |disk|
      requires start !in dirty
      requires power > 0 ==> Coherent(disk, cache, dirty)
      modifies `disk, `power, `cache, `dirty
      ensures dirty == old(dirty)
      ensures forall b :: b in dirty && b in old(cache) ==> b in cache && cache[b] == old(cache)[b]
      ensures power == Less(old(power), 1)
      ensures |disk| == |old(disk)| && forall b :: 0 <= b < |disk| && b != start ==> disk[b] == old(disk)[b]
      ensures if old(power) > 0 then Word(disk[start], 0) == |lh| && HeadBlocks(disk[start]) == lh
              else disk[start] == old(disk)[start]
      ensures old(power) > 0 ==> forall i :: 0 <= i < |lh| ==> Word(disk[start], 1 + i) == lh[i]
      ensures power > 0 ==> Coherent(disk, cache, dirty)
    {
      var buf := BRead(start);
      var hb := FillHead(buf);
      BWrite(start, hb);
    }

    /** One iteration of install_trans's loop. */
    method CopyHome(tail: nat)
      requires tail < |lh| && lh[tail] < |disk| && start + 1 + tail < |disk|
      requires power > 0 ==> Coherent(disk, cache, dirty) && start + 1 + tail !in dirty
      modifies `disk, `power, `cache, `dirty
      ensures dirty == old(dirty) - {lh[tail]}
      ensures power == Less(old(power), 1)
      ensures disk == if old(power) > 0 then old(disk)[lh[tail] := old(disk)[start + 1 + tail]] else old(disk)
      ensures power > 0 ==> Coherent(disk, cache, dirty)
    {
      var lbuf := BRead(start + tail + 1);
      var dbuf := BRead(lh[tail]);
      dbuf := lbuf;
      BWrite(lh[tail], dbuf);
    }

    method InstallTrans(others: nat -> seq<CacheAct>)
      requires start + NLOG <= |disk| && Loggable(start, |disk|, lh)
      requires forall b :: InLog(start, b) ==> b !in dirty
      requires power > 0 ==> Coherent(disk, cache, dirty)
      modifies `disk, `power, `cache, `dirty
      ensures dirty == old(dirty) - Elems(lh)
      ensures |disk| == |old(disk)| && forall b :: 0 <= b < |disk| && b !in lh ==> disk[b] == old(disk)[b]
      ensures power == Less(old(power), |lh|)
      ensures forall i :: 0 <= i < |lh| ==>
                disk[lh[i]] == if i < old(power) then old(disk)[start + 1 + i] else old(disk)[lh[i]]
      ensures power > 0 ==> Coherent(disk, cache, dirty)
    {
      hide Coherent, Loggable, Elems;
      LoggableFacts(start, |disk|, lh);
      ElemsNone();
      var tail := 0;
      while tail < |lh|
        invariant 0 <= tail <= |lh|
        invariant dirty == old(dirty) - Elems(lh[..tail])
        invariant |disk| == |old(disk)|
        invariant forall b :: 0 <= b < |disk| && b !in lh ==> disk[b] == old(disk)[b]
        invariant power == Less(old(power), tail)
        invariant forall i :: 0 <= i < |lh| ==>
                    disk[lh[i]] == if i < tail && i < old(power) then old(disk)[start + 1 + i] else old(disk)[lh[i]]
        invariant power > 0 ==> Coherent(disk, cache, dirty)
      {
        Others(others(tail));
        assert InLog(start, start + 1 + tail);
        ElemsTake(lh, tail);
        CopyHome(tail);
        tail := tail + 1;
      }
      assert lh[..tail] == lh;
    }

    /** Runs on an empty cache: nothing else has started yet. */
    method ReadHead()
      requires Formatted(start, disk) && cache == map[]
      modifies `cache, `lh
      ensures cache == map[][start := disk[start]]
      ensures lh == HeadBlocks(disk[start])
    {
      var buf := BRead(start);
      var n := Word(buf, 0);
      lh := [];
      var i := 0;
      while i < n
        invariant 0 <= i <= n
        invariant cache == map[][start := disk[start]]
        invariant lh == HeadBlocks(disk[start])[..i]
      {
        lh := lh + [Word(buf, 1 + i)];
        i := i + 1;
      }
    }

    // ---- commit and recovery ----

    /** For every supply of power, the image left behind recovers to all of the old content or all of the
        new one; the write of the header is the point where it changes. */
    method CommitTrans(others: nat -> seq<CacheAct>, ghost was: Disk, ghost now: Disk)
      requires start + NLOG <= |disk| < UINT && RecoversTo(start, disk, was)
      requires Volatile(now)
      requires power > 0
      modifies `disk, `power, `cache, `dirty, `lh
      ensures |disk| == |old(disk)|
      ensures old(lh) == [] ==> power == old(power) && disk == old(disk) && SameHome(start, disk, now)
      ensures old(lh) != [] ==> power == Less(old(power), 2 * |old(lh)| + 2)
      ensures RecoversTo(start, disk, if old(lh) == [] || |old(lh)| < old(power) then now else was)
      ensures power > 0 ==> lh == [] && Volatile(now)
    {
      hide Volatile, RecoversTo, SameHome, Home;
      NothingLogged(was, now);
      if |lh| > 0 {
        LogPhase(others, was, now);
        InstallPhase((n: nat) => others(n + NLOG), now);
      }
    }

    /** With an empty list the committed content is the current one. */
    lemma NothingLogged(was: Disk, now: Disk)
      requires start + NLOG <= |disk| && RecoversTo(start, disk, was) && Volatile(now)
      ensures lh == [] ==> SameHome(start, disk, now) && RecoversTo(start, disk, now)
    {
      hide Coherent;
    }

    /** The first half: the blocks go to the log, then the header. Its write is the commit. */
    method LogPhase(others: nat -> seq<CacheAct>, ghost was: Disk, ghost now: Disk)
      requires start + NLOG <= |disk| < UINT && RecoversTo(start, disk, was)
      requires Volatile(now)
      requires power > 0
      modifies `disk, `power, `cache, `dirty
      ensures |disk| == |old(disk)| && power == Less(old(power), |lh| + 1)
      ensures RecoversTo(start, disk, if |lh| < old(power) then now else was)
      ensures Pinned(start, disk, cache, dirty, lh)
      ensures power > 0 ==> Written(now)
    {
      hide Coherent;
      WriteLog(others);
      WriteHead();
    }

    /** Header and log are on disk, and the listed buffers still pinned. */
    ghost predicate Written(now: Disk)
      reads this
    {
      && start + NLOG <= |disk| < UINT && |now| == |disk|
      && Pinned(start, disk, cache, dirty, lh) && Coherent(disk, cache, dirty)
      && Word(disk[start], 0) == |lh| && HeadBlocks(disk[start]) == lh
      && (forall i :: 0 <= i < |lh| ==> now[lh[i]] == disk[start + 1 + i])
      && (forall b: nat :: Home(start, |disk|, b) && b !in lh ==> now[b] == disk[b])
    }

    /** The second half: the blocks go home, then the header is emptied. Cut short, recovery repeats it. */
    method InstallPhase(others: nat -> seq<CacheAct>, ghost now: Disk)
      requires start + NLOG <= |disk| < UINT && Pinned(start, disk, cache, dirty, lh)
      requires power > 0 ==> Written(now)
      modifies `disk, `power, `cache, `dirty, `lh
      ensures |disk| == |old(disk)| && power == Less(old(power), |old(lh)| + 1)
      ensures old(power) == 0 ==> disk == old(disk)
      ensures old(power) > 0 ==> RecoversTo(start, disk, now)
      ensures power > 0 ==> lh == [] && Volatile(now)
    {
      hide Coherent;
      InstallTrans(others);
      lh := [];
      WriteHead();
    }

    /** Recovery, cut short anywhere, leaves an image with the same meaning; complete, it leaves that
        meaning in place and an empty header. */
    method RecoverFromLog(others: nat -> seq<CacheAct>, ghost home: Disk)
      requires start + NLOG <= |disk| < UINT && RecoversTo(start, disk, home)
      requires cache == map[] && dirty == {}
      modifies `disk, `power, `cache, `dirty, `lh
      ensures |disk| == |old(disk)| && RecoversTo(start, disk, home)
      ensures power == Less(old(power), Word(old(disk)[start], 0) + 1)
      ensures power > 0 ==> lh == [] && Volatile(home) && SameHome(start, disk, home)
    {
      ReadHead();
      InstallTrans(others);
      lh := [];
      WriteHead();
    }

    // ---- system calls ----

    constructor (start: nat, disk: Disk, ghost initial: Disk)
      requires RecoversTo(start, disk, initial)
      ensures Valid() && power == 0
      ensures this.start == start && this.disk == disk && this.initial == initial
      ensures groups == [] && open == Group({}, []) && all == map[] && active == {} && !panicked
    {
      this.start, this.disk, this.initial := start, disk, initial;
      power, cache, dirty, lh, outstanding, committing, waiting := 0, map[], {}, [], 0, false, {};
      groups, open, active, all, panicked := [], Group({}, []), {}, map[], false;
    }

    /** One pass of begin_op's loop: join the open group, or go to sleep. */
    method BeginOp(op: OpId) returns (granted: bool)
      requires Valid() && power > 0
      requires op !in all && op !in waiting
      modifies `outstanding, `waiting, `active, `open, `all
      ensures Valid()
      ensures granted <==> !committing && |lh| + (old(outstanding) + 1) * MAXOPBLOCKS <= LOGSIZE
      ensures granted ==> waiting == old(waiting) && outstanding == old(outstanding) + 1
                          && active == old(active) + {op} && all == old(all)[op := []]
                          && open == Group(old(open).ops + {op}, old(open).writes)
      ensures !granted ==> waiting == old(waiting) + {op} && outstanding == old(outstanding)
                           && active == old(active) && all == old(all)
                           && open == old(open)
    {
      hide WholeOps, OpenGroup, Reserved, Thrifty, RecoversTo, Pinned, Sees, Coherent, Apply, Effect;
      if committing || |lh| + (outstanding + 1) * MAXOPBLOCKS > LOGSIZE {
        waiting := waiting + {op};
        return false;
      }
      outstanding := outstanding + 1;
      granted := true;
      active := active + {op};
      open := Group(open.ops + {op}, open.writes);
      all := all[op := []];
      BeginKeepsOps(groups, old(open), old(active), old(all), op);
      BeginReserved(old(active), old(all), lh, op);
    }

    /** log_write: pin the buffer of block `b`, listing it once. */
    method LogWrite(b: nat) returns (ok: bool)
      requires b in cache
      modifies `lh, `dirty
      ensures ok <==> |old(lh)| < NLOG - 1 && outstanding >= 1
      ensures ok ==> dirty == old(dirty) + {b} && lh == if b in old(lh) then old(lh) else old(lh) + [b]
      ensures !ok ==> dirty == old(dirty) && lh == old(lh)
    {
      if |lh| >= LOGSIZE || |lh| >= NLOG - 1 {
        return false; // panic("too big a transaction")
      }
      if outstanding < 1 {
        return false; // panic("log_write outside of trans")
      }
      var i := 0;
      while i < |lh| && lh[i] != b
        invariant 0 <= i <= |lh| && b !in lh[..i]
      {
        i := i + 1;
      }
      if i == |lh| {
        lh := lh + [b];
      } else {
        lh := lh[i := b];
      }
      dirty := dirty + {b};
      ok := true;
    }

    method ChangeAndLog(b: nat, v: Block) returns (ok: bool)
      requires b < |disk|
      modifies `cache, `lh, `dirty
      ensures cache == old(cache)[b := v]
      ensures ok <==> |old(lh)| < NLOG - 1 && outstanding >= 1
      ensures ok ==> dirty == old(dirty) + {b} && lh == if b in old(lh) then old(lh) else old(lh) + [b]
      ensures !ok ==> dirty == old(dirty) && lh == old(lh)
    {
      var was := BRead(b);
      cache := cache[b := v];
      assert cache == old(cache)[b := v];
      ok := LogWrite(b);
    }

    /** bread, a change of the buffer to `v`, log_write, brelse. A panic halts the machine. */
    method Modify(op: OpId, b: nat, v: Block) returns (ok: bool)
      requires Valid() && power > 0
      requires op in active && Home(start, |disk|, b)
      modifies `power, `cache, `dirty, `lh, `open, `all, `panicked
      ensures Valid()
      ensures ok <==> |old(lh)| < NLOG - 1
      ensures ok ==> lh == if b in old(lh) then old(lh) else old(lh) + [b]
      ensures cache == old(cache)[b := v] && dirty == (if ok then old(dirty) + {b} else old(dirty))
      ensures open == if ok then Group(old(open).ops, old(open).writes + [Upd(op, b, v)]) else old(open)
      ensures !ok ==> lh == old(lh)
      ensures op in old(all) && (Thrifty(old(all)) ==> ok)
      ensures ok ==> power == old(power) && panicked == old(panicked)
      ensures ok ==> b < |old(Now())| && Now() == old(Now())[b := v]
      ensures !ok ==> power == 0 && panicked
      ensures all == if ok then old(all)[op := old(all)[op] + [Upd(op, b, v)]] else old(all)
    {
      hide WholeOps, OpenGroup, Reserved, Thrifty, RecoversTo, Pinned, Sees, Coherent, Apply, Effect, Elems,
           Loggable, Word, Slack;
      ActiveKnown(groups, open, active, all, op);
      ok := ChangeAndLog(b, v);
      if Thrifty(all) {
        RoomToLog(active, all, old(lh));
      }
      ActiveCounts(active, op);
      if !ok {
        power, panicked := 0, true;
        return;
      }
      var u := Upd(op, b, v);
      ModifyKeepsOps(groups, open, active, all, u);
      LogReserved(active, all, old(lh), u);
      LogKeepsView(start, disk, old(cache), old(dirty), old(lh), Now(), b, v);
      RecoverySize(start, disk, Stable());
      ApplySnoc(Stable(), open.writes, u);
      all := all[op := all[op] + [u]];
      open := Group(open.ops, open.writes + [u]);
    }

    /** A process reads block `b`: it sees the committed content overlaid with the open group. */
    method ReadBlock(b: nat) returns (v: Block)
      requires Valid() && power > 0
      requires Home(start, |disk|, b)
      modifies `cache
      ensures Valid()
      ensures b < |Now()| && v == Now()[b]
    {
      SeesHome(start, disk, cache, dirty, Now(), b);
      hide WholeOps, OpenGroup, Reserved, Thrifty, RecoversTo, Apply, Effect, Elems;
      v := BRead(b);
    }

    /** The first critical section of end_op. The panic on `committing` cannot happen. */
    method EndOp(op: OpId) returns (doCommit: bool)
      requires Valid() && power > 0
      requires op in active
      modifies `outstanding, `committing, `waiting, `active
      ensures Valid()
      ensures !old(committing)
      ensures active == old(active) - {op} && outstanding == old(outstanding) - 1
      ensures doCommit == committing == (active == {})
      ensures waiting == if doCommit then old(waiting) else {}
    {
      hide WholeOps, OpenGroup, Reserved, Thrifty, RecoversTo, Pinned, Sees, Coherent, Apply, Effect, Elems,
           Loggable, Word, Home, Slack;
      ActiveCounts(active, op);
      EndReserved(active, all, lh, op);
      EndKeepsOps(groups, open, active, all, op);
      doCommit := false;
      outstanding := outstanding - 1;
      active := active - {op};
      assert !committing; // panic("log.committing")
      if outstanding == 0 {
        doCommit := true;
        committing := true;
      } else {
        waiting := {}; // wakeup(&log)
      }
    }

    /** The rest of end_op, run by the caller whose end_op was last: commit, then let others in. With power
        for the whole commit the open group joins the committed ones; cut off before the header write, the
        disk still stands for the old ones; after it, for the new ones. */
    method CommitGroup(others: nat -> seq<CacheAct>)
      requires Valid() && power > 0 && committing
      modifies `disk, `power, `cache, `dirty, `lh, `committing, `waiting, `groups, `open
      ensures Valid() && |disk| == |old(disk)|
      ensures groups == if old(lh) == [] || |old(lh)| < old(power) then old(groups) + [old(open)] else old(groups)
      ensures power == if old(lh) == [] then old(power) else Less(old(power), 2 * |old(lh)| + 2)
      ensures open == if old(lh) == [] || |old(lh)| < old(power) then Group({}, []) else old(open)
      ensures !committing && waiting == {} && (power > 0 ==> lh == [] && open == Group({}, []))
    {
      hide WholeOps, OpenGroup, Reserved, Thrifty, RecoversTo, Pinned, Sees, Coherent, Apply, Effect, Elems,
           Loggable, Word, Home, Slack;
      ghost var now := Now();
      ghost var durable := lh == [] || |lh| < power;
      CommitKeepsOps(groups, open, all);
      EffectSnoc(initial, groups, open);
      CommitReserved(all);
      CommitTrans(others, Stable(), now);
      if durable {
        groups := groups + [open];
        open := Group({}, []);
        FreshGroup(groups, all);
      }
      committing := false;
      waiting := {}; // wakeup(&log)
    }

    /** What a process reads or recycles makes no difference to what is pinned or seen. */
    lemma ActKeeps(act: CacheAct)
      requires Valid() && power > 0
      ensures var c := AfterAct(disk, cache, dirty, act);
              Pinned(start, disk, c, dirty, lh) && Coherent(disk, c, dirty) && Sees(start, disk, c, dirty, Now())
    {
    }

    /** A process outside any transaction uses the cache. */
    method OtherProcess(act: CacheAct)
      requires Valid()
      modifies `cache
      ensures Valid()
      ensures cache == AfterAct(disk, old(cache), dirty, act)
    {
      if power > 0 {
        ActKeeps(act);
      }
      Another(act);
    }

    method LosePower()
      requires Valid()
      modifies `power
      ensures Valid() && power == 0
    {
      power := 0;
    }

    /** Power returns with a supply of `supply` block writes; recovery may itself be cut short. */
    method BootUp(supply: nat, others: nat -> seq<CacheAct>)
      requires Valid() && power == 0
      modifies `disk, `power, `cache, `dirty, `lh, `outstanding, `committing, `waiting, `active, `open
      ensures Valid() && |disk| == |old(disk)|
      ensures power == Less(supply, Word(old(disk)[start], 0) + 1)
      ensures active == {} && open == Group({}, []) && outstanding == 0 && !committing && waiting == {}
      ensures power > 0 ==> lh == [] && SameHome(start, disk, Stable())
    {
      hide WholeOps, OpenGroup, Reserved, Thrifty, RecoversTo, Pinned, Sees, Coherent, Apply, Effect, Elems,
           Loggable, Word, Home, Slack, SameHome, Formatted, InLog;
      Restart(supply);
      CommitReserved(all);
      FreshGroup(groups, all);
      NothingOpen();
      RecoverFromLog(others, Stable());
    }

    /** Memory is empty when the machine comes up. */
    method Restart(supply: nat)
      modifies `power, `cache, `dirty, `lh, `outstanding, `committing, `waiting, `active, `open
      ensures cache == map[] && dirty == {} && lh == [] && outstanding == 0 && !committing && waiting == {}
      ensures active == {} && open == Group({}, []) && power == supply
      ensures Stable() == old(Stable())
    {
      cache, dirty, lh, outstanding, committing, waiting := map[], {}, [], 0, false, {};
      active, open := {}, Group({}, []);
      power := supply;
    }

    lemma NothingOpen()
      requires open == Group({}, [])
      ensures Now() == Stable()
    {
    }

    // ---- whole runs ----

    lemma SnapSound()
      requires Valid()
      ensures Sound(start, initial, Snap())
    {
      hide Coherent, Sees, Pinned, Reserved, OpenGroup, WholeOps, RecoversTo;
    }

    method DoBegin(op: OpId)
      requires Valid()
      modifies this
      ensures Valid() && disk == old(disk) && BeginStep(old(Snap()), Snap(), op)
    {
      hide WholeOps, OpenGroup, Reserved, Thrifty, RecoversTo, Pinned, Sees, Coherent, Apply, Effect, Word, Valid;
      if power > 0 && op !in all && op !in waiting {
        var _ := BeginOp(op);
      }
    }

    method DoModify(e: Event)
      requires Valid() && e.Modify?
      modifies this
      ensures Valid() && disk == old(disk) && ModifyStep(start, old(Snap()), Snap(), e)
    {
      hide WholeOps, OpenGroup, Reserved, Thrifty, RecoversTo, Pinned, Sees, Coherent, Apply, Effect, Word, Valid;
      if power > 0 && e.op in active && e.b < |disk| && !InLog(start, e.b) {
        var _ := Modify(e.op, e.b, e.v);
      }
    }

    method DoEnd(op: OpId)
      requires Valid()
      modifies this
      ensures Valid() && disk == old(disk) && EndStep(old(Snap()), Snap(), op)
    {
      hide WholeOps, OpenGroup, Reserved, Thrifty, RecoversTo, Pinned, Sees, Coherent, Apply, Effect, Word, Valid;
      if power > 0 && op in active {
        var _ := EndOp(op);
      }
    }

    method DoCommit(others: nat -> seq<CacheAct>)
      requires Valid()
      modifies this
      ensures Valid() && |disk| == |old(disk)| && CommitStep(old(Snap()), Snap())
    {
      hide WholeOps, OpenGroup, Reserved, Thrifty, RecoversTo, Pinned, Sees, Coherent, Apply, Effect, Word, Valid;
      if power > 0 && committing {
        CommitGroup(others);
      }
    }

    method DoBoot(supply: nat, others: nat -> seq<CacheAct>)
      requires Valid() && start < |disk|
      modifies this
      ensures Valid() && |disk| == |old(disk)| && BootStep(start, old(Snap()), Snap(), supply)
    {
      hide WholeOps, OpenGroup, Reserved, Thrifty, RecoversTo, Pinned, Sees, Coherent, Apply, Effect, Word, Valid;
      if power == 0 {
        BootUp(supply, others);
      }
    }

    /** One event; one that makes no sense when it comes up is skipped, and only then. */
    method Do(e: Event)
      requires Valid()
      modifies this
      ensures Valid() && |disk| == |old(disk)|
      ensures Stepped(start, old(Snap()), Snap(), e)
    {
      hide Valid, BeginStep, ModifyStep, EndStep, CommitStep, BootStep;
      Sizes();
      match e {
        case Begin(op) => DoBegin(op);
        case Modify(op, b, v) => DoModify(e);
        case End(op) => DoEnd(op);
        case Commit(others) => DoCommit(others);
        case Other(act) => OtherProcess(act);
        case PowerOff => LosePower();
        case Boot(supply, others) => DoBoot(supply, others);
      }
    }

    lemma Sizes()
      requires Valid()
      ensures start < |disk|
    {
    }

    /** Any schedule of system calls, other processes, power failures and reboots. Each state of the run follows
        from the one before by what the event between them asks. The disk always stands for whole committed groups,
        and no group once committed is lost. */
    method Run(events: seq<Event>) returns (ghost trace: seq<State>)
      requires Valid()
      modifies this
      ensures Valid()
      ensures Trace(start, initial, trace, events) && trace[0] == old(Snap()) && trace[|events|] == Snap()
      ensures RecoversTo(start, disk, Effect(initial, groups)) && WholeOps(groups, all)
      ensures old(groups) <= groups
      ensures panicked ==> exists op :: op in all && |Blocks(all[op])| >= MAXOPBLOCKS
    {
      trace := [Snap()];
      RunStarts(trace, events);
      var i := 0;
      while i < |events|
        invariant 0 <= i <= |events| && |trace| == i + 1 && Valid()
        invariant Trace(start, initial, trace, events[..i]) && trace[0] == old(Snap()) && trace[i] == Snap()
        invariant old(groups) <= groups
      {
        hide Valid, Stepped, Sound, Trace, Snap;
        ghost var was := groups;
        Do(events[i]);
        SnapSound();
        TraceNext(start, initial, trace, events, i, Snap());
        GroupsGrow(trace[i], Snap(), events[i]);
        trace := trace + [Snap()];
        i := i + 1;
      }
      assert events[..i] == events;
    }

    lemma RunStarts(trace: seq<State>, events: seq<Event>)
      requires Valid() && trace == [Snap()]
      ensures Trace(start, initial, trace, events[..0])
    {
      SnapSound();
      TraceOne(start, initial, Snap());
      assert events[..0] == [];
    }

    lemma GroupsGrow(s: State, t: State, e: Event)
      requires Stepped(start, s, t, e)
      ensures s.groups <= t.groups
    {
    }
  }

  method BlankMachine() returns (m: Machine)
    ensures fresh(m) && m.Valid() && m.power == 0 && m.start == 2 && |m.disk| == 100 && m.all == map[]
    ensures Word(m.disk[2], 0) == 0
  {
    var disk: Disk := seq(100, i => ZeroBlock());
    WordOfZeros(ZeroBlock(), 0);
    m := new Machine(2, disk, disk);
  }

  /** MAXOPBLOCKS is one too many: three concurrent calls of ten blocks each fill a log of 29. */
  method TenBlocksTooMany() returns (m: Machine)
    ensures m.panicked
    ensures forall op :: op in m.all ==> |Blocks(m.all[op])| <= MAXOPBLOCKS
  {
    m := BlankMachine();
    hide WholeOps, OpenGroup, Reserved, Thrifty, RecoversTo, Pinned, Sees, Coherent, Apply, Effect, Elems, Word;
    m.BootUp(2, n => []);
    var op := 0;
    while op < 3
      invariant 0 <= op <= 3 && m.Valid() && m.power > 0 && !m.committing && m.lh == []
      invariant m.outstanding == op && m.start == 2 && |m.disk| == 100 && m.waiting == {}
      invariant forall o :: o in m.all ==> o in m.active
      invariant forall o :: o in m.active <==> 0 <= o < op
      invariant forall o :: o in m.all ==> m.all[o] == []
    {
      var granted := m.BeginOp(op);
      op := op + 1;
    }
    FillLog(m);
    var ok := m.Modify(2, 69, ZeroBlock());
    forall op | op in m.all
      ensures |Blocks(m.all[op])| <= MAXOPBLOCKS
    {
      BlocksCount(m.all[op]);
    }
  }

  method FillLog(m: Machine)
    requires m.Valid() && m.power > 0 && m.lh == [] && m.start == 2 && |m.disk| == 100
    requires forall o :: 0 <= o < 3 ==> o in m.active
    requires forall o :: o in m.all ==> o < 3 && m.all[o] == []
    modifies m
    ensures m.Valid() && m.power > 0 && m.start == 2 && |m.disk| == 100 && |m.lh| == 29
    ensures 2 in m.active
    ensures forall o :: o in m.all ==> |m.all[o]| <= 10
  {
    hide WholeOps, OpenGroup, Reserved, Thrifty, RecoversTo, Pinned, Sees, Coherent, Apply, Effect, Elems, Word;
    var k := 0;
    while k < 29
      invariant 0 <= k <= 29 && m.Valid() && m.power > 0 && |m.disk| == 100
      invariant m.active == old(m.active)
      invariant forall o :: o in m.all ==> o < 3
      invariant |m.lh| == k && forall i :: 0 <= i < k ==> m.lh[i] == 40 + i
      invariant forall o :: o in m.all ==> |m.all[o]| <= if o < k / 10 then 10 else if o == k / 10 then k % 10 else 0
    {
      ActiveKnown(m.groups, m.open, m.active, m.all, k / 10);
      var ok := m.Modify(k / 10, 40 + k, ZeroBlock());
      k := k + 1;
    }
  }
}
