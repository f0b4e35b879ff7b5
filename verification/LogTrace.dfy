/** What a schedule of log events asks for, and what its runs make of it. */
module LogTrace {
  import opened Basics
  import opened Words
  import opened RedoLog

  datatype Event =
    | Begin(op: OpId)
    | Modify(op: OpId, b: nat, v: Block)
    | End(op: OpId)
    | Commit(others: nat -> seq<CacheAct>)
    | Other(act: CacheAct)
    | PowerOff
    | Boot(supply: nat, others: nat -> seq<CacheAct>)

  /** The log and the cache at one moment, with the history they are judged against. */
  datatype State = State(
    disk: Disk, power: nat, cache: map<nat, Block>, dirty: set<nat>, lh: seq<nat>,
    outstanding: nat, committing: bool, waiting: set<OpId>,
    groups: seq<Group>, open: Group, active: set<OpId>, all: map<OpId, seq<Upd>>, panicked: bool)

  // ---- one step ----

  /** A process outside any transaction fetches a block, or takes over a clean buffer. */
  function AfterAct(disk: Disk, cache: map<nat, Block>, dirty: set<nat>, act: CacheAct): map<nat, Block> {
    match act
    case Fetch(b) => if b < |disk| && b !in cache then cache[b := disk[b]] else cache
    case Recycle(b) => if b !in dirty then cache - {b} else cache
  }

  /** A running operation asks to change a block outside the log. */
  predicate Asks(start: nat, s: State, e: Event) {
    e.Modify? && s.power > 0 && e.op in s.active && Home(start, |s.disk|, e.b)
  }

  /** It does, and there is room in the log. */
  predicate Accepted(start: nat, s: State, e: Event) {
    Asks(start, s, e) && |s.lh| < NLOG - 1
  }

  predicate BeginStep(s: State, t: State, op: OpId) {
    if s.power == 0 || op in s.all || op in s.waiting then t == s
    else if !s.committing && |s.lh| + (s.outstanding + 1) * MAXOPBLOCKS <= LOGSIZE then
      t == s.(outstanding := s.outstanding + 1, active := s.active + {op}, all := s.all[op := []],
              open := Group(s.open.ops + {op}, s.open.writes))
    else t == s.(waiting := s.waiting + {op})
  }

  predicate ModifyStep(start: nat, s: State, t: State, e: Event)
    requires e.Modify?
  {
    if !Asks(start, s, e) then t == s
    else if !Accepted(start, s, e) then t == s.(cache := s.cache[e.b := e.v], power := 0, panicked := true)
    else
      && e.op in s.all
      && t == s.(cache := s.cache[e.b := e.v], dirty := s.dirty + {e.b},
                 lh := if e.b in s.lh then s.lh else s.lh + [e.b],
                 all := s.all[e.op := s.all[e.op] + [Upd(e.op, e.b, e.v)]],
                 open := Group(s.open.ops, s.open.writes + [Upd(e.op, e.b, e.v)]))
  }

  predicate EndStep(s: State, t: State, op: OpId) {
    if s.power == 0 || op !in s.active then t == s
    else
      && s.outstanding > 0
      && t == s.(outstanding := s.outstanding - 1, active := s.active - {op}, committing := s.active == {op},
                 waiting := if s.active == {op} then s.waiting else {})
  }

  predicate CommitStep(s: State, t: State) {
    if s.power == 0 || !s.committing then t == s
    else
      var done := s.lh == [] || |s.lh| < s.power;
      && t.groups == (if done then s.groups + [s.open] else s.groups)
      && t.open == (if done then Group({}, []) else s.open)
      && t.power == (if s.lh == [] then s.power else Less(s.power, 2 * |s.lh| + 2))
      && t.outstanding == s.outstanding && t.active == s.active && t.all == s.all && t.panicked == s.panicked
      && !t.committing && t.waiting == {} && (t.power > 0 ==> t.lh == [])
  }

  predicate BootStep(start: nat, s: State, t: State, supply: nat)
    requires start < |s.disk|
  {
    if s.power > 0 then t == s
    else
      && t.groups == s.groups && t.open == Group({}, []) && t.all == s.all && t.panicked == s.panicked
      && t.power == Less(supply, Word(s.disk[start], 0) + 1)
      && t.outstanding == 0 && t.active == {} && !t.committing && t.waiting == {} && (t.power > 0 ==> t.lh == [])
  }

  ghost predicate Stepped(start: nat, s: State, t: State, e: Event) {
    && start < |s.disk| == |t.disk|
    && match e
       case Begin(op) => BeginStep(s, t, op)
       case Modify(op, b, v) => ModifyStep(start, s, t, e)
       case End(op) => EndStep(s, t, op)
       case Commit(others) => CommitStep(s, t)
       case Other(act) => t == s.(cache := AfterAct(s.disk, s.cache, s.dirty, act))
       case PowerOff => t == s.(power := 0)
       case Boot(supply, others) => BootStep(start, s, t, supply)
  }

  /** The disk stands for the committed groups, each operation is whole, and while the power is on a reader of any
      home block sees the groups overlaid with the open one. */
  ghost predicate Sound(start: nat, initial: Disk, s: State) {
    && RecoversTo(start, s.disk, Effect(initial, s.groups)) && WholeOps(s.groups, s.all)
    && (s.power > 0 ==>
          && OpenGroup(s.groups, s.open, s.active, s.all)
          && Pinned(start, s.disk, s.cache, s.dirty, s.lh) && Coherent(s.disk, s.cache, s.dirty)
          && Sees(start, s.disk, s.cache, s.dirty, Apply(Effect(initial, s.groups), s.open.writes)))
  }

  /** The states of a run: each is sound and follows from the one before by the event in between. */
  ghost predicate Trace(start: nat, initial: Disk, trace: seq<State>, events: seq<Event>) {
    && |trace| == |events| + 1
    && (forall k :: 0 <= k < |trace| ==> Sound(start, initial, trace[k]))
    && (forall k :: 0 <= k < |events| ==> Stepped(start, trace[k], trace[k + 1], events[k]))
  }

  lemma TraceOne(start: nat, initial: Disk, s: State)
    requires Sound(start, initial, s)
    ensures Trace(start, initial, [s], [])
  {
    hide Sound;
  }

  lemma TraceNext(start: nat, initial: Disk, trace: seq<State>, events: seq<Event>, k: nat, t: State)
    requires k < |events| && Trace(start, initial, trace, events[..k]) && Sound(start, initial, t)
    requires Stepped(start, trace[k], t, events[k])
    ensures Trace(start, initial, trace + [t], events[..k + 1])
  {
    hide Sound, Stepped;
  }

  lemma TraceFront(start: nat, initial: Disk, trace: seq<State>, events: seq<Event>)
    requires Trace(start, initial, trace, events) && events != []
    ensures var n := |events| - 1;
            Trace(start, initial, trace[..n + 1], events[..n]) && Stepped(start, trace[n], trace[n + 1], events[n])
    ensures forall k :: 0 <= k < |trace| ==> Sound(start, initial, trace[k])
  {
    hide Sound, Stepped;
  }

  // ---- what the schedule asked for ----

  /** The modifications asked for and accepted, in the order of the schedule. */
  function Writes(start: nat, trace: seq<State>, events: seq<Event>): seq<Upd>
    requires |trace| == |events| + 1
  {
    if events == [] then []
    else
      var n := |events| - 1;
      Writes(start, trace[..n + 1], events[..n])
      + if Accepted(start, trace[n], events[n]) then [Upd(events[n].op, events[n].b, events[n].v)] else []
  }

  /** Those of a set of operations. */
  function OfOps(ws: seq<Upd>, ops: set<OpId>): seq<Upd> {
    if ws == [] then []
    else OfOps(ws[..|ws| - 1], ops) + if ws[|ws| - 1].op in ops then [ws[|ws| - 1]] else []
  }

  lemma OfOpsSnoc(ws: seq<Upd>, u: Upd, ops: set<OpId>)
    ensures OfOps(ws + [u], ops) == OfOps(ws, ops) + if u.op in ops then [u] else []
  {
    assert (ws + [u])[..|ws|] == ws;
  }

  predicate OpsIn(ws: seq<Upd>, ops: set<OpId>) {
    forall k :: 0 <= k < |ws| ==> ws[k].op in ops
  }

  /** Operations that asked for nothing make no difference. */
  lemma {:induction false} OfOpsSame(ws: seq<Upd>, a: set<OpId>, b: set<OpId>)
    requires forall k :: 0 <= k < |ws| ==> (ws[k].op in a <==> ws[k].op in b)
    ensures OfOps(ws, a) == OfOps(ws, b)
    decreases |ws|
  {
    if ws != [] {
      OfOpsSame(ws[..|ws| - 1], a, b);
    }
  }

  lemma {:induction false} OfOpsAll(ws: seq<Upd>, ops: set<OpId>)
    requires OpsIn(ws, ops)
    ensures OfOps(ws, ops) == ws
    decreases |ws|
  {
    if ws != [] {
      OfOpsAll(ws[..|ws| - 1], ops);
    }
  }

  lemma {:induction false} OfOpsNone(ws: seq<Upd>, ops: set<OpId>)
    requires forall k :: 0 <= k < |ws| ==> ws[k].op !in ops
    ensures OfOps(ws, ops) == []
    decreases |ws|
  {
    if ws != [] {
      OfOpsNone(ws[..|ws| - 1], ops);
    }
  }

  lemma {:induction false} OfOpsAppend(v: seq<Upd>, w: seq<Upd>, ops: set<OpId>)
    ensures OfOps(v + w, ops) == OfOps(v, ops) + OfOps(w, ops)
    decreases |w|
  {
    if w == [] {
      assert v + w == v;
    } else {
      var n := |w| - 1;
      assert v + w == (v + w[..n]) + [w[n]];
      OfOpsSnoc(v + w[..n], w[n], ops);
      OfOpsAppend(v, w[..n], ops);
    }
  }

  lemma {:induction false} OfOpsTwice(ws: seq<Upd>, a: set<OpId>, b: set<OpId>)
    requires a <= b
    ensures OfOps(OfOps(ws, b), a) == OfOps(ws, a)
    decreases |ws|
  {
    if ws != [] {
      var n := |ws| - 1;
      OfOpsTwice(ws[..n], a, b);
      if ws[n].op in b {
        OfOpsSnoc(OfOps(ws[..n], b), ws[n], a);
      } else {
        assert OfOps(ws, b) == OfOps(ws[..n], b);
      }
    }
  }

  /** What each operation is recorded to have changed is what the schedule asked of it, in that order. */
  lemma {:induction false} OpAsked(start: nat, initial: Disk, trace: seq<State>, events: seq<Event>, op: OpId)
    requires Trace(start, initial, trace, events)
    ensures var was, now := trace[0].all, trace[|events|].all;
            && (op in was ==> op in now)
            && (op in now ==> now[op] == (if op in was then was[op] else []) + ByOp(Writes(start, trace, events), op))
            && (op !in now ==> ByOp(Writes(start, trace, events), op) == [])
    decreases |events|
  {
    hide Sound, Stepped;
    if events != [] {
      var n := |events| - 1;
      TraceFront(start, initial, trace, events);
      OpAsked(start, initial, trace[..n + 1], events[..n], op);
      AskedStep(start, initial, trace[n], trace[n + 1], events[n], op);
      var ws := Writes(start, trace[..n + 1], events[..n]);
      if Accepted(start, trace[n], events[n]) {
        ByOpSnoc(ws, Upd(events[n].op, events[n].b, events[n].v), op);
      } else {
        assert Writes(start, trace, events) == ws;
      }
    }
  }

  lemma AskedStep(start: nat, initial: Disk, s: State, t: State, e: Event, op: OpId)
    requires Sound(start, initial, s) && Stepped(start, s, t, e)
    ensures op in s.all ==>
              op in t.all && t.all[op] == s.all[op] + if Accepted(start, s, e) && e.op == op then [Upd(op, e.b, e.v)]
                                                      else []
    ensures op !in s.all ==> !(Accepted(start, s, e) && e.op == op) && (op in t.all ==> t.all[op] == [])
  {
    hide RecoversTo, WholeOps, Pinned, Sees, Coherent, Effect, Apply;
  }

  // ---- what the disk stands for ----

  function Flat(groups: seq<Group>): seq<Upd> {
    if groups == [] then [] else Flat(groups[..|groups| - 1]) + groups[|groups| - 1].writes
  }

  /** The operations whose group was committed. */
  function Committed(groups: seq<Group>): set<OpId> {
    if groups == [] then {} else Committed(groups[..|groups| - 1]) + groups[|groups| - 1].ops
  }

  lemma FlatSnoc(groups: seq<Group>, g: Group)
    ensures Flat(groups + [g]) == Flat(groups) + g.writes
    ensures Committed(groups + [g]) == Committed(groups) + g.ops
  {
    assert (groups + [g])[..|groups|] == groups;
  }

  lemma {:induction false} ApplyAppend(d: Disk, v: seq<Upd>, w: seq<Upd>)
    ensures Apply(d, v + w) == Apply(Apply(d, v), w)
    decreases |w|
  {
    if w == [] {
      assert v + w == v;
    } else {
      var n := |w| - 1;
      assert (v + w)[..|v| + n] == v + w[..n];
      ApplyAppend(d, v, w[..n]);
    }
  }

  lemma {:induction false} EffectFlat(initial: Disk, groups: seq<Group>)
    ensures Effect(initial, groups) == Apply(initial, Flat(groups))
    decreases |groups|
  {
    if groups != [] {
      var n := |groups| - 1;
      EffectFlat(initial, groups[..n]);
      ApplyAppend(initial, Flat(groups[..n]), groups[n].writes);
    }
  }

  /** Each block holds what was written to it last, or what it held at the start. */
  lemma {:induction false} LastWrite(d: Disk, ws: seq<Upd>, b: nat) returns (k: int)
    requires b < |d|
    ensures -1 <= k < |ws| && forall j :: k < j < |ws| ==> ws[j].b != b
    ensures Apply(d, ws)[b] == if k == -1 then d[b] else ws[k].v
    ensures k >= 0 ==> ws[k].b == b
    decreases |ws|
  {
    if ws == [] {
      k := -1;
    } else if ws[|ws| - 1].b == b {
      k := |ws| - 1;
    } else {
      k := LastWrite(d, ws[..|ws| - 1], b);
    }
  }

  /** The groups and the open one hold the accepted modifications of their operations, in the schedule's order. */
  ghost predicate Kept(s: State, ws: seq<Upd>) {
    && OfOps(ws, Committed(s.groups) + s.open.ops) == Flat(s.groups) + s.open.writes
    && OpsIn(ws, s.all.Keys) && Committed(s.groups) + s.open.ops <= s.all.Keys
    && OpsIn(Flat(s.groups), Committed(s.groups)) && OpsIn(s.open.writes, s.open.ops)
    && Committed(s.groups) !! s.open.ops
  }

  /** What the open group loses with the power does not touch the committed ones. */
  lemma KeptDropped(s: State, ws: seq<Upd>)
    requires Kept(s, ws)
    ensures OfOps(ws, Committed(s.groups)) == Flat(s.groups)
    ensures Kept(s.(open := Group({}, [])), ws)
  {
    var a, b := Committed(s.groups), s.open.ops;
    OfOpsTwice(ws, a, a + b);
    OfOpsAppend(Flat(s.groups), s.open.writes, a);
    OfOpsAll(Flat(s.groups), a);
    OfOpsNone(s.open.writes, a);
    assert a + {} == a;
  }

  lemma KeptBegin(s: State, t: State, ws: seq<Upd>, op: OpId)
    requires Kept(s, ws) && BeginStep(s, t, op)
    ensures Kept(t, ws)
  {
    hide OfOps, Flat, Committed;
    OfOpsSame(ws, Committed(s.groups) + s.open.ops, Committed(t.groups) + t.open.ops);
  }

  lemma KeptModify(start: nat, s: State, t: State, ws: seq<Upd>, e: Event)
    requires Kept(s, ws) && Accepted(start, s, e) && ModifyStep(start, s, t, e) && s.active <= s.open.ops
    ensures Kept(t, ws + [Upd(e.op, e.b, e.v)])
  {
    hide OfOps, Flat, Committed;
    OfOpsSnoc(ws, Upd(e.op, e.b, e.v), Committed(s.groups) + s.open.ops);
  }

  lemma KeptCommit(s: State, t: State, ws: seq<Upd>)
    requires Kept(s, ws) && CommitStep(s, t)
    ensures Kept(t, ws)
  {
    hide OfOps, Flat, Committed;
    FlatSnoc(s.groups, s.open);
    if t.groups == s.groups + [s.open] && t.open == Group({}, []) {
      assert Committed(t.groups) + t.open.ops == Committed(s.groups) + s.open.ops;
    }
  }

  lemma KeptStep(start: nat, initial: Disk, s: State, t: State, ws: seq<Upd>, e: Event)
    requires Kept(s, ws) && Sound(start, initial, s) && Stepped(start, s, t, e)
    ensures Kept(t, ws + if Accepted(start, s, e) then [Upd(e.op, e.b, e.v)] else [])
  {
    hide RecoversTo, WholeOps, Pinned, Sees, Coherent, Effect, Apply, OfOps, Flat, Committed, BeginStep, CommitStep,
         Kept;
    SameKept(s, t, ws);
    assert ws + [] == ws;
    match e
    case Begin(op) => KeptBegin(s, t, ws, op);
    case Modify(op, b, v) =>
      if Accepted(start, s, e) {
        KeptModify(start, s, t, ws, e);
      }
    case End(op) =>
    case Commit(others) => KeptCommit(s, t, ws);
    case Other(act) =>
    case PowerOff =>
    case Boot(supply, others) =>
      KeptDropped(s, ws);
      SameKept(s.(open := Group({}, [])), t, ws);
  }

  lemma SameKept(s: State, t: State, ws: seq<Upd>)
    requires Kept(s, ws)
    ensures t.groups == s.groups && t.open == s.open && t.all == s.all ==> Kept(t, ws)
  {
  }

  lemma {:induction false} KeptAlways(start: nat, initial: Disk, trace: seq<State>, events: seq<Event>)
    requires Trace(start, initial, trace, events)
    requires trace[0].groups == [] && trace[0].open == Group({}, [])
    ensures Kept(trace[|events|], Writes(start, trace, events))
    decreases |events|
  {
    hide Sound, Stepped;
    if events != [] {
      var n := |events| - 1;
      TraceFront(start, initial, trace, events);
      KeptAlways(start, initial, trace[..n + 1], events[..n]);
      KeptStep(start, initial, trace[n], trace[n + 1], Writes(start, trace[..n + 1], events[..n]), events[n]);
    }
  }

  /** After any schedule the image recovers to the initial content with exactly the modifications made by committed
      operations, in the order of the schedule; and while the power is on every reader of a home block sees, besides,
      those of the operations that are to commit next. */
  lemma DiskAsAsked(start: nat, initial: Disk, trace: seq<State>, events: seq<Event>)
    requires Trace(start, initial, trace, events)
    requires trace[0].groups == [] && trace[0].open == Group({}, [])
    ensures var t, ws := trace[|events|], Writes(start, trace, events);
            && RecoversTo(start, t.disk, Apply(initial, OfOps(ws, Committed(t.groups))))
            && (t.power > 0 ==>
                  && t.dirty <= t.cache.Keys
                  && Sees(start, t.disk, t.cache, t.dirty,
                          Apply(initial, OfOps(ws, Committed(t.groups) + t.open.ops))))
  {
    hide Stepped, OfOps, Flat, Committed, Effect, Apply, RecoversTo, Sees, Coherent, WholeOps, OpenGroup, Writes;
    KeptAlways(start, initial, trace, events);
    var t, ws := trace[|events|], Writes(start, trace, events);
    assert Sound(start, initial, t);
    KeptDropped(t, ws);
    EffectFlat(initial, t.groups);
    ApplyAppend(initial, Flat(t.groups), t.open.writes);
  }
}
