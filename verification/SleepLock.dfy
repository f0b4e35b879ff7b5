/** sleeplock.c over sleep and wakeup of proc.c: any number of processes contending for one sleep lock.

    A step is one atomic action of one process; between two of its steps any other process may run, on any CPU.
    The spinlocks `lk->lk` (inner) and `ptable.lock` are taken by steps that are enabled only while they are free. */
module SleepLock {
  /** Where a process is. acquiresleep: Test .. Holding; inside it sleep(): WantTable .. ReInner;
      releasesleep: Clear .. ReleaseInner, with the scan of wakeup1 at Scan(i). */
  datatype Pc =
    | Outside
    | Test | SetLocked | AcquireDone
    | WantTable | DropInner | SetChan | SetSleeping | Sched | Asleep | Tidy | DropTable | ReInner
    | Holding
    | Clear | WantTableToWake | Scan(i: nat) | WakeDone | ReleaseInner

  datatype Run = Ready | Sleeping

  /** `inner` and `table` name the process holding each spinlock; `pid` is lk->pid. A channel of 0 is none, 1 is
      this lock, anything else some other object. */
  datatype Sys = Sys(
    n: nat,
    inner: int, table: int,
    locked: bool, pid: int,
    pc: seq<Pc>, run: seq<Run>, chan: seq<nat>)

  const LK := 1

  // ---- the steps ----

  predicate Shape(s: Sys) {
    |s.pc| == s.n && |s.run| == s.n && |s.chan| == s.n
  }

  /** Whether process `p` can take its next step now. */
  predicate Enabled(s: Sys, p: nat)
    requires Shape(s) && p < s.n
  {
    match s.pc[p]
    case Outside | ReInner | Holding => s.inner == -1
    case WantTable | WantTableToWake => s.table == -1
    case Asleep => s.table == -1 && s.run[p] == Ready
    case _ => true
  }

  function Goto(s: Sys, p: nat, pc: Pc): (r: Sys)
    requires Shape(s) && p < s.n
    ensures Shape(r) && r.n == s.n
  {
    s.(pc := s.pc[p := pc])
  }

  /** The next atomic action of process `p`. From Outside it calls acquiresleep, from Holding releasesleep. */
  function Next(s: Sys, p: nat): (r: Sys)
    requires Shape(s) && p < s.n && Enabled(s, p)
    ensures Shape(r) && r.n == s.n
  {
    match s.pc[p]
    case Outside => Goto(s, p, Test).(inner := p)
    case Test => Goto(s, p, if s.locked then WantTable else SetLocked)
    case SetLocked => Goto(s, p, AcquireDone).(locked := true, pid := p)
    case AcquireDone => Goto(s, p, Holding).(inner := -1)
    case WantTable => Goto(s, p, DropInner).(table := p)
    case DropInner => Goto(s, p, SetChan).(inner := -1)
    case SetChan => Goto(s, p, SetSleeping).(chan := s.chan[p := LK])
    case SetSleeping => Goto(s, p, Sched).(run := s.run[p := Sleeping])
    case Sched => Goto(s, p, Asleep).(table := -1)
    case Asleep => Goto(s, p, Tidy).(table := p)
    case Tidy => Goto(s, p, DropTable).(chan := s.chan[p := 0])
    case DropTable => Goto(s, p, ReInner).(table := -1)
    case ReInner => Goto(s, p, Test).(inner := p)
    case Holding => Goto(s, p, Clear).(inner := p)
    case Clear => Goto(s, p, WantTableToWake).(locked := false, pid := -1)
    case WantTableToWake => Goto(s, p, Scan(0)).(table := p)
    case Scan(i) =>
      if i >= s.n then Goto(s, p, WakeDone)
      else Goto(s, p, Scan(i + 1)).(run := if s.run[i] == Sleeping && s.chan[i] == LK then s.run[i := Ready] else s.run)
    case WakeDone => Goto(s, p, ReleaseInner).(table := -1)
    case ReleaseInner => Goto(s, p, Outside).(inner := -1)
  }

  /** What the rest of the kernel may do between steps, under ptable.lock: a process outside the lock sleeps on
      or leaves another channel, and kill() or a wakeup of another channel makes a sleeper ready. */
  datatype Event = Step(p: nat) | Elsewhere(p: nat, run: Run, chan: nat) | MakeReady(p: nat)

  predicate Possible(s: Sys, e: Event)
    requires Shape(s)
  {
    e.p < s.n &&
    match e
    case Step(p) => Enabled(s, p)
    case Elsewhere(p, run, chan) => s.table == -1 && s.pc[p] == Outside && chan != LK
    case MakeReady(p) => s.table == -1
  }

  function Do(s: Sys, e: Event): (r: Sys)
    requires Shape(s) && Possible(s, e)
    ensures Shape(r) && r.n == s.n
  {
    match e
    case Step(p) => Next(s, p)
    case Elsewhere(p, run, chan) => s.(run := s.run[p := run], chan := s.chan[p := chan])
    case MakeReady(p) => s.(run := s.run[p := Ready])
  }

  /** The state after a schedule; events that are not possible when their turn comes are skipped. */
  function After(s: Sys, events: seq<Event>): (r: Sys)
    requires Shape(s)
    ensures Shape(r) && r.n == s.n
    decreases |events|
  {
    if events == [] then s
    else if Possible(s, events[0]) then After(Do(s, events[0]), events[1..])
    else After(s, events[1..])
  }

  function Initial(n: nat): (s: Sys)
    ensures Shape(s)
  {
    Sys(n, -1, -1, false, -1, seq(n, i => Outside), seq(n, i => Ready), seq(n, i => 0))
  }

  // ---- the invariant ----

  predicate HoldsInner(pc: Pc) {
    pc in {Test, SetLocked, AcquireDone, WantTable, DropInner, Clear, WantTableToWake, WakeDone, ReleaseInner}
        || pc.Scan?
  }

  predicate HoldsTable(pc: Pc) {
    pc in {DropInner, SetChan, SetSleeping, Sched, Tidy, DropTable, WakeDone} || pc.Scan?
  }

  /** From the assignment to `locked` up to its clearing. */
  predicate Owns(pc: Pc) {
    pc in {AcquireDone, Holding, Clear}
  }

  /** On the way to sleep with the inner lock already given up. */
  predicate FallingAsleep(pc: Pc) {
    pc in {SetChan, SetSleeping, Sched}
  }

  predicate SleepingOnLock(s: Sys, p: nat)
    requires Shape(s) && p < s.n
  {
    s.pc[p] == Asleep && s.run[p] == Sleeping
  }

  predicate Locks(s: Sys)
    requires Shape(s)
  {
    InnerLock(s) && TableLock(s)
  }

  predicate InnerLock(s: Sys)
    requires Shape(s)
  {
    (s.inner == -1 || 0 <= s.inner < s.n) && forall p :: 0 <= p < s.n ==> (s.inner == p <==> HoldsInner(s.pc[p]))
  }

  predicate TableLock(s: Sys)
    requires Shape(s)
  {
    (s.table == -1 || 0 <= s.table < s.n) && forall p :: 0 <= p < s.n ==> (s.table == p <==> HoldsTable(s.pc[p]))
  }

  predicate Ownership(s: Sys)
    requires Shape(s)
  {
    && (forall p :: 0 <= p < s.n ==> (Owns(s.pc[p]) <==> s.locked && s.pid == p))
    && (s.locked ==> 0 <= s.pid < s.n)
  }

  predicate ChannelsAt(s: Sys, p: nat)
    requires Shape(s) && p < s.n
  {
    && (s.pc[p] in {SetSleeping, Sched, Asleep} ==> s.chan[p] == LK)
    && (s.pc[p] in {WantTable, DropInner} ==> s.locked)
    && (s.pc[p] == SetLocked ==> !s.locked)
    && (s.pc[p] in {WantTableToWake, WakeDone, ReleaseInner} || s.pc[p].Scan? ==> !s.locked)
  }

  predicate Channels(s: Sys)
    requires Shape(s)
  {
    forall p: nat :: p < s.n ==> ChannelsAt(s, p)
  }

  /** The process on its way to wake `q`: it holds the inner lock and its scan has not passed `q`. */
  predicate WillWake(s: Sys, q: nat)
    requires Shape(s)
  {
    0 <= s.inner < s.n &&
    (s.pc[s.inner] == WantTableToWake || (s.pc[s.inner].Scan? && s.pc[s.inner].i <= q))
  }

  predicate NoLostWakeup(s: Sys)
    requires Shape(s)
  {
    !s.locked ==> forall q: nat :: q < s.n ==> NotLost(s, q)
  }

  predicate NotLost(s: Sys, q: nat)
    requires Shape(s) && q < s.n
  {
    FallingAsleep(s.pc[q]) || SleepingOnLock(s, q) ==> WillWake(s, q)
  }

  predicate Inv(s: Sys) {
    Shape(s) && Locks(s) && Ownership(s) && Channels(s) && NoLostWakeup(s)
  }

  // ---- every step keeps it ----

  /** A step moves its own process only; of another it changes at most Sleeping to Ready. */
  lemma OthersStay(s: Sys, e: Event, q: nat)
    requires Shape(s) && Possible(s, e) && q < s.n && q != e.p
    ensures Do(s, e).pc[q] == s.pc[q] && Do(s, e).chan[q] == s.chan[q]
    ensures Do(s, e).run[q] == s.run[q] || Do(s, e).run[q] == Ready
  {
  }

  lemma InnerHere(s: Sys, p: nat)
    requires Inv(s) && p < s.n
    ensures s.inner == p <==> HoldsInner(s.pc[p])
    ensures s.table == p <==> HoldsTable(s.pc[p])
  {
    hide NoLostWakeup, Channels, Ownership;
  }

  /** No step wakes a process that sleeps on something else. */
  lemma OthersSleepOn(s: Sys, p: nat, q: nat)
    requires Shape(s) && p < s.n && q < s.n && q != p && Enabled(s, p) && s.chan[q] != LK
    ensures Next(s, p).run[q] == s.run[q]
  {
  }

  /** A spinlock changes hands only by the step of the process that takes it or gives it up. */
  lemma OwnLocks(s: Sys, e: Event)
    requires Shape(s) && Possible(s, e)
    requires (s.inner == e.p <==> HoldsInner(s.pc[e.p])) && (s.table == e.p <==> HoldsTable(s.pc[e.p]))
    ensures var t := Do(s, e);
            && (t.inner == e.p <==> HoldsInner(t.pc[e.p])) && (t.table == e.p <==> HoldsTable(t.pc[e.p]))
            && (t.inner == s.inner || (s.inner in {-1, e.p as int} && t.inner in {-1, e.p as int}))
            && (t.table == s.table || (s.table in {-1, e.p as int} && t.table in {-1, e.p as int}))
  {
  }

  lemma StepInner(s: Sys, e: Event)
    requires Inv(s) && Possible(s, e)
    ensures InnerLock(Do(s, e))
  {
    hide NoLostWakeup, Channels, TableLock, Ownership, Do, HoldsInner, HoldsTable;
    InnerHere(s, e.p);
    OwnLocks(s, e);
    forall q: nat | q < s.n && q != e.p
      ensures Do(s, e).pc[q] == s.pc[q]
    {
      OthersStay(s, e, q);
    }
  }

  lemma StepTable(s: Sys, e: Event)
    requires Inv(s) && Possible(s, e)
    ensures TableLock(Do(s, e))
  {
    hide NoLostWakeup, Channels, InnerLock, Ownership, Do, HoldsInner, HoldsTable;
    InnerHere(s, e.p);
    OwnLocks(s, e);
    forall q: nat | q < s.n && q != e.p
      ensures Do(s, e).pc[q] == s.pc[q]
    {
      OthersStay(s, e, q);
    }
  }

  lemma StepOwnership(s: Sys, e: Event)
    requires Inv(s) && Possible(s, e)
    ensures Ownership(Do(s, e))
  {
    hide NoLostWakeup, Channels, ChannelsAt, InnerLock, TableLock;
    ChannelsHere(s, e.p);
    SettingUnlocked(s, e.p);
    forall q: nat | q < s.n && q != e.p
      ensures Do(s, e).pc[q] == s.pc[q]
    {
      OthersStay(s, e, q);
    }
  }

  lemma SettingUnlocked(s: Sys, p: nat)
    requires Shape(s) && p < s.n && ChannelsAt(s, p)
    ensures s.pc[p] == SetLocked ==> !s.locked
  {
  }

  lemma ChannelsHere(s: Sys, p: nat)
    requires Inv(s) && p < s.n
    ensures ChannelsAt(s, p)
  {
    hide NoLostWakeup, Locks, Ownership, ChannelsAt;
  }

  lemma OwnsHere(s: Sys, p: nat)
    requires Inv(s) && p < s.n
    ensures Owns(s.pc[p]) <==> s.locked && s.pid == p
  {
    hide NoLostWakeup, Channels, Locks;
  }

  /** `locked` changes only in the hands of the process that holds the inner lock. */
  lemma LockedChanges(s: Sys, e: Event)
    requires Inv(s) && Possible(s, e) && Do(s, e).locked != s.locked
    ensures e.Step? && s.inner == e.p && s.pc[e.p] in {SetLocked, Clear}
  {
    hide Inv;
    InnerHere(s, e.p);
  }

  lemma StepChannelsAt(s: Sys, e: Event, p: nat)
    requires Inv(s) && Possible(s, e) && p < s.n
    ensures ChannelsAt(Do(s, e), p)
  {
    hide NoLostWakeup, Locks, Ownership, Channels;
    ChannelsHere(s, p);
    InnerHere(s, p);
    if Do(s, e).locked != s.locked {
      LockedChanges(s, e);
    }
    if p != e.p {
      OthersStay(s, e, p);
    }
  }

  lemma StepChannels(s: Sys, e: Event)
    requires Inv(s) && Possible(s, e)
    ensures Channels(Do(s, e))
  {
    hide NoLostWakeup, Locks, Ownership, ChannelsAt, Next, Enabled;
    forall p: nat | p < s.n
      ensures ChannelsAt(Do(s, e), p)
    {
      StepChannelsAt(s, e, p);
    }
  }

  /** A waker goes on until its scan has passed `q`. */
  lemma WakerGoesOn(s: Sys, e: Event, q: nat)
    requires Inv(s) && Possible(s, e) && q < s.n && WillWake(s, q)
    requires FallingAsleep(s.pc[q]) || SleepingOnLock(s, q)
    ensures WillWake(Do(s, e), q) || (Do(s, e).run[q] == Ready && !FallingAsleep(s.pc[q]))
  {
    hide NoLostWakeup, Ownership, Channels, Locks;
    ChannelsHere(s, q);
    InnerHere(s, q);
    var w := s.inner;
    InnerHere(s, w);
    InnerHere(s, e.p);
    if e.p != w {
      OthersStay(s, e, w);
    }
  }

  lemma StepNotLost(s: Sys, e: Event, q: nat)
    requires Inv(s) && Possible(s, e) && q < s.n && !Do(s, e).locked
    ensures NotLost(Do(s, e), q)
  {
    hide Ownership, Channels, Locks;
    ChannelsHere(s, q);
    ChannelsHere(s, e.p);
    InnerHere(s, q);
    if s.locked {
      LockedChanges(s, e);
    } else {
      assert NotLost(s, q);
      if FallingAsleep(s.pc[q]) || SleepingOnLock(s, q) {
        WakerGoesOn(s, e, q);
      }
      if q != e.p {
        OthersStay(s, e, q);
      }
    }
  }

  lemma StepWakeups(s: Sys, e: Event)
    requires Inv(s) && Possible(s, e)
    ensures NoLostWakeup(Do(s, e))
  {
    hide Ownership, Channels, Locks, NotLost, Next, Enabled;
    if !Do(s, e).locked {
      forall q: nat | q < s.n
        ensures NotLost(Do(s, e), q)
      {
        StepNotLost(s, e, q);
      }
    }
  }

  lemma StepKeeps(s: Sys, e: Event)
    requires Inv(s) && Possible(s, e)
    ensures Inv(Do(s, e))
  {
    hide InnerLock, TableLock, Ownership, Channels, NoLostWakeup, Possible, Do;
    StepInner(s, e);
    StepTable(s, e);
    StepOwnership(s, e);
    StepChannels(s, e);
    StepWakeups(s, e);
  }

  lemma {:induction false} AfterKeeps(s: Sys, events: seq<Event>)
    requires Inv(s)
    ensures Inv(After(s, events))
    decreases |events|
  {
    hide Locks, Ownership, Channels, NoLostWakeup, Possible, Do;
    if events != [] {
      if Possible(s, events[0]) {
        StepKeeps(s, events[0]);
        AfterKeeps(Do(s, events[0]), events[1..]);
      } else {
        AfterKeeps(s, events[1..]);
      }
    }
  }

  lemma InitialOk(n: nat)
    ensures Inv(Initial(n))
  {
  }

  // ---- what holds in every reachable state ----

  ghost predicate Reachable(s: Sys) {
    exists n: nat, events: seq<Event> :: s == After(Initial(n), events)
  }

  lemma ReachableOk(s: Sys)
    requires Reachable(s)
    ensures Inv(s)
  {
    hide Inv;
    var n: nat, events: seq<Event> :| s == After(Initial(n), events);
    InitialOk(n);
    AfterKeeps(Initial(n), events);
  }

  lemma MutualExclusion(s: Sys, p: nat, q: nat)
    requires Reachable(s) && p < s.n && q < s.n
    ensures Shape(s)
    ensures s.pc[p] == Holding && s.pc[q] == Holding ==> p == q
  {
    hide Locks, Ownership, Channels, NoLostWakeup, Reachable;
    ReachableOk(s);
    OwnsHere(s, p);
    OwnsHere(s, q);
  }

  /** A sleep lock that is free, with its spinlock free, has nobody asleep on it or on the way to sleep. */
  lemma NobodyForgotten(s: Sys, q: nat)
    requires Reachable(s) && q < s.n && s.inner == -1 && !s.locked
    ensures Shape(s) && !FallingAsleep(s.pc[q]) && !SleepingOnLock(s, q)
    ensures s.pc[q] !in {WantTable, DropInner}
  {
    hide Locks, Ownership, Channels, Reachable;
    ReachableOk(s);
    ChannelsHere(s, q);
    assert NotLost(s, q);
  }

  /** When wakeup's scan is over, no process sleeps on the lock, not even one that was falling asleep as it began. */
  lemma ScanWakesAll(s: Sys, p: nat, q: nat)
    requires Reachable(s) && p < s.n && q < s.n && Shape(s) && s.pc[p] in {WakeDone, ReleaseInner}
    ensures !SleepingOnLock(s, q) && !FallingAsleep(s.pc[q])
  {
    hide Locks, Ownership, Channels, Reachable;
    ReachableOk(s);
    InnerHere(s, p);
    ChannelsHere(s, p);
    assert NotLost(s, q);
  }

  /** holdingsleep: `locked` and `pid` tell a process outside the lock's own code whether it holds the lock. */
  lemma HoldingSleep(s: Sys, p: nat)
    requires Reachable(s) && p < s.n && Shape(s) && s.pc[p] in {Outside, Holding}
    ensures s.locked && s.pid == p <==> s.pc[p] == Holding
  {
    hide Locks, Ownership, Channels, NoLostWakeup, Reachable;
    ReachableOk(s);
    OwnsHere(s, p);
  }

  lemma TableHolderMoves(s: Sys)
    requires Inv(s) && s.table != -1
    ensures 0 <= s.table < s.n && Enabled(s, s.table) && s.pc[s.table] != Outside
  {
    hide Ownership, Channels, NoLostWakeup;
    InnerHere(s, s.table);
  }

  lemma InnerHolderMoves(s: Sys)
    requires Inv(s) && s.table == -1 && s.inner != -1
    ensures 0 <= s.inner < s.n && Enabled(s, s.inner) && s.pc[s.inner] != Outside
  {
    hide Ownership, Channels, NoLostWakeup;
    InnerHere(s, s.inner);
  }

  /** While any process is inside the protocol, some process in it can move: no deadlock. */
  lemma NotStuck(s: Sys, p: nat)
    requires Reachable(s) && p < s.n && Shape(s) && s.pc[p] != Outside
    ensures exists q: nat :: q < s.n && s.pc[q] != Outside && Enabled(s, q)
  {
    hide Locks, Ownership, Channels, NoLostWakeup, Reachable;
    ReachableOk(s);
    if s.table != -1 {
      TableHolderMoves(s);
    } else if s.inner != -1 {
      InnerHolderMoves(s);
    } else if !Enabled(s, p) {
      assert SleepingOnLock(s, p);
      if !s.locked {
        NobodyForgotten(s, p);
      }
      OwnerExists(s);
      InnerHere(s, s.pid);
      assert s.pc[s.pid] == Holding && Enabled(s, s.pid);
    }
  }

  lemma OwnerExists(s: Sys)
    requires Inv(s) && s.locked
    ensures 0 <= s.pid < s.n && Owns(s.pc[s.pid])
  {
    hide Locks, Channels, NoLostWakeup;
  }

  /** A waiting process that runs while the lock and both spinlocks are free gets the lock. */
  lemma AloneAcquires(s: Sys, p: nat)
    requires Shape(s) && p < s.n && s.pc[p] in {Outside, ReInner} && s.inner == -1 && !s.locked
    ensures var r := After(s, [Step(p), Step(p), Step(p), Step(p)]);
            r.pc[p] == Holding && r.locked && r.pid == p && r.inner == -1 && r.table == s.table
  {
    var s1 := Next(s, p);
    var s2 := Next(s1, p);
    var s3 := Next(s2, p);
    var s4 := Next(s3, p);
    var e := Step(p);
    assert [e, e, e, e][1..] == [e, e, e] && [e, e, e][1..] == [e, e] && [e, e][1..] == [e] && [e][1..] == [];
    assert After(s3, [e]) == After(s4, []);
    assert After(s2, [e, e]) == After(s3, [e]);
    assert After(s1, [e, e, e]) == After(s2, [e, e]);
  }
}
