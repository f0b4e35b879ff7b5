/** bio.c over the in-memory disk of memide.c.

    bget, brelse and the sleep lock of a buffer are separate steps here, so that any number of other processes
    may run between them. `refs` records what each call of bget is owed: which buffer, for which block. */
module BufferCache {
  import opened Words

  // ---- the list through prev and next ----

  /** Position `i` of the ring: the head (numbered `n`) before and after the buffers in `order`. */
  function Node(order: seq<nat>, n: nat, i: int): nat {
    if 0 <= i < |order| then order[i] else n
  }

  predicate Distinct(order: seq<nat>, n: nat) {
    && (forall i :: 0 <= i < |order| ==> order[i] < n)
    && (forall i, j :: 0 <= i < j < |order| ==> order[i] != order[j])
  }

  predicate Ring(next: seq<nat>, prev: seq<nat>, order: seq<nat>, n: nat) {
    && |next| == n + 1 && |prev| == n + 1 && Distinct(order, n)
    && forall i :: -1 <= i < |order| ==> LinkAt(next, prev, order, n, i)
  }

  predicate LinkAt(next: seq<nat>, prev: seq<nat>, order: seq<nat>, n: nat, i: int)
    requires |next| == n + 1 && |prev| == n + 1 && Distinct(order, n)
  {
    next[Node(order, n, i)] == Node(order, n, i + 1) && prev[Node(order, n, i + 1)] == Node(order, n, i)
  }

  lemma RingAt(next: seq<nat>, prev: seq<nat>, order: seq<nat>, n: nat, i: int)
    requires Ring(next, prev, order, n) && -1 <= i <= |order|
    ensures Node(order, n, i) <= n
    ensures i < |order| ==> next[Node(order, n, i)] == Node(order, n, i + 1)
    ensures i >= 0 ==> prev[Node(order, n, i)] == Node(order, n, i - 1)
    ensures 0 <= i < |order| <==> Node(order, n, i) != n
  {
    if i >= 0 {
      assert LinkAt(next, prev, order, n, i - 1);
    }
    if i < |order| {
      assert LinkAt(next, prev, order, n, i);
    }
  }

  function Without(order: seq<nat>, k: nat): (r: seq<nat>)
    requires k < |order|
    ensures |r| == |order| - 1
  {
    order[..k] + order[k + 1..]
  }

  lemma WithoutAt(order: seq<nat>, n: nat, k: nat, i: int)
    requires k < |order| && -1 <= i < |order|
    ensures Node(Without(order, k), n, i) == if i < k then Node(order, n, i) else Node(order, n, i + 1)
  {
  }

  lemma WithoutIs(order: seq<nat>, k: nat)
    requires k < |order|
    ensures forall i :: 0 <= i < |order| - 1 ==> Without(order, k)[i] == order[if i < k then i else i + 1]
  {
  }

  lemma Unlink(next: seq<nat>, prev: seq<nat>, order: seq<nat>, n: nat, k: nat)
    requires Ring(next, prev, order, n) && k < |order|
    ensures Distinct(Without(order, k), n) && order[k] !in Without(order, k)
    ensures prev[order[k]] <= n && next[order[k]] <= n
    ensures Ring(next[prev[order[k]] := next[order[k]]], prev[next[order[k]] := prev[order[k]]], Without(order, k), n)
  {
    hide Without;
    RingAt(next, prev, order, n, k);
    RingAt(next, prev, order, n, k - 1);
    RingAt(next, prev, order, n, k + 1);
    var r := Without(order, k);
    WithoutIs(order, k);
    var next' := next[prev[order[k]] := next[order[k]]];
    var prev' := prev[next[order[k]] := prev[order[k]]];
    forall i | -1 <= i < |r|
      ensures LinkAt(next', prev', r, n, i)
    {
      UnlinkAt(next, prev, order, n, k, i);
    }
  }

  lemma NodeDistinct(order: seq<nat>, n: nat, i: int, j: int)
    requires Distinct(order, n) && -1 <= i < j <= |order| && !(i == -1 && j == |order|)
    ensures Node(order, n, i) != Node(order, n, j)
  {
  }

  lemma UnlinkAt(next: seq<nat>, prev: seq<nat>, order: seq<nat>, n: nat, k: nat, i: int)
    requires Ring(next, prev, order, n) && k < |order| && -1 <= i < |order| - 1
    requires Distinct(Without(order, k), n) && prev[order[k]] <= n && next[order[k]] <= n
    ensures LinkAt(next[prev[order[k]] := next[order[k]]], prev[next[order[k]] := prev[order[k]]], Without(order, k),
                   n, i)
  {
    hide Without, Distinct;
    RingAt(next, prev, order, n, k);
    WithoutAt(order, n, k, i);
    WithoutAt(order, n, k, i + 1);
    var j := if i < k then i else i + 1;
    RingAt(next, prev, order, n, j);
    RingAt(next, prev, order, n, j + 1);
    if i != k - 1 {
      if j < k - 1 {
        NodeDistinct(order, n, j, k - 1);
      } else {
        NodeDistinct(order, n, k - 1, j);
      }
      if j + 1 < k + 1 {
        NodeDistinct(order, n, j + 1, k + 1);
      } else {
        NodeDistinct(order, n, k + 1, j + 1);
      }
    }
  }

  lemma RingSize(next: seq<nat>, prev: seq<nat>, order: seq<nat>, n: nat, k: nat)
    requires Ring(next, prev, order, n) && k < |order|
    ensures |next| == |prev| == n + 1 && order[k] < n
  {
  }

  lemma PushFront(next: seq<nat>, prev: seq<nat>, order: seq<nat>, n: nat, b: nat)
    requires Ring(next, prev, order, n) && b < n && b !in order
    ensures next[n] <= n && Distinct([b] + order, n)
    ensures Ring(next[b := next[n]][n := b], prev[b := n][next[n] := b], [b] + order, n)
  {
    RingAt(next, prev, order, n, -1);
    var r := [b] + order;
    var next', prev' := next[b := next[n]][n := b], prev[b := n][next[n] := b];
    forall i: int | 0 <= i <= |r|
      ensures Node(r, n, i) == if i == 0 then b else Node(order, n, i - 1)
    {
    }
    forall i | -1 <= i < |r|
      ensures LinkAt(next', prev', r, n, i)
    {
      if i >= 1 {
        RingAt(next, prev, order, n, i - 1);
        RingAt(next, prev, order, n, i);
        NodeDistinct(order, n, 0, i);
      }
    }
  }

  // ---- the cache as a value ----

  datatype Buf = Buf(dev: nat, blockno: nat, valid: bool, dirty: bool, refcnt: nat, owner: int, data: Block)

  /** One call of bget that brelse has not finished: Waiting until it has the sleep lock, InUse while it has,
      Leaving between releasesleep and the decrement of refcnt. */
  datatype Use = Waiting | InUse | Leaving

  datatype Ref = Ref(b: nat, blockno: nat, use: Use)

  /** `stamp[b]` is the time of the last release of `b`; `order` is the list from most to least recently used. */
  datatype St = St(bufs: seq<Buf>, disk: seq<Block>, refs: map<nat, Ref>, order: seq<nat>, stamp: seq<nat>, clock: nat)

  const ROOTDEV := 1

  function RefsTo(refs: map<nat, Ref>, b: nat): set<nat> {
    set t | t in refs && refs[t].b == b
  }

  predicate RefAt(s: St, t: nat)
    requires t in s.refs
  {
    var r := s.refs[t];
    && r.b < |s.bufs| && s.bufs[r.b].dev == ROOTDEV && s.bufs[r.b].blockno == r.blockno
    && (r.use == InUse <==> s.bufs[r.b].owner == t)
  }

  /** A referenced buffer keeps its identity, and its sleep lock is held by a reference to it. */
  predicate RefsOk(s: St) {
    forall t :: t in s.refs ==> RefAt(s, t)
  }

  predicate BufAt(s: St, b: nat)
    requires b < |s.bufs|
  {
    var x := s.bufs[b];
    && x.refcnt == |RefsTo(s.refs, b)|
    && (x.owner == -1 || (x.owner >= 0 && x.owner in s.refs && s.refs[x.owner].b == b))
    && (x.dirty ==> x.valid)
    && (x.valid ==> x.dev == ROOTDEV && x.blockno < |s.disk|)
    && (x.valid && !x.dirty && x.owner == -1 ==> x.data == s.disk[x.blockno])
  }

  /** Counts, locks and contents; a valid, clean, unlocked buffer equals the disk. */
  predicate BufsOk(s: St) {
    forall b: nat :: b < |s.bufs| ==> BufAt(s, b)
  }

  /** Each block of the root device is in at most one buffer. */
  predicate Unique(bufs: seq<Buf>) {
    forall b: nat, c: nat :: b < c < |bufs| && bufs[b].dev == ROOTDEV && bufs[c].dev == ROOTDEV ==>
      bufs[b].blockno != bufs[c].blockno
  }

  /** The list holds every buffer once, most recently released first. */
  predicate ByAge(s: St) {
    && |s.order| == |s.bufs| == |s.stamp|
    && (forall b: nat :: b < |s.bufs| ==> b in s.order)
    && (forall i, j :: 0 <= i < j < |s.order| && s.order[i] < |s.bufs| && s.order[j] < |s.bufs| ==>
          s.stamp[s.order[i]] > s.stamp[s.order[j]])
    && (forall b: nat :: b < |s.stamp| ==> s.stamp[b] < s.clock)
  }

  predicate Inv(s: St) {
    Distinct(s.order, |s.bufs|) && RefsOk(s) && BufsOk(s) && Unique(s.bufs) && ByAge(s)
  }

  predicate Holds(s: St, b: nat, blockno: nat)
    requires b < |s.bufs|
  {
    s.bufs[b].dev == ROOTDEV && s.bufs[b].blockno == blockno
  }

  predicate Free(s: St, b: nat)
    requires b < |s.bufs|
  {
    s.bufs[b].refcnt == 0 && !s.bufs[b].dirty
  }

  // ---- what each step does ----

  function Hit(s: St, t: nat, b: nat): St
    requires b < |s.bufs|
  {
    s.(bufs := s.bufs[b := s.bufs[b].(refcnt := s.bufs[b].refcnt + 1)],
       refs := s.refs[t := Ref(b, s.bufs[b].blockno, Waiting)])
  }

  function Recycled(s: St, t: nat, b: nat, blockno: nat): St
    requires b < |s.bufs|
  {
    s.(bufs := s.bufs[b := s.bufs[b].(dev := ROOTDEV, blockno := blockno, valid := false, dirty := false, refcnt := 1)],
       refs := s.refs[t := Ref(b, blockno, Waiting)])
  }

  /** A change of one buffer that the holder of its lock makes. */
  function Changed(s: St, b: nat, x: Buf, disk: seq<Block>): St
    requires b < |s.bufs|
  {
    s.(bufs := s.bufs[b := x], disk := disk)
  }

  function WithUse(s: St, t: nat, use: Use, owner: int): St
    requires t in s.refs && s.refs[t].b < |s.bufs|
  {
    var b := s.refs[t].b;
    s.(bufs := s.bufs[b := s.bufs[b].(owner := owner)], refs := s.refs[t := s.refs[t].(use := use)])
  }

  function Unreferenced(s: St, t: nat, order: seq<nat>, stamp: seq<nat>, clock: nat): St
    requires t in s.refs && s.refs[t].b < |s.bufs| && s.bufs[s.refs[t].b].refcnt > 0
  {
    var b := s.refs[t].b;
    St(s.bufs[b := s.bufs[b].(refcnt := s.bufs[b].refcnt - 1)], s.disk, s.refs - {t}, order, stamp, clock)
  }

  lemma AddRef(refs: map<nat, Ref>, t: nat, r: Ref, b: nat)
    requires t !in refs
    ensures |RefsTo(refs[t := r], b)| == |RefsTo(refs, b)| + if r.b == b then 1 else 0
  {
    if r.b == b {
      assert RefsTo(refs[t := r], b) == RefsTo(refs, b) + {t};
    } else {
      assert RefsTo(refs[t := r], b) == RefsTo(refs, b);
    }
  }

  lemma DropRef(refs: map<nat, Ref>, t: nat, b: nat)
    requires t in refs
    ensures |RefsTo(refs, b)| == |RefsTo(refs - {t}, b)| + if refs[t].b == b then 1 else 0
  {
    AddRef(refs - {t}, t, refs[t], b);
    assert (refs - {t})[t := refs[t]] == refs;
  }

  lemma SameRefs(refs: map<nat, Ref>, t: nat, r: Ref, b: nat)
    requires t in refs && r.b == refs[t].b
    ensures RefsTo(refs[t := r], b) == RefsTo(refs, b)
  {
  }

  lemma NoRefs(s: St, b: nat)
    requires Inv(s) && b < |s.bufs| && s.bufs[b].refcnt == 0
    ensures forall t :: t in s.refs ==> s.refs[t].b != b
    ensures s.bufs[b].owner == -1
  {
    hide ByAge, Unique, RefsOk;
    assert BufAt(s, b);
    assert RefsTo(s.refs, b) == {};
    forall t | t in s.refs
      ensures t in RefsTo(s.refs, b) <==> s.refs[t].b == b
    {
    }
  }

  lemma HitOk(s: St, t: nat, b: nat)
    requires Inv(s) && b < |s.bufs| && t !in s.refs && s.bufs[b].dev == ROOTDEV
    ensures Inv(Hit(s, t, b))
  {
    hide RefsTo;
    var s' := Hit(s, t, b);
    forall c: nat | c < |s'.bufs|
      ensures BufAt(s', c)
    {
      assert BufAt(s, c);
      AddRef(s.refs, t, s'.refs[t], c);
    }
    forall u | u in s'.refs
      ensures RefAt(s', u)
    {
      assert BufAt(s, b);
      assert u == t || RefAt(s, u);
    }
  }

  lemma RecycledOk(s: St, t: nat, b: nat, blockno: nat)
    requires Inv(s) && b < |s.bufs| && t !in s.refs && Free(s, b)
    requires forall c: nat :: c < |s.bufs| ==> !Holds(s, c, blockno)
    ensures Inv(Recycled(s, t, b, blockno))
  {
    hide RefsTo;
    NoRefs(s, b);
    var s' := Recycled(s, t, b, blockno);
    forall c: nat | c < |s'.bufs|
      ensures BufAt(s', c)
    {
      assert BufAt(s, c);
      AddRef(s.refs, t, s'.refs[t], c);
    }
    forall u | u in s'.refs
      ensures RefAt(s', u)
    {
      assert u == t || RefAt(s, u);
    }
    forall c: nat | c < |s.bufs|
      ensures s.bufs[c].dev == ROOTDEV ==> s.bufs[c].blockno != blockno
    {
      assert !Holds(s, c, blockno);
    }
  }

  /** Contents, flags and the disk block of a locked buffer may change; its identity may not. */
  predicate HolderMay(s: St, t: nat, x: Buf, disk: seq<Block>)
    requires t in s.refs && s.refs[t].b < |s.bufs|
  {
    var was := s.bufs[s.refs[t].b];
    && s.refs[t].use == InUse
    && x.dev == was.dev && x.blockno == was.blockno && x.refcnt == was.refcnt && x.owner == was.owner
    && (x.dirty ==> x.valid) && (x.valid ==> was.blockno < |s.disk|)
    && |disk| == |s.disk| && forall k :: 0 <= k < |disk| && k != was.blockno ==> disk[k] == s.disk[k]
  }

  lemma ChangedOk(s: St, t: nat, x: Buf, disk: seq<Block>)
    requires Inv(s) && t in s.refs && RefAt(s, t) && HolderMay(s, t, x, disk)
    ensures Inv(Changed(s, s.refs[t].b, x, disk))
  {
    hide RefsTo;
    var b := s.refs[t].b;
    var s' := Changed(s, b, x, disk);
    forall c: nat | c < |s'.bufs|
      ensures BufAt(s', c)
    {
      assert BufAt(s, c);
    }
    forall u | u in s'.refs
      ensures RefAt(s', u)
    {
      assert RefAt(s, u);
    }
  }

  lemma LockOk(s: St, t: nat)
    requires Inv(s) && t in s.refs && RefAt(s, t) && s.refs[t].use == Waiting && s.bufs[s.refs[t].b].owner == -1
    ensures Inv(WithUse(s, t, InUse, t))
  {
    hide RefsTo, ByAge, Distinct;
    UseOk(s, t, InUse, t);
  }

  lemma UnlockOk(s: St, t: nat)
    requires Inv(s) && t in s.refs && RefAt(s, t) && s.refs[t].use == InUse
    requires var x := s.bufs[s.refs[t].b]; x.valid && !x.dirty ==> x.blockno < |s.disk| && x.data == s.disk[x.blockno]
    ensures Inv(WithUse(s, t, Leaving, -1))
  {
    hide RefsTo, ByAge, Distinct;
    UseOk(s, t, Leaving, -1);
  }

  lemma UseOk(s: St, t: nat, use: Use, owner: int)
    requires Inv(s) && t in s.refs && RefAt(s, t)
    requires (use == InUse && owner == t && s.bufs[s.refs[t].b].owner == -1) ||
             (use == Leaving && owner == -1 && s.refs[t].use == InUse)
    requires var x := s.bufs[s.refs[t].b];
             owner == -1 && x.valid && !x.dirty ==> x.blockno < |s.disk| && x.data == s.disk[x.blockno]
    ensures Inv(WithUse(s, t, use, owner))
  {
    hide RefsTo;
    var b := s.refs[t].b;
    var s' := WithUse(s, t, use, owner);
    forall c: nat | c < |s'.bufs|
      ensures BufAt(s', c)
    {
      assert BufAt(s, c);
      SameRefs(s.refs, t, s'.refs[t], c);
    }
    forall u | u in s'.refs
      ensures RefAt(s', u)
    {
      assert RefAt(s, u);
      assert BufAt(s, b);
    }
  }

  /** brelse's second half, with or without the move to the front. */
  lemma UnreferencedOk(s: St, t: nat, order: seq<nat>, stamp: seq<nat>, clock: nat)
    requires Inv(s) && t in s.refs && RefAt(s, t) && s.refs[t].use == Leaving
    requires Distinct(order, |s.bufs|) && ByAge(s.(order := order, stamp := stamp, clock := clock))
    ensures s.bufs[s.refs[t].b].refcnt > 0
    ensures Inv(Unreferenced(s, t, order, stamp, clock))
  {
    hide RefsTo, ByAge, Distinct;
    var b := s.refs[t].b;
    assert BufAt(s, b);
    DropRef(s.refs, t, b);
    var s' := Unreferenced(s, t, order, stamp, clock);
    forall c: nat | c < |s'.bufs|
      ensures BufAt(s', c)
    {
      assert BufAt(s, c);
      DropRef(s.refs, t, c);
    }
    forall u | u in s'.refs
      ensures RefAt(s', u)
    {
      assert RefAt(s, u);
    }
    SameAges(s, s', order, stamp, clock);
  }

  lemma SameAges(s: St, s': St, order: seq<nat>, stamp: seq<nat>, clock: nat)
    requires ByAge(s.(order := order, stamp := stamp, clock := clock))
    requires |s'.bufs| == |s.bufs| && s'.order == order && s'.stamp == stamp && s'.clock == clock
    ensures ByAge(s')
  {
  }

  /** Moving buffer `k` of the list to the front is its release at the present time. */
  lemma Freshened(s: St, k: nat)
    requires Inv(s) && k < |s.order|
    ensures var b := s.order[k];
            var order := [b] + Without(s.order, k);
            && b < |s.bufs| && b < |s.stamp|
            && Distinct(order, |s.bufs|)
            && ByAge(s.(order := order, stamp := s.stamp[b := s.clock], clock := s.clock + 1))
  {
    hide RefsOk, BufsOk, Unique, Without;
    var b := s.order[k];
    WithoutIs(s.order, k);
    var r := Without(s.order, k);
    forall i | 0 <= i < |r|
      ensures r[i] != b && r[i] < |s.bufs|
    {
    }
    forall c: nat | c < |s.bufs|
      ensures c in [b] + r
    {
      if c != b {
        assert c in s.order;
        var i :| 0 <= i < |s.order| && s.order[i] == c;
        assert r[if i < k then i else i - 1] == c;
      }
    }
  }

  // ---- the cache ----

  /** What a process may do next with reference `t`. Others may act between any two of these. */
  datatype Event =
    | Get(t: nat, blockno: nat)   // bget up to the release of bcache.lock
    | Lock(t: nat)                // acquiresleep returns
    | Fill(t: nat)                // bread's iderw if the buffer is not valid
    | Store(t: nat, data: Block)  // the holder changes the bytes
    | Mark(t: nat)                // log_write sets B_DIRTY
    | Write(t: nat)               // bwrite
    | Unlock(t: nat)              // brelse: releasesleep
    | Unref(t: nat)               // brelse: the rest

  class Cache {
    const n: nat

    var bufs: seq<Buf>
    var next: seq<nat>
    var prev: seq<nat>
    var disk: seq<Block>

    var refs: map<nat, Ref> // the local variable b of each caller
    ghost var order: seq<nat>
    ghost var stamp: seq<nat>
    ghost var clock: nat

    ghost function State(): St
      reads this
    {
      St(bufs, disk, refs, order, stamp, clock)
    }

    ghost predicate Valid()
      reads this
    {
      |bufs| == n && Ring(next, prev, order, n) && Inv(State())
    }

    /** binit: static buffers are all zeros, so none is valid, dirty, referenced or locked, and none is on the root
        device. */
    constructor (size: nat, contents: seq<Block>)
      ensures Valid() && n == size && disk == contents && refs == map[]
      ensures forall b :: 0 <= b < n ==>
                var x := bufs[b];
                x.dev != ROOTDEV && !x.valid && !x.dirty && x.refcnt == 0 && x.owner == -1
    {
      n := size;
      disk := contents;
      refs := map[];
      bufs := seq(size, i => Buf(0, 0, false, false, 0, -1, ZeroBlock()));
      next := seq(size + 1, i => size);
      prev := seq(size + 1, i => size);
      order := [];
      stamp := seq(size, (i: nat) => i);
      clock := size;
      new;
      hide LinkAt;
      assert Ring(next, prev, order, n) by { EmptyRing(next, prev, n); }
      for b := 0 to n
        invariant Ring(next, prev, order, n) && |order| == b
        invariant forall i :: 0 <= i < b ==> order[i] == b - 1 - i
        invariant |bufs| == n && refs == map[] && clock == n && disk == contents && n == size
        invariant forall c :: 0 <= c < n ==> bufs[c] == Buf(0, 0, false, false, 0, -1, ZeroBlock())
        invariant |stamp| == n && forall c :: 0 <= c < n ==> stamp[c] == c
      {
        PushFront(next, prev, order, n, b);
        next, prev := next[b := next[n]], prev[b := n];
        prev := prev[next[n] := b];
        next := next[n := b];
        order := [b] + order;
      }
      FreshCache(State());
    }

    /** The first loop of bget: the buffer that holds the block, or the head of the list. */
    method FindHeld(blockno: nat) returns (b: nat)
      requires Valid()
      ensures b != n ==> b < n && Holds(State(), b, blockno) && CanGet(State(), blockno)
      ensures b == n ==> forall c :: 0 <= c < n ==> !Holds(State(), c, blockno)
    {
      hide Inv, LinkAt, Distinct;
      ghost var s := State();
      ghost var i: nat := 0;
      b := next[n];
      RingAt(next, prev, order, n, -1);
      while b != n
        invariant i <= |order| && b == Node(order, n, i)
        invariant forall j :: 0 <= j < i ==> order[j] < n && !Holds(s, order[j], blockno)
        decreases |order| - i
      {
        RingAt(next, prev, order, n, i);
        if bufs[b].dev == ROOTDEV && bufs[b].blockno == blockno {
          return;
        }
        b := next[b];
        i := i + 1;
      }
      RingAt(next, prev, order, n, i);
      assert i == |order|;
      Everywhere(s, blockno);
    }

    /** The second loop of bget, from the least recently used end: the first buffer that is unreferenced and clean,
        or the head of the list. */
    method FindFree() returns (b: nat, ghost i: nat)
      requires Valid()
      ensures b != n ==> b < n && i < |order| && order[i] == b && Free(State(), b)
      ensures b != n ==> forall j :: i < j < |order| ==> order[j] < n && !Free(State(), order[j])
      ensures b == n ==> i == 0 && forall j :: 0 <= j < |order| ==> order[j] < n && !Free(State(), order[j])
    {
      hide Inv, LinkAt, Distinct;
      ghost var s := State();
      b := prev[n];
      i := |order|;
      RingAt(next, prev, order, n, i);
      while b != n
        invariant i <= |order| && b == Node(order, n, i - 1)
        invariant forall j :: i <= j < |order| ==> order[j] < n && !Free(s, order[j])
        decreases i
      {
        RingAt(next, prev, order, n, i - 1);
        if bufs[b].refcnt == 0 && !bufs[b].dirty {
          i := i - 1;
          return;
        }
        b := prev[b];
        i := i - 1;
      }
      RingAt(next, prev, order, n, i - 1);
    }

    /** The part of bget under bcache.lock. False is the panic for want of a buffer. */
    method BGet(t: nat, blockno: nat) returns (ok: bool, b: nat)
      requires Valid() && t !in refs
      modifies `bufs, `refs
      ensures Valid()
      ensures ok <==> CanGet(old(State()), blockno)
      ensures !ok ==> State() == old(State())
      ensures ok ==> b < n && State() == if Holds(old(State()), b, blockno) then Hit(old(State()), t, b)
                                         else Recycled(old(State()), t, b, blockno)
      ensures ok && !Holds(old(State()), b, blockno) ==> Victim(old(State()), b, blockno)
    {
      hide Inv, LinkAt, Distinct;
      ghost var s := State();
      b := FindHeld(blockno);
      if b != n {
        HitOk(s, t, b);
        bufs := bufs[b := bufs[b].(refcnt := bufs[b].refcnt + 1)];
        refs := refs[t := Ref(b, blockno, Waiting)];
        return true, b;
      }
      ghost var i;
      b, i := FindFree();
      if b == n {
        NoneFree(s);
        return false, b; // panic("bget: no buffers")
      }
      assert Free(s, b) && CanGet(s, blockno);
      RecycledOk(s, t, b, blockno);
      IsVictim(s, i, blockno);
      bufs := bufs[b := bufs[b].(dev := ROOTDEV, blockno := blockno, valid := false, dirty := false, refcnt := 1)];
      refs := refs[t := Ref(b, blockno, Waiting)];
      ok := true;
    }

    /** acquiresleep(&b->lock) returning to bget, which is possible only while nobody holds the lock. */
    method Lock(t: nat)
      requires Valid() && t in refs && refs[t].use == Waiting && refs[t].b < n && bufs[refs[t].b].owner == -1
      modifies `bufs, `refs
      ensures Valid() && State() == WithUse(old(State()), t, InUse, t)
    {
      hide Inv, Ring;
      RefHere(State(), t);
      LockOk(State(), t);
      var b := refs[t].b;
      bufs := bufs[b := bufs[b].(owner := t)];
      refs := refs[t := refs[t].(use := InUse)];
    }

    /** iderw: write a dirty buffer to the disk, else read a buffer that is not valid. Panics without the lock,
        with nothing to do, on another device or beyond the disk. */
    method Iderw(t: nat, b: nat) returns (ok: bool)
      requires b < |bufs|
      modifies `bufs, `disk
      ensures ok <==> old(bufs[b].owner == t && !(bufs[b].valid && !bufs[b].dirty) && bufs[b].dev == ROOTDEV
                          && bufs[b].blockno < |disk|)
      ensures !ok ==> bufs == old(bufs) && disk == old(disk)
      ensures ok ==> disk == old(if bufs[b].dirty then disk[bufs[b].blockno := bufs[b].data] else disk)
      ensures ok ==> old(bufs[b].blockno) < |disk|
      ensures ok ==>
                var was := old(bufs[b]);
                bufs == old(bufs)[b := was.(valid := true, dirty := false, data := disk[was.blockno])]
    {
      if bufs[b].owner != t || (bufs[b].valid && !bufs[b].dirty) || bufs[b].dev != ROOTDEV
          || bufs[b].blockno >= |disk| {
        return false;
      }
      var k := bufs[b].blockno;
      if bufs[b].dirty {
        bufs := bufs[b := bufs[b].(dirty := false)];
        disk := disk[k := bufs[b].data];
      } else {
        bufs := bufs[b := bufs[b].(data := disk[k])];
      }
      bufs := bufs[b := bufs[b].(valid := true)];
      ok := true;
    }

    /** The end of bread: the locked buffer shows the disk, or what its holders have stored since. */
    method FinishBread(t: nat) returns (ok: bool)
      requires Valid() && t in refs && refs[t].use == InUse
      modifies `bufs, `disk
      ensures Valid() && disk == old(disk) && refs[t].b < n
      ensures ok <==> refs[t].blockno < |disk|
      ensures !ok || old(bufs)[refs[t].b].valid ==> bufs == old(bufs)
      ensures ok && !old(bufs)[refs[t].b].valid ==>
                bufs == old(bufs)[refs[t].b := old(bufs)[refs[t].b].(valid := true, data := disk[refs[t].blockno])]
    {
      hide Inv, Ring;
      ghost var s := State();
      RefHere(s, t);
      var b := refs[t].b;
      ok := true;
      if !bufs[b].valid {
        ok := Iderw(t, b);
        if ok {
          ChangedOk(s, t, bufs[b], disk);
          assert State() == Changed(s, b, bufs[b], disk);
        }
      }
    }

    /** The holder stores bytes. */
    method Store(t: nat, data: Block)
      requires Valid() && t in refs && refs[t].use == InUse
      modifies `bufs
      ensures Valid() && refs[t].b < n && bufs == old(bufs)[refs[t].b := old(bufs)[refs[t].b].(data := data)]
    {
      hide Inv, Ring;
      ghost var s := State();
      RefHere(s, t);
      var b := refs[t].b;
      ChangedOk(s, t, bufs[b].(data := data), disk);
      bufs := bufs[b := bufs[b].(data := data)];
      assert State() == Changed(s, b, bufs[b], disk);
    }

    /** b->flags |= B_DIRTY in log_write, on a buffer that bread returned. */
    method MarkDirty(t: nat)
      requires Valid() && t in refs && refs[t].use == InUse && refs[t].b < n && bufs[refs[t].b].valid
      modifies `bufs
      ensures Valid() && bufs == old(bufs)[refs[t].b := old(bufs)[refs[t].b].(dirty := true)]
    {
      hide Inv, Ring;
      ghost var s := State();
      RefHere(s, t);
      var b := refs[t].b;
      ChangedOk(s, t, bufs[b].(dirty := true), disk);
      bufs := bufs[b := bufs[b].(dirty := true)];
      assert State() == Changed(s, b, bufs[b], disk);
    }

    /** Afterwards the buffer is clean and the disk holds its bytes. Panics unless the caller holds the lock. */
    method BWrite(t: nat) returns (ok: bool)
      requires Valid() && t in refs && refs[t].b < n
      modifies `bufs, `disk
      ensures Valid()
      ensures ok <==> refs[t].use == InUse && refs[t].blockno < |old(disk)|
      ensures !ok ==> State() == old(State())
      ensures ok ==>
                && bufs == old(bufs)[refs[t].b := old(bufs)[refs[t].b].(valid := true, dirty := false)]
                && disk == old(disk)[refs[t].blockno := old(bufs)[refs[t].b].data]
    {
      hide Inv, Ring;
      ghost var s := State();
      RefHere(s, t);
      var b := refs[t].b;
      if bufs[b].owner != t {
        return false; // panic("bwrite")
      }
      if bufs[b].blockno >= |disk| {
        return false; // panic("iderw: block out of range")
      }
      bufs := bufs[b := bufs[b].(dirty := true)];
      ok := Iderw(t, b);
      ChangedOk(s, t, bufs[b], disk);
      assert State() == Changed(s, b, bufs[b], disk);
    }

    /** The first half of brelse. A holder that changed the bytes has written them or marked the buffer dirty. */
    method Releasesleep(t: nat) returns (ok: bool)
      requires Valid() && t in refs && refs[t].b < n && Settled(bufs[refs[t].b], disk)
      modifies `bufs, `refs
      ensures Valid() && (ok <==> old(refs)[t].use == InUse)
      ensures !ok ==> State() == old(State())
      ensures ok ==> old(refs)[t].b < n && State() == WithUse(old(State()), t, Leaving, -1)
    {
      hide Inv, Ring;
      RefHere(State(), t);
      var b := refs[t].b;
      if bufs[b].owner != t {
        return false; // panic("brelse")
      }
      UnlockOk(State(), t);
      bufs := bufs[b := bufs[b].(owner := -1)];
      refs := refs[t := refs[t].(use := Leaving)];
      ok := true;
    }

    /** The six assignments of brelse that take `b` out of the list and put it first. */
    method MoveToFront(b: nat, ghost k: nat)
      requires Ring(next, prev, order, n) && k < |order| && b == order[k]
      modifies `next, `prev
      ensures Ring(next, prev, [b] + Without(order, k), n)
    {
      hide Ring, Without;
      RingSize(next, prev, order, n, k);
      Unlink(next, prev, order, n, k);
      prev := prev[next[b] := prev[b]];
      next := next[prev[b] := next[b]];
      PushFront(next, prev, Without(order, k), n, b);
      next := next[b := next[n]];
      prev := prev[b := n];
      prev := prev[next[n] := b];
      next := next[n := b];
    }

    /** The rest of brelse: the last reference moves the buffer to the front of the list. */
    method Unref(t: nat)
      requires Valid() && t in refs && refs[t].use == Leaving
      modifies `bufs, `next, `prev, `refs, `order, `stamp, `clock
      ensures Valid() && refs == old(refs) - {t} && old(refs)[t].b < n
      ensures bufs == old(bufs)[old(refs)[t].b := old(bufs)[old(refs)[t].b].(refcnt := bufs[old(refs)[t].b].refcnt)]
      ensures bufs[old(refs)[t].b].refcnt == old(bufs)[old(refs)[t].b].refcnt - 1
      ensures bufs[old(refs)[t].b].refcnt > 0 ==> order == old(order) && stamp == old(stamp) && clock == old(clock)
      ensures bufs[old(refs)[t].b].refcnt == 0 ==> Released(old(State()), State(), old(refs)[t].b)
    {
      hide Inv, LinkAt, Distinct;
      ghost var s := State();
      RefHere(s, t);
      var b := refs[t].b;
      ghost var k := PositionOf(s, b);
      Freshened(s, k);
      InvAges(s);
      UnreferencedOk(s, t, order, stamp, clock);
      bufs := bufs[b := bufs[b].(refcnt := bufs[b].refcnt - 1)];
      refs := refs - {t};
      if bufs[b].refcnt == 0 {
        UnreferencedOk(s, t, [b] + Without(order, k), stamp[b := clock], clock + 1);
        MoveToFront(b, k);
        order := [b] + Without(order, k);
        stamp := stamp[b := clock];
        clock := clock + 1;
        IsReleased(s, State(), b, k);
      }
    }

    /** Any interleaving of the steps of any number of processes keeps the cache; a step whose reference is not
        in the state for it waits or does not come about. `trace` is the states it goes through. */
    method Run(events: seq<Event>) returns (ghost trace: seq<St>)
      requires Valid()
      modifies this
      ensures Valid()
      ensures Trace(trace, events) && trace[0] == old(State()) && trace[|events|] == State()
    {
      hide Inv, Ring, Stepped, Can;
      trace := [State()];
      InvHere();
      for i := 0 to |events|
        invariant Valid()
        invariant |trace| == i + 1 && trace[0] == old(State()) && trace[i] == State()
        invariant Trace(trace, events[..i])
      {
        ghost var s := State();
        Step(events[i]);
        InvHere();
        TraceNext(trace, events[..i], State(), events[i]);
        assert events[..i] + [events[i]] == events[..i + 1];
        trace := trace + [State()];
      }
      assert events[..|events|] == events;
    }

    lemma InvHere()
      requires Valid()
      ensures Inv(State())
    {
    }

    /** One step. What other callers are owed stays as it is. */
    method Step(e: Event)
      requires Valid()
      modifies this
      ensures Valid()
      ensures forall t :: t in old(refs) && t != e.t ==> t in refs && refs[t] == old(refs)[t]
      ensures if Can(old(State()), e) then Stepped(old(State()), State(), e) else State() == old(State())
    {
      hide Inv, Ring, Victim, CanGet, Released;
      if e.Get? {
        if e.t !in refs {
          ghost var s := State();
          var ok, b := BGet(e.t, e.blockno);
          assert ok ==> Got(s, State(), e.t, e.blockno, b);
        }
      } else if e.t in refs {
        RefHere(State(), e.t);
        match e
        case Lock(t) =>
          if refs[t].use == Waiting && bufs[refs[t].b].owner == -1 {
            Lock(t);
          }
        case Fill(t) =>
          if refs[t].use == InUse {
            var _ := FinishBread(t);
          }
        case Store(t, data) =>
          if refs[t].use == InUse {
            Store(t, data);
          }
        case Mark(t) =>
          if refs[t].use == InUse && bufs[refs[t].b].valid {
            MarkDirty(t);
          }
        case Write(t) =>
          var _ := BWrite(t);
        case Unlock(t) =>
          if Settled(bufs[refs[t].b], disk) {
            var _ := Releasesleep(t);
          }
        case Unref(t) =>
          if refs[t].use == Leaving {
            Unref(t);
          }
      }
    }
  }

  ghost predicate Got(s: St, s': St, t: nat, blockno: nat, b: nat)
    requires b < |s.bufs|
  {
    if Holds(s, b, blockno) then s' == Hit(s, t, b) else Victim(s, b, blockno) && s' == Recycled(s, t, b, blockno)
  }

  /** Whether the step can come about now: the reference is in the state for it, bget finds a buffer, the lock is
      free, there is something to read, or the holder has settled what it changed. */
  ghost predicate Can(s: St, e: Event) {
    if e.Get? then e.t !in s.refs && CanGet(s, e.blockno)
    else
      && e.t in s.refs && s.refs[e.t].b < |s.bufs|
      && var x, use := s.bufs[s.refs[e.t].b], s.refs[e.t].use;
         match e
         case Lock(t) => use == Waiting && x.owner == -1
         case Fill(t) => use == InUse && !x.valid && x.blockno < |s.disk|
         case Store(t, data) => use == InUse
         case Mark(t) => use == InUse && x.valid
         case Write(t) => use == InUse && x.blockno < |s.disk|
         case Unlock(t) => use == InUse && Settled(x, s.disk)
         case Unref(t) => use == Leaving
  }

  /** What a step that comes about does to the cache. */
  ghost predicate Stepped(s: St, s': St, e: Event) {
    if e.Get? then
      exists b: nat :: b < |s.bufs| && Got(s, s', e.t, e.blockno, b)
    else
      && e.t in s.refs && s.refs[e.t].b < |s.bufs|
      && var b := s.refs[e.t].b;
         var x := s.bufs[b];
         match e
         case Lock(t) => s' == WithUse(s, t, InUse, t)
         case Fill(t) => !x.valid && x.blockno < |s.disk|
                         && s' == Changed(s, b, x.(valid := true, data := s.disk[x.blockno]), s.disk)
         case Store(t, data) => s' == Changed(s, b, x.(data := data), s.disk)
         case Mark(t) => x.valid && s' == Changed(s, b, x.(dirty := true), s.disk)
         case Write(t) => x.blockno < |s.disk|
                          && s' == Changed(s, b, x.(valid := true, dirty := false), s.disk[x.blockno := x.data])
         case Unlock(t) => s' == WithUse(s, t, Leaving, -1)
         case Unref(t) => x.refcnt > 0 && s' == Unreferenced(s, t, s'.order, s'.stamp, s'.clock)
                          && if x.refcnt == 1 then Released(s, s', b)
                             else s'.order == s.order && s'.stamp == s.stamp && s'.clock == s.clock
  }

  /** Sound states, each a step on from the one before it, or the same where the step cannot come about. */
  ghost predicate Trace(trace: seq<St>, events: seq<Event>) {
    && |trace| == |events| + 1
    && (forall k :: 0 <= k < |trace| ==> Inv(trace[k]))
    && (forall k :: 0 <= k < |events| ==>
          if Can(trace[k], events[k]) then Stepped(trace[k], trace[k + 1], events[k]) else trace[k + 1] == trace[k])
  }

  lemma TraceNext(trace: seq<St>, events: seq<Event>, s: St, e: Event)
    requires Trace(trace, events) && Inv(s)
    requires if Can(trace[|events|], e) then Stepped(trace[|events|], s, e) else s == trace[|events|]
    ensures Trace(trace + [s], events + [e])
  {
    hide Inv, Stepped, Can;
  }

  predicate CanGet(s: St, blockno: nat) {
    exists c: nat :: c < |s.bufs| && (Holds(s, c, blockno) || Free(s, c))
  }

  /** No buffer has the block, and of the clean unreferenced ones `b` was released first. */
  predicate Victim(s: St, b: nat, blockno: nat)
    requires b < |s.bufs|
  {
    && |s.stamp| == |s.bufs| && Free(s, b)
    && forall c: nat :: c < |s.bufs| ==> !Holds(s, c, blockno) && (Free(s, c) && c != b ==> s.stamp[b] < s.stamp[c])
  }

  lemma EmptyRing(next: seq<nat>, prev: seq<nat>, n: nat)
    requires |next| == n + 1 && |prev| == n + 1
    requires forall i :: 0 <= i <= n ==> next[i] == n && prev[i] == n
    ensures Ring(next, prev, [], n)
  {
  }

  lemma FreshCache(s: St)
    requires Distinct(s.order, |s.bufs|) && |s.order| == |s.bufs| == |s.stamp| == s.clock && s.refs == map[]
    requires forall i :: 0 <= i < |s.order| ==> s.order[i] == |s.order| - 1 - i
    requires forall c :: 0 <= c < |s.bufs| ==>
               s.bufs[c] == Buf(0, 0, false, false, 0, -1, ZeroBlock()) && s.stamp[c] == c
    ensures Inv(s)
  {
    forall b: nat | b < |s.bufs|
      ensures BufAt(s, b) && b in s.order
    {
      assert RefsTo(s.refs, b) == {};
      assert s.order[|s.order| - 1 - b] == b;
    }
  }

  lemma Everywhere(s: St, blockno: nat)
    requires Inv(s) && forall j :: 0 <= j < |s.order| ==> s.order[j] < |s.bufs| && !Holds(s, s.order[j], blockno)
    ensures forall c: nat :: c < |s.bufs| ==> !Holds(s, c, blockno)
  {
    hide RefsOk, BufsOk, Unique, Holds;
    forall c: nat | c < |s.bufs|
      ensures !Holds(s, c, blockno)
    {
      assert c in s.order;
    }
  }

  lemma NoneFree(s: St)
    requires Inv(s) && forall j :: 0 <= j < |s.order| ==> s.order[j] < |s.bufs| && !Free(s, s.order[j])
    ensures forall c: nat :: c < |s.bufs| ==> !Free(s, c)
  {
    hide RefsOk, BufsOk, Unique, Free;
    forall c: nat | c < |s.bufs|
      ensures !Free(s, c)
    {
      assert c in s.order;
    }
  }

  lemma IsVictim(s: St, k: nat, blockno: nat)
    requires Inv(s) && k < |s.order| && s.order[k] < |s.bufs| && Free(s, s.order[k])
    requires forall j :: k < j < |s.order| ==> s.order[j] < |s.bufs| && !Free(s, s.order[j])
    requires forall c: nat :: c < |s.bufs| ==> !Holds(s, c, blockno)
    ensures Victim(s, s.order[k], blockno)
  {
    hide RefsOk, BufsOk, Unique, Free, Holds;
    var b := s.order[k];
    forall c: nat | c < |s.bufs| && Free(s, c) && c != b
      ensures s.stamp[b] < s.stamp[c]
    {
      assert c in s.order;
      var i :| 0 <= i < |s.order| && s.order[i] == c;
      assert i < k;
    }
  }

  lemma RefHere(s: St, t: nat)
    requires Inv(s) && t in s.refs
    ensures RefAt(s, t) && BufAt(s, s.refs[t].b)
  {
    hide Distinct, ByAge, Unique, BufAt, RefAt;
    assert RefAt(s, t);
    RefInRange(s, t);
    assert BufAt(s, s.refs[t].b);
  }

  lemma RefInRange(s: St, t: nat)
    requires t in s.refs && RefAt(s, t)
    ensures s.refs[t].b < |s.bufs|
  {
  }

  /** A valid buffer is dirty or equal to its disk block. */
  predicate Settled(x: Buf, disk: seq<Block>) {
    x.valid && !x.dirty ==> x.blockno < |disk| && x.data == disk[x.blockno]
  }

  lemma PositionOf(s: St, b: nat) returns (k: nat)
    requires Inv(s) && b < |s.bufs|
    ensures k < |s.order| && s.order[k] == b
  {
    hide Distinct, RefsOk, BufsOk, Unique;
    assert b in s.order;
    k :| k < |s.order| && s.order[k] == b;
  }

  lemma InvAges(s: St)
    requires Inv(s)
    ensures Distinct(s.order, |s.bufs|) && ByAge(s.(order := s.order, stamp := s.stamp, clock := s.clock))
  {
  }

  /** `b` is now the most recently released buffer; the others keep their order. */
  predicate Released(s: St, s': St, b: nat) {
    && |s'.stamp| == |s.stamp| && b < |s.stamp| && s'.stamp == s.stamp[b := s.clock] && s'.clock == s.clock + 1
    && |s'.order| > 0 && s'.order[0] == b
    && exists k :: 0 <= k < |s.order| && s.order[k] == b && s'.order == [b] + Without(s.order, k)
  }

  lemma IsReleased(s: St, s': St, b: nat, k: nat)
    requires k < |s.order| && s.order[k] == b && s'.order == [b] + Without(s.order, k)
    requires b < |s.stamp| && s'.stamp == s.stamp[b := s.clock] && s'.clock == s.clock + 1
    ensures Released(s, s', b)
  {
  }

  // ---- what it means for the processes ----

  /** Two calls of bget for the same block that have not been released share one buffer. */
  lemma OneBufferPerBlock(s: St, t: nat, u: nat)
    requires Inv(s) && t in s.refs && u in s.refs
    ensures s.refs[t].blockno == s.refs[u].blockno <==> s.refs[t].b == s.refs[u].b
  {
    hide ByAge, BufsOk, Distinct;
    assert RefAt(s, t) && RefAt(s, u);
  }

  /** At most one of the processes that asked for a block has it locked. */
  lemma OneHolder(s: St, t: nat, u: nat)
    requires Inv(s) && t in s.refs && u in s.refs
    requires s.refs[t].use == InUse && s.refs[u].use == InUse && s.refs[t].blockno == s.refs[u].blockno
    ensures t == u
  {
    hide ByAge, BufsOk, Distinct, Unique;
    OneBufferPerBlock(s, t, u);
    assert RefAt(s, t) && RefAt(s, u);
  }

  // ---- what readers see ----

  predicate ValidFor(s: St, b: nat, k: nat)
    requires b < |s.bufs|
  {
    s.bufs[b].valid && Holds(s, b, k)
  }

  predicate Loaded(s: St, k: nat) {
    exists b: nat :: b < |s.bufs| && ValidFor(s, b, k)
  }

  /** Block `k` reads as `v`: its valid buffer holds that, or there is none and the disk does. */
  predicate Reads(s: St, k: nat, v: Block) {
    && k < |s.disk|
    && (forall b: nat :: b < |s.bufs| && ValidFor(s, b, k) ==> s.bufs[b].data == v)
    && (!Loaded(s, k) ==> s.disk[k] == v)
  }

  /** A holder of block `k` stores or writes now. */
  ghost predicate Puts(s: St, e: Event, k: nat) {
    (e.Store? || e.Write?) && Can(s, e) && s.refs[e.t].blockno == k
  }

  /** Whoever stores to the block or writes it has read it first. */
  ghost predicate ReadFirst(trace: seq<St>, events: seq<Event>, k: nat)
    requires |trace| == |events| + 1
  {
    forall j :: 0 <= j < |events| ==> PutsRead(trace[j], events[j], k)
  }

  ghost predicate PutsRead(s: St, e: Event, k: nat) {
    Puts(s, e, k) ==> s.bufs[s.refs[e.t].b].valid
  }

  /** The bytes stored to block `k` last, or `v` if there were none. */
  ghost function Latest(trace: seq<St>, events: seq<Event>, k: nat, v: Block): Block
    requires |trace| == |events| + 1
  {
    if events == [] then v
    else
      var n := |events| - 1;
      if events[n].Store? && Puts(trace[n], events[n], k) then events[n].data
      else Latest(trace[..n + 1], events[..n], k, v)
  }

  /** A change of buffer `b` that keeps its identity matters to its own block only. */
  lemma ReadsChanged(s: St, s': St, b: nat, k: nat, v: Block)
    requires Inv(s) && b < |s.bufs| && s.bufs[b].dev == ROOTDEV && s.bufs[b].valid
    requires |s'.bufs| == |s.bufs| && |s'.disk| == |s.disk| && Reads(s, k, v)
    requires s'.bufs[b].valid && s'.bufs[b].dev == ROOTDEV && s'.bufs[b].blockno == s.bufs[b].blockno
    requires forall c: nat :: c < |s.bufs| && c != b ==> s'.bufs[c] == s.bufs[c]
    requires forall j: nat :: j < |s.disk| && j != s.bufs[b].blockno ==> s'.disk[j] == s.disk[j]
    ensures Reads(s', k, if s.bufs[b].blockno == k then s'.bufs[b].data else v)
  {
    hide RefsOk, BufsOk, ByAge, Distinct;
    if s.bufs[b].blockno == k {
      assert ValidFor(s', b, k);
      forall c: nat | c < |s'.bufs| && ValidFor(s', c, k)
        ensures c == b
      {
      }
    } else if !Loaded(s', k) {
      forall c: nat | c < |s.bufs|
        ensures !ValidFor(s, c, k)
      {
        assert !ValidFor(s', c, k);
      }
    }
  }

  /** Steps that leave contents and disk alone. */
  lemma ReadsSame(s: St, s': St, k: nat, v: Block)
    requires Reads(s, k, v) && |s'.bufs| == |s.bufs| && s'.disk == s.disk
    requires forall c: nat :: c < |s.bufs| ==>
               && s'.bufs[c].dev == s.bufs[c].dev && s'.bufs[c].blockno == s.bufs[c].blockno
               && s'.bufs[c].valid == s.bufs[c].valid && s'.bufs[c].data == s.bufs[c].data
    ensures Reads(s', k, v)
  {
    if Loaded(s, k) {
      var b: nat :| b < |s.bufs| && ValidFor(s, b, k);
      assert ValidFor(s', b, k);
    }
    forall c: nat | c < |s'.bufs| && ValidFor(s', c, k)
      ensures ValidFor(s, c, k)
    {
    }
  }

  /** A recycled buffer was clean and unlocked, so the disk has what it held. */
  lemma ReadsRecycled(s: St, t: nat, b: nat, blockno: nat, k: nat, v: Block)
    requires Inv(s) && b < |s.bufs| && Victim(s, b, blockno) && Reads(s, k, v)
    ensures Reads(Recycled(s, t, b, blockno), k, v)
  {
    hide RefsOk, ByAge, Distinct, RefsTo, Unique;
    var s' := Recycled(s, t, b, blockno);
    NoRefs(s, b);
    assert BufAt(s, b);
    forall c: nat | c < |s'.bufs| && ValidFor(s', c, k)
      ensures c != b && ValidFor(s, c, k)
    {
    }
    forall c: nat | c < |s.bufs| && ValidFor(s, c, k) && c != b
      ensures Loaded(s', k)
    {
      assert ValidFor(s', c, k);
    }
  }

  /** The buffer of a block is the only one, so before it is filled nothing valid holds the block. */
  lemma ReadsFilled(s: St, b: nat, k: nat, v: Block)
    requires Inv(s) && b < |s.bufs| && s.bufs[b].dev == ROOTDEV && !s.bufs[b].valid && s.bufs[b].blockno < |s.disk|
    requires Reads(s, k, v)
    ensures Reads(Changed(s, b, s.bufs[b].(valid := true, data := s.disk[s.bufs[b].blockno]), s.disk), k, v)
  {
    hide RefsOk, BufsOk, ByAge, Distinct;
    var s' := Changed(s, b, s.bufs[b].(valid := true, data := s.disk[s.bufs[b].blockno]), s.disk);
    if s.bufs[b].blockno == k {
      forall c: nat | c < |s.bufs|
        ensures !ValidFor(s, c, k)
      {
      }
      assert ValidFor(s', b, k);
    } else {
      if Loaded(s, k) {
        var c: nat :| c < |s.bufs| && ValidFor(s, c, k);
        assert ValidFor(s', c, k);
      }
      forall c: nat | c < |s'.bufs| && ValidFor(s', c, k)
        ensures ValidFor(s, c, k)
      {
      }
    }
  }

  lemma StepReads(s: St, s': St, e: Event, k: nat, v: Block)
    requires Inv(s) && Can(s, e) && Stepped(s, s', e) && Reads(s, k, v)
    requires PutsRead(s, e, k)
    ensures Reads(s', k, if e.Store? && Puts(s, e, k) then e.data else v)
  {
    hide Inv, Reads, Victim, Released;
    if e.Get? {
      var b: nat :| b < |s.bufs| && Got(s, s', e.t, e.blockno, b);
      if Holds(s, b, e.blockno) {
        ReadsSame(s, s', k, v);
      } else {
        ReadsRecycled(s, e.t, b, e.blockno, k, v);
      }
    } else {
      RefHere(s, e.t);
      var b := s.refs[e.t].b;
      if e.Fill? {
        ReadsFilled(s, b, k, v);
      } else if e.Store? || e.Write? {
        StoreReads(s, s', e, k, v);
      } else {
        ReadsSame(s, s', k, v);
      }
    }
  }

  /** The holder's bytes become what the block reads as; writing them out changes nothing. */
  lemma StoreReads(s: St, s': St, e: Event, k: nat, v: Block)
    requires Inv(s) && (e.Store? || e.Write?) && Can(s, e) && Stepped(s, s', e) && Reads(s, k, v)
    requires e.t in s.refs && RefAt(s, e.t) && BufAt(s, s.refs[e.t].b)
    requires s.refs[e.t].blockno == k ==> s.bufs[s.refs[e.t].b].valid
    ensures Reads(s', k, if e.Store? && s.refs[e.t].blockno == k then e.data else v)
  {
    hide Inv, Victim;
    var b := s.refs[e.t].b;
    if s.refs[e.t].blockno == k {
      assert ValidFor(s, b, k);
      ReadsChanged(s, s', b, k, v);
    } else {
      OtherBlock(s, s', b, k, v);
    }
  }

  /** What happens to another block's buffer, valid or not, does not matter. */
  lemma OtherBlock(s: St, s': St, b: nat, k: nat, v: Block)
    requires b < |s.bufs| && s.bufs[b].blockno != k && Reads(s, k, v)
    requires |s'.bufs| == |s.bufs| && |s'.disk| == |s.disk| && s'.bufs[b].blockno == s.bufs[b].blockno
    requires forall c: nat :: c < |s.bufs| && c != b ==> s'.bufs[c] == s.bufs[c]
    requires forall j: nat :: j < |s.disk| && j != s.bufs[b].blockno ==> s'.disk[j] == s.disk[j]
    ensures Reads(s', k, v)
  {
    forall c: nat | c < |s.bufs|
      ensures ValidFor(s', c, k) <==> ValidFor(s, c, k)
    {
    }
    if Loaded(s, k) {
      var c: nat :| c < |s.bufs| && ValidFor(s, c, k);
      assert ValidFor(s', c, k);
    }
  }

  lemma TraceFront(trace: seq<St>, events: seq<Event>, k: nat)
    requires Trace(trace, events) && events != [] && ReadFirst(trace, events, k)
    ensures var n := |events| - 1;
            && Trace(trace[..n + 1], events[..n]) && ReadFirst(trace[..n + 1], events[..n], k) && Inv(trace[n])
            && (if Can(trace[n], events[n]) then Stepped(trace[n], trace[n + 1], events[n])
                else trace[n + 1] == trace[n])
            && PutsRead(trace[n], events[n], k)
  {
    hide Inv, Stepped, Can, PutsRead;
  }

  /** Over every interleaving, a block reads as what was stored to it last, by whatever process and in whatever
      buffer, or as what the disk held at the start: evictions, refills and writes in between do not show. It
      asks only that whoever stores to the block has read it first. */
  lemma {:induction false} ReadsLatest(trace: seq<St>, events: seq<Event>, k: nat)
    requires Trace(trace, events) && ReadFirst(trace, events, k) && k < |trace[0].disk|
    requires forall b: nat :: b < |trace[0].bufs| ==> !trace[0].bufs[b].valid
    ensures Reads(trace[|events|], k, Latest(trace, events, k, trace[0].disk[k]))
    decreases |events|
  {
    hide Inv, Stepped, Can, Reads;
    var v := trace[0].disk[k];
    if events == [] {
      NothingLoaded(trace[0], k);
    } else {
      var n := |events| - 1;
      TraceFront(trace, events, k);
      ReadsLatest(trace[..n + 1], events[..n], k);
      if Can(trace[n], events[n]) {
        StepReads(trace[n], trace[n + 1], events[n], k, Latest(trace[..n + 1], events[..n], k, v));
      }
    }
  }

  lemma NothingLoaded(s: St, k: nat)
    requires k < |s.disk| && forall b: nat :: b < |s.bufs| ==> !s.bufs[b].valid
    ensures Reads(s, k, s.disk[k])
  {
  }

  /** What the holder of a block sees once bread has returned. */
  lemma HolderReads(s: St, t: nat, v: Block)
    requires Inv(s) && t in s.refs && s.refs[t].b < |s.bufs| && s.bufs[s.refs[t].b].valid
    requires Reads(s, s.refs[t].blockno, v)
    ensures s.bufs[s.refs[t].b].data == v
  {
    hide BufsOk, ByAge, Unique, Distinct;
    assert RefAt(s, t);
    assert ValidFor(s, s.refs[t].b, s.refs[t].blockno);
  }
}
