/** The buffers of bio.c as the map and the set of dirty blocks that the log works with. */
module CacheView {
  import opened Words
  import R = RedoLog
  import opened BufferCache

  predicate ValidAt(s: St, b: nat, k: nat) {
    b < |s.bufs| && s.bufs[b].valid && s.bufs[b].blockno == k
  }

  predicate DirtyAt(s: St, b: nat, k: nat) {
    b < |s.bufs| && s.bufs[b].dirty && s.bufs[b].blockno == k
  }

  /** `cache` is the valid buffers by block number, `dirty` the blocks whose buffer is dirty. */
  ghost predicate Shows(s: St, cache: map<nat, Block>, dirty: set<nat>) {
    && (forall b: nat, k: nat :: ValidAt(s, b, k) ==> k in cache && cache[k] == s.bufs[b].data)
    && (forall k :: k in cache ==> exists b: nat :: ValidAt(s, b, k))
    && (forall b: nat, k: nat :: DirtyAt(s, b, k) ==> k in dirty)
    && (forall k :: k in dirty ==> exists b: nat :: DirtyAt(s, b, k))
  }

  /** At most one buffer is valid for a block. */
  lemma OneValid(s: St, b: nat, c: nat, k: nat)
    requires Inv(s) && ValidAt(s, b, k) && ValidAt(s, c, k)
    ensures b == c
  {
    assert BufAt(s, b) && BufAt(s, c);
  }

  /** Every state of the cache has such a view. */
  lemma {:induction false} ViewUpTo(s: St, n: nat) returns (cache: map<nat, Block>, dirty: set<nat>)
    requires Inv(s) && n <= |s.bufs|
    ensures forall b: nat, k: nat :: ValidAt(s, b, k) && b < n ==> k in cache && cache[k] == s.bufs[b].data
    ensures forall k :: k in cache ==> exists b: nat :: ValidAt(s, b, k) && b < n
    ensures forall b: nat, k: nat :: DirtyAt(s, b, k) && b < n ==> k in dirty
    ensures forall k :: k in dirty ==> exists b: nat :: DirtyAt(s, b, k) && b < n
  {
    cache, dirty := map[], {};
    if n > 0 {
      var c, d := ViewUpTo(s, n - 1);
      var x := s.bufs[n - 1];
      cache := if x.valid then c[x.blockno := x.data] else c;
      dirty := if x.dirty then d + {x.blockno} else d;
      forall b: nat, k: nat | ValidAt(s, b, k) && b < n
        ensures k in cache && cache[k] == s.bufs[b].data
      {
        if x.valid && k == x.blockno {
          assert ValidAt(s, n - 1, k);
          OneValid(s, b, n - 1, k);
        }
      }
      assert x.valid ==> ValidAt(s, n - 1, x.blockno);
      assert x.dirty ==> DirtyAt(s, n - 1, x.blockno);
    }
  }

  lemma ViewExists(s: St) returns (cache: map<nat, Block>, dirty: set<nat>)
    requires Inv(s)
    ensures Shows(s, cache, dirty)
  {
    cache, dirty := ViewUpTo(s, |s.bufs|);
  }

  /** Between the holders' changes the cache is what the log assumes of it: clean blocks are on the disk. */
  lemma ShownCoherent(s: St, cache: map<nat, Block>, dirty: set<nat>)
    requires Inv(s) && Shows(s, cache, dirty)
    requires forall b: nat :: b < |s.bufs| ==> Settled(s.bufs[b], s.disk)
    ensures R.Coherent(s.disk, cache, dirty) && dirty <= cache.Keys
  {
    forall k | k in cache
      ensures k < |s.disk| && (k !in dirty ==> cache[k] == s.disk[k])
    {
      var b: nat :| ValidAt(s, b, k);
      assert BufAt(s, b);
      assert s.bufs[b].dirty ==> DirtyAt(s, b, k);
    }
    forall k | k in dirty
      ensures k in cache
    {
      var b: nat :| DirtyAt(s, b, k);
      assert BufAt(s, b) && ValidAt(s, b, k);
    }
  }

  /** What a step of one caller is to the log: nothing, a block fetched or recycled, or the effect of bread, of a
      store, of log_write's mark or of bwrite on one block. */
  ghost predicate Moves(e: Event, k: nat, disk: seq<Block>, cache: map<nat, Block>, dirty: set<nat>,
                        disk': seq<Block>, cache': map<nat, Block>, dirty': set<nat>) {
    match e
    case Get(_, _) => disk' == disk && dirty' == dirty && (cache' == cache || (k !in dirty && cache' == cache - {k}))
    case Fill(_) => disk' == disk && dirty' == dirty && k !in cache && k < |disk| && cache' == cache[k := disk[k]]
    case Store(_, data) => disk' == disk && dirty' == dirty && cache' == if k in cache then cache[k := data] else cache
    case Mark(_) => disk' == disk && k in cache && cache' == cache && dirty' == dirty + {k}
    case Write(_) =>
      && k < |disk| == |disk'| && disk' == disk[k := disk'[k]]
      && cache' == cache[k := disk'[k]] && dirty' == dirty - {k}
    case Lock(_) => disk' == disk && cache' == cache && dirty' == dirty
    case Unlock(_) => disk' == disk && cache' == cache && dirty' == dirty
    case Unref(_) => disk' == disk && cache' == cache && dirty' == dirty
  }

  lemma SameView(s: St, s': St, cache: map<nat, Block>, dirty: set<nat>)
    requires Shows(s, cache, dirty) && |s.bufs| == |s'.bufs|
    requires forall b: nat :: b < |s.bufs| ==>
               && s'.bufs[b].valid == s.bufs[b].valid && s'.bufs[b].dirty == s.bufs[b].dirty
               && s'.bufs[b].blockno == s.bufs[b].blockno && s'.bufs[b].data == s.bufs[b].data
    ensures Shows(s', cache, dirty)
  {
    assert forall b: nat, k: nat :: ValidAt(s', b, k) == ValidAt(s, b, k);
    assert forall b: nat, k: nat :: DirtyAt(s', b, k) == DirtyAt(s, b, k);
  }

  /** A buffer that is taken over no longer shows its old block, which was not pinned. */
  lemma RecycledView(s: St, t: nat, b: nat, blockno: nat, cache: map<nat, Block>, dirty: set<nat>)
    requires Inv(s) && b < |s.bufs| && Free(s, b) && Shows(s, cache, dirty)
    ensures Shows(Recycled(s, t, b, blockno), if s.bufs[b].valid then cache - {s.bufs[b].blockno} else cache, dirty)
    ensures s.bufs[b].valid ==> s.bufs[b].blockno !in dirty
  {
    var s' := Recycled(s, t, b, blockno);
    var k0 := s.bufs[b].blockno;
    forall c: nat | DirtyAt(s, c, k0)
      ensures !s.bufs[b].valid
    {
      assert BufAt(s, c);
      if s.bufs[b].valid {
        OneValid(s, b, c, k0);
      }
    }
    assert forall c: nat, k: nat :: DirtyAt(s', c, k) == DirtyAt(s, c, k);
    assert forall c: nat, k: nat :: ValidAt(s', c, k) == (ValidAt(s, c, k) && c != b);
    forall c: nat | ValidAt(s, c, k0) && s.bufs[b].valid
      ensures c == b
    {
      OneValid(s, b, c, k0);
    }
  }

  /** No other buffer has anything to do with the block of a buffer in use. */
  lemma OnlyHere(s: St, b: nat, c: nat, k: nat)
    requires Inv(s) && b < |s.bufs| && s.bufs[b].dev == ROOTDEV && s.bufs[b].blockno == k
    requires ValidAt(s, c, k) || DirtyAt(s, c, k)
    ensures c == b
  {
    assert BufAt(s, c);
  }

  /** The holder of one buffer changes it, and with it perhaps the disk. */
  lemma ChangedView(s: St, b: nat, x: Buf, disk: seq<Block>, cache: map<nat, Block>, dirty: set<nat>)
    requires b < |s.bufs| && Inv(s) && Inv(Changed(s, b, x, disk)) && Shows(s, cache, dirty)
    requires s.bufs[b].dev == ROOTDEV && x == s.bufs[b].(valid := x.valid, dirty := x.dirty, data := x.data)
    requires s.bufs[b].valid ==> x.valid
    ensures Shows(Changed(s, b, x, disk), if x.valid then cache[x.blockno := x.data] else cache,
                  if x.dirty then dirty + {x.blockno} else dirty - {x.blockno})
    ensures s.bufs[b].valid <==> x.blockno in cache
    ensures s.bufs[b].dirty <==> x.blockno in dirty
    ensures s.bufs[b].valid ==> cache[x.blockno] == s.bufs[b].data
  {
    hide Inv;
    var k0, s' := x.blockno, Changed(s, b, x, disk);
    forall c: nat | ValidAt(s, c, k0) || DirtyAt(s, c, k0)
      ensures c == b
    {
      OnlyHere(s, b, c, k0);
    }
    assert s.bufs[b].valid ==> ValidAt(s, b, k0);
    assert s.bufs[b].dirty ==> DirtyAt(s, b, k0);
    forall c: nat, k: nat
      ensures ValidAt(s', c, k) == if c == b then x.valid && k == k0 else ValidAt(s, c, k)
      ensures DirtyAt(s', c, k) == if c == b then x.dirty && k == k0 else DirtyAt(s, c, k)
    {
    }
    assert x.valid ==> ValidAt(s', b, k0);
    assert x.dirty ==> DirtyAt(s', b, k0);
  }

  /** Every step of the buffer cache is one of the log's moves on the view. */
  lemma StepRefines(s: St, s': St, e: Event, cache: map<nat, Block>, dirty: set<nat>)
    returns (k: nat, cache': map<nat, Block>, dirty': set<nat>)
    requires Inv(s) && Inv(s') && Stepped(s, s', e) && Shows(s, cache, dirty)
    requires e.t in s.refs ==> RefAt(s, e.t)
    ensures Shows(s', cache', dirty') && Moves(e, k, s.disk, cache, dirty, s'.disk, cache', dirty')
  {
    hide Inv, Shows, RefsTo;
    k, cache', dirty' := 0, cache, dirty;
    if e.Get? {
      var b: nat :| b < |s.bufs| && Got(s, s', e.t, e.blockno, b);
      if Holds(s, b, e.blockno) {
        SameView(s, s', cache, dirty);
      } else {
        RecycledView(s, e.t, b, e.blockno, cache, dirty);
        if s.bufs[b].valid {
          k, cache' := s.bufs[b].blockno, cache - {s.bufs[b].blockno};
        }
      }
    } else if e.Fill? || e.Store? || e.Mark? || e.Write? {
      var b := s.refs[e.t].b;
      k := s.bufs[b].blockno;
      ChangedView(s, b, s'.bufs[b], s'.disk, cache, dirty);
      cache' := if s'.bufs[b].valid then cache[k := s'.bufs[b].data] else cache;
      dirty' := if s'.bufs[b].dirty then dirty + {k} else dirty - {k};
    } else {
      SameView(s, s', cache, dirty);
    }
  }

  datatype View = View(cache: map<nat, Block>, dirty: set<nat>)

  ghost predicate ShowsAt(s: St, v: View) {
    Shows(s, v.cache, v.dirty)
  }

  ghost predicate MovesAt(e: Event, s: St, v: View, s': St, v': View) {
    exists k :: Moves(e, k, s.disk, v.cache, v.dirty, s'.disk, v'.cache, v'.dirty)
  }

  /** A run of the buffer cache, whatever the interleaving, is a run of the log's cache: each of its states has a
      view, and each step leaves the view or is a move from one to the next. */
  lemma {:induction false} RunRefines(trace: seq<St>, events: seq<Event>) returns (views: seq<View>)
    requires Trace(trace, events)
    ensures |views| == |trace| && forall k :: 0 <= k < |trace| ==> ShowsAt(trace[k], views[k])
    ensures forall k :: 0 <= k < |events| ==>
              || (trace[k + 1] == trace[k] && views[k + 1] == views[k])
              || MovesAt(events[k], trace[k], views[k], trace[k + 1], views[k + 1])
    decreases |events|
  {
    hide Inv, Shows, Stepped, Moves;
    if events == [] {
      var cache, dirty := ViewExists(trace[0]);
      views := [View(cache, dirty)];
    } else {
      var n := |events| - 1;
      assert Trace(trace[..n + 1], events[..n]);
      views := RunRefines(trace[..n + 1], events[..n]);
      var v := views[n];
      assert ShowsAt(trace[..n + 1][n], v);
      if trace[n + 1] == trace[n] {
        views := views + [v];
      } else {
        RefsAt(trace[n], events[n].t);
        var k, cache, dirty := StepRefines(trace[n], trace[n + 1], events[n], v.cache, v.dirty);
        views := views + [View(cache, dirty)];
      }
    }
  }

  lemma RefsAt(s: St, t: nat)
    requires Inv(s)
    ensures t in s.refs ==> RefAt(s, t)
  {
  }
}
