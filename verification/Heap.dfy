/** umalloc.c: malloc, free and morecore on the circular free list. */
module Heap {
  import opened Basics
  import opened FreeList

  // ---- the heap as a value ----

  /** `live` maps the header address of each block in use to its size in units. `granted` is every byte sbrk has
      given, `units` their number divided by the header size. */
  datatype Hp = Hp(hdr: Headers, list: seq<nat>, live: map<nat, nat>, granted: set<nat>, units: nat)

  ghost function LiveUnits(live: map<nat, nat>): nat {
    if live == map[] then 0
    else
      var a :| a in live;
      live[a] + LiveUnits(live - {a})
  }

  predicate LiveAt(base: nat, s: Hp, a: nat)
    requires a in s.live
  {
    && s.live[a] > 0 && a in s.hdr && Sz(s.hdr, a) == s.live[a]
    && Within(s.granted, a, s.live[a]) && Clear(s.hdr, s.list, a, s.live[a])
  }

  predicate LiveOk(base: nat, s: Hp) {
    && (forall a :: a in s.live ==> LiveAt(base, s, a))
    && (forall a, c :: a in s.live && c in s.live && a != c ==> Apart(a, s.live[a], c, s.live[c]))
  }

  /** Every granted unit is in a free block, in a live one, or among the `spare` units of a block in transit. */
  ghost predicate HeapOk(base: nat, s: Hp, spare: nat) {
    && FreeOk(base, s.hdr, s.list) && AllWithin(s.granted, s.hdr, s.list) && LiveOk(base, s)
    && Units(s.hdr, s.list) + LiveUnits(s.live) + spare == s.units
    && forall x :: x in s.granted ==> base + HDR <= x
  }

  /** A block on its way to the free list: its bytes are granted and nobody else's. */
  predicate Transit(base: nat, s: Hp, b: nat, n: nat) {
    && b in s.hdr && Sz(s.hdr, b) == n > 0 && base + HDR <= b
    && Within(s.granted, b, n) && Clear(s.hdr, s.list, b, n)
    && forall a :: a in s.live ==> Apart(a, s.live[a], b, n)
  }

  lemma {:induction false} LiveRemove(live: map<nat, nat>, a: nat)
    requires a in live
    ensures LiveUnits(live) == live[a] + LiveUnits(live - {a})
    decreases |live|
  {
    var c :| c in live && LiveUnits(live) == live[c] + LiveUnits(live - {c});
    if c != a {
      LiveRemove(live - {c}, a);
      LiveRemove(live - {a}, c);
      assert live - {c} - {a} == live - {a} - {c};
    }
  }

  lemma LiveAdd(live: map<nat, nat>, a: nat, n: nat)
    requires a !in live
    ensures LiveUnits(live[a := n]) == LiveUnits(live) + n
  {
    LiveRemove(live[a := n], a);
    assert live[a := n] - {a} == live;
  }

  /** A block's own bytes say it lies above base. */
  lemma WithinLow(base: nat, granted: set<nat>, a: nat, n: nat)
    requires Within(granted, a, n) && n > 0 && forall x :: x in granted ==> base + HDR <= x
    ensures base + HDR <= a
  {
    assert a in granted;
  }

  lemma ApartHeaders(a: nat, n: nat, c: nat, m: nat)
    requires Apart(a, n, c, m) && n > 0 && m > 0
    ensures a != c
  {
  }

  /** A block apart from the free blocks is no member of the list. */
  lemma NotListed(base: nat, s: Hp, a: nat, n: nat)
    requires FreeOk(base, s.hdr, s.list) && Clear(s.hdr, s.list, a, n) && n > 0 && base + HDR <= a
    ensures a !in s.list
  {
  }

  ghost function Inserted(s: Hp, j: nat, b: nat): Hp
    requires j < |s.list|
  {
    var (h, l) := Insertion(s.hdr, s.list, j, b);
    s.(hdr := h, list := l)
  }

  /** free() keeps the heap, whatever the block and wherever its place. */
  lemma InsertKeeps(base: nat, s: Hp, j: nat, b: nat, n: nat)
    requires HeapOk(base, s, n) && Transit(base, s, b, n) && Place(s.list, j, b)
    ensures Insertable(base, s.hdr, s.list, j, b) && HeapOk(base, Inserted(s, j, b), 0)
  {
    hide FreeOk, Units, Insertion, Within, Clear, AllWithin, Sz;
    var (h, l) := Insertion(s.hdr, s.list, j, b);
    InsertionOk(base, s.hdr, s.list, j, b);
    forall a | a in s.live
      ensures LiveAt(base, Inserted(s, j, b), a)
    {
      assert LiveAt(base, s, a);
      WithinLow(base, s.granted, a, s.live[a]);
      NotListed(base, s, a, s.live[a]);
      ApartHeaders(a, s.live[a], b, n);
      InsertedIn(base, s.hdr, s.list, j, b, a);
    }
  }

  lemma InsertedIn(base: nat, hdr: Headers, list: seq<nat>, j: nat, b: nat, a: nat)
    requires j < |list| && a in hdr
    ensures a in Insertion(hdr, list, j, b).0
  {
  }

  ghost function Allocated(s: Hp, i: nat, n: nat): Hp
    requires 1 <= i < |s.list| && n <= Sz(s.hdr, s.list[i])
  {
    var (h, l, q) := Carved(s.hdr, s.list, i, n);
    s.(hdr := h, list := l, live := s.live[q := n])
  }

  lemma AllocateKeeps(base: nat, s: Hp, i: nat, n: nat)
    requires HeapOk(base, s, 0) && 1 <= i < |s.list| && 0 < n <= Sz(s.hdr, s.list[i])
    ensures Carved(s.hdr, s.list, i, n).2 !in s.live
    ensures HeapOk(base, Allocated(s, i, n), 0)
  {
    hide FreeOkBut, Units, Carved, Within, Clear, AllWithin, Sz, LiveUnits;
    var (h, l, q) := Carved(s.hdr, s.list, i, n);
    if Sz(s.hdr, s.list[i]) == n {
      UnlinkOk(base, s.hdr, s.list, i, n);
      UnlinkTook(base, s.hdr, s.list, i, n);
    } else {
      CutOk(base, s.hdr, s.list, i, n);
      CutTook(base, s.hdr, s.list, i, n);
    }
    var s' := Allocated(s, i, n);
    forall a | a in s.live
      ensures Apart(a, s.live[a], q, n) && a != q && LiveAt(base, s', a)
    {
      assert LiveAt(base, s, a);
      CarvedElse(base, s, i, n, a);
      ApartHeaders(a, s.live[a], q, n);
    }
    LiveAdd(s.live, q, n);
    ApartSym(s.live, q, n);
  }

  lemma ApartSym(live: map<nat, nat>, q: nat, n: nat)
    requires forall a :: a in live ==> Apart(a, live[a], q, n)
    ensures forall a :: a in live ==> Apart(q, n, a, live[a])
  {
  }

  lemma CarvedElse(base: nat, s: Hp, i: nat, n: nat, a: nat)
    requires FreeOk(base, s.hdr, s.list) && 1 <= i < |s.list| && 0 < n <= Sz(s.hdr, s.list[i])
    requires a in s.live && LiveAt(base, s, a) && (forall x :: x in s.granted ==> base + HDR <= x)
    ensures var (h, l, q) := Carved(s.hdr, s.list, i, n);
            a in h && (a != q ==> Sz(h, a) == Sz(s.hdr, a))
  {
    hide Ordered, Coalesced;
    WithinLow(base, s.granted, a, s.live[a]);
    NotListed(base, s, a, s.live[a]);
  }

  // ---- request sizes ----

  /** (nbytes + sizeof(Header) - 1) / sizeof(Header) + 1 in 32-bit arithmetic. */
  function Nunits(nbytes: nat): nat {
    (nbytes + 7) % UINT / 8 + 1
  }

  lemma NunitsPositive(nbytes: nat)
    ensures Nunits(nbytes) > 0
  {
  }

  function AtLeast4096(nu: nat): nat {
    if nu < 4096 then 4096 else nu
  }

  /** The largest request that is served with room enough and asks sbrk for a positive int. */
  lemma RequestFits(nbytes: nat)
    requires nbytes < UINT
    ensures (Nunits(nbytes) - 1) * HDR >= nbytes && AtLeast4096(Nunits(nbytes)) * HDR < KERNBASE <==>
              nbytes <= KERNBASE - 16
  {
    if nbytes + 7 < UINT {
      assert (nbytes + 7) % UINT == nbytes + 7;
    } else {
      assert (nbytes + 7) % UINT == nbytes + 7 - UINT;
    }
  }

  // ---- walking the circle ----

  lemma PlaceExists(base: nat, hdr: Headers, list: seq<nat>, b: nat, n: nat) returns (t: nat)
    requires FreeOk(base, hdr, list) && Clear(hdr, list, b, n) && n > 0 && base + HDR <= b
    ensures t < |list| && Place(list, t, b)
  {
    hide Coalesced, Ordered;
    t := 0;
    while t + 1 < |list| && list[t + 1] < b
      invariant t < |list| && list[t] < b
    {
      t := t + 1;
    }
    if t + 1 < |list| {
      assert Apart(b, n, list[t + 1], Sz(hdr, list[t + 1]));
    }
  }

  /** The search stops at position `i` exactly when it is the place. */
  lemma StopsAtPlace(base: nat, hdr: Headers, list: seq<nat>, b: nat, t: nat, i: nat)
    requires FreeOk(base, hdr, list) && Place(list, t, b) && base + HDR <= b && i < |list|
    ensures var p := list[i];
            var next := Nx(hdr, p);
            (p < b < next || (p >= next && (b > p || b < next))) <==> i == t
    ensures Nx(hdr, list[i]) == list[Next(i, |list|)]
  {
    hide Coalesced;
    if i < t {
      Ascending(base, hdr, list, -1, -1, i, t);
      if i + 1 < t {
        Ascending(base, hdr, list, -1, -1, i + 1, t);
      }
      Ascending(base, hdr, list, -1, -1, i, i + 1);
    } else if t < i {
      Ascending(base, hdr, list, -1, -1, t, i);
      if t + 1 < i {
        Ascending(base, hdr, list, -1, -1, t + 1, i);
      }
      if i + 1 < |list| {
        Ascending(base, hdr, list, -1, -1, i, i + 1);
      }
    }
  }

  /** Steps from position `i` to position `t` around a circle of `n`. */
  function Ahead(i: nat, t: nat, n: nat): nat
    requires i < n && t < n
  {
    if i <= t then t - i else n - i + t
  }

  lemma AheadNext(i: nat, t: nat, n: nat)
    requires i < n && t < n
    ensures i != t ==> Ahead(Next(i, n), t, n) < Ahead(i, t, n)
  {
  }

  lemma Member(base: nat, hdr: Headers, list: seq<nat>, p: nat)
    requires FreeOk(base, hdr, list) && p in list
    ensures p >= base > 0
  {
  }

  /** Position `x` lies on the way from just after `k` to just before `i`. */
  predicate Passed(k: nat, i: nat, x: nat) {
    if k < i then k < x < i else x > k || x < i
  }

  // ---- the allocator ----

  /** The answer of sbrk: refused, or the old end of the heap. */
  datatype Grant = Refused | At(addr: nat)

  class UserHeap {
    const base: nat

    var hdr: Headers
    var freep: nat // 0 before the first malloc

    ghost var list: seq<nat>
    ghost var live: map<nat, nat>
    ghost var granted: set<nat>
    ghost var units: nat

    ghost function State(): Hp
      reads this
    {
      Hp(hdr, list, live, granted, units)
    }

    ghost predicate Valid()
      reads this
    {
      && base > 0
      && (freep == 0 ==> live == map[] && granted == {} && units == 0)
      && (freep != 0 ==> HeapOk(base, State(), 0) && freep in list)
    }

    constructor (where: nat)
      requires where > 0
      ensures Valid() && base == where && freep == 0
    {
      base := where;
      hdr := map[];
      freep := 0;
      list := [];
      live := map[];
      granted := {};
      units := 0;
    }

    /** free's search and merge. The search starts at freep and goes round at most once; `j` is where it ends. */
    method Insert(bp: nat, ghost n: nat) returns (ghost j: nat)
      requires freep in list && HeapOk(base, State(), n) && Transit(base, State(), bp, n)
      modifies `hdr, `freep, `list
      ensures Place(old(list), j, bp) && State() == Inserted(old(State()), j, bp) && freep == old(list)[j]
      ensures HeapOk(base, State(), 0) && freep in list && freep != 0
    {
      hide Clear, Within, AllWithin, Units, FreeOk, FreeOkBut, Insertion, LiveOk, SameSpace, Sz, Nx, Place, Ahead;
      ghost var s := State();
      ghost var t := PlaceExists(base, hdr, list, bp, n);
      ghost var i :| 0 <= i < |list| && list[i] == freep;
      var p := freep;
      StopsAtPlace(base, hdr, list, bp, t, i);
      while !(bp > p && bp < Nx(hdr, p))
        invariant hdr == s.hdr && list == s.list && freep == old(freep)
        invariant 0 <= i < |list| && p == list[i]
        decreases Ahead(i, t, |list|)
      {
        StopsAtPlace(base, hdr, list, bp, t, i);
        if p >= Nx(hdr, p) && (bp > p || bp < Nx(hdr, p)) {
          break;
        }
        p := Nx(hdr, p);
        AheadNext(i, t, |list|);
        i := Next(i, |list|);
      }
      StopsAtPlace(base, hdr, list, bp, t, i);
      j := t;
      InsertKeeps(base, s, j, bp, n);
      InsertionHeaders(base, hdr, list, j, bp);
      InsertionOk(base, hdr, list, j, bp);
      var next := Nx(hdr, p);
      if bp + HDR * Sz(hdr, bp) == next {
        hdr := hdr[bp := Header(Nx(hdr, next), Sz(hdr, bp) + Sz(hdr, next))];
      } else {
        hdr := hdr[bp := Header(next, Sz(hdr, bp))];
      }
      if p + HDR * Sz(hdr, p) == bp {
        hdr := hdr[p := Header(Nx(hdr, bp), Sz(hdr, p) + Sz(hdr, bp))];
      } else {
        hdr := hdr[p := Header(bp, Sz(hdr, p))];
      }
      list := Insertion(s.hdr, s.list, j, bp).1;
      freep := p;
      Member(base, hdr, list, freep);
    }

    /** free(ap) for a block in use: it leaves the live blocks, its units join the free ones, and the next search starts
        at the block before it, which was number `j` of the list. */
    method Free(ap: nat) returns (ghost j: nat)
      requires Valid() && ap >= HDR && ap - HDR in live
      modifies `hdr, `freep, `list, `live
      ensures Valid() && live == old(live) - {ap - HDR} && units == old(units) && granted == old(granted)
      ensures j < |old(list)| && Place(old(list), j, ap - HDR) && freep == old(list)[j]
      ensures State() == Inserted(old(State()).(live := live), j, ap - HDR)
      ensures Units(hdr, list) == Units(old(hdr), old(list)) + old(live)[ap - HDR]
    {
      hide HeapOk, Clear, Within, AllWithin, Units, FreeOk, LiveOk, SameSpace, Insertion;
      var bp := ap - HDR;
      ghost var n := live[bp];
      Release(base, State(), bp);
      live := live - {bp};
      ghost var s := State();
      j := Insert(bp, n);
      InsertUnits(base, s, bp, n, j);
    }

    /** Ask sbrk for at least 4096 units and free them; null if it refuses. */
    method Morecore(nu: nat, grant: Grant) returns (p: nat)
      requires base > 0 && freep in list && HeapOk(base, State(), 0) && nu > 0
      requires GrantOk(base, granted, grant, AtLeast4096(nu))
      modifies `hdr, `freep, `list, `granted, `units
      ensures grant == Refused ==> p == 0 && State() == old(State()) && freep == old(freep)
      ensures grant != Refused ==>
                && p == freep != 0 && freep in list && HeapOk(base, State(), 0)
                && granted == old(granted) + Bytes(grant.addr, AtLeast4096(nu))
                && units == old(units) + AtLeast4096(nu)
                && Fits(hdr, list, nu)
                && Grown(old(State()), State(), freep, grant.addr, AtLeast4096(nu))
    {
      hide Grown, HeapOk, Clear, Within, AllWithin, Units, FreeOk, LiveOk, SameSpace, Insertion, Transit, Place, Sz, Nx,
           Bytes;
      if grant == Refused {
        return 0;
      }
      var nu' := AtLeast4096(nu);
      var hp := grant.addr;
      NewBlock(base, State(), hp, nu');
      hdr := hdr[hp := Header(Nx(hdr, hp), nu')];
      granted := granted + Bytes(hp, nu');
      units := units + nu';
      ghost var s := State();
      ghost var j := Insert(hp, nu');
      InsertFits(base, s, hp, nu', j, nu);
      IsGrown(old(State()), State(), freep, hp, nu', j);
      p := freep;
    }

    /** malloc's choice is block `p`: all of it, or its last `nunits` units. */
    method Take(p: nat, prevp: nat, nunits: nat, ghost i: nat) returns (r: nat)
      requires base > 0 && HeapOk(base, State(), 0)
      requires 1 <= i < |list| && p == list[i] && prevp == list[i - 1] && 0 < nunits <= Sz(hdr, p)
      modifies `hdr, `freep, `list, `live
      ensures State() == Allocated(old(State()), i, nunits) && freep == prevp && Valid()
      ensures r >= HDR && r - HDR !in old(live) && live == old(live)[r - HDR := nunits]
      ensures r == p + HDR * (Sz(old(hdr), p) - nunits) + HDR
    {
      hide HeapOk, Sz, Nx, Allocated, FreeOk;
      ghost var s := State();
      AllocateKeeps(base, s, i, nunits);
      AllocatedIs(base, s, i, nunits);
      var q := p;
      if Sz(hdr, p) == nunits {
        hdr := hdr[prevp := Header(Nx(hdr, p), Sz(hdr, prevp))];
      } else {
        hdr := hdr[p := Header(Nx(hdr, p), Sz(hdr, p) - nunits)];
        q := p + HDR * Sz(hdr, p);
        hdr := hdr[q := Header(Nx(hdr, q), nunits)];
      }
      freep := prevp;
      list := Allocated(s, i, nunits).list;
      live := live[q := nunits];
      r := q + HDR;
    }

    /** Next fit from freep, with one call of morecore at most: `asked` tells whether it was made. The block comes from
        position `i` of the list, the first after `from` that is large enough; list and starting point are those
        before the call, or those morecore has left. The request is any that asks sbrk for a positive int; the seven
        largest of all are among them, because their rounding wraps around. */
    method Malloc(nbytes: nat, grant: Grant)
      returns (r: nat, ghost asked: bool, ghost i: nat, ghost mid: Hp, ghost from: nat)
      requires Valid() && nbytes < UINT && AtLeast4096(Nunits(nbytes)) * HDR < KERNBASE
      requires GrantOk(base, granted, grant, AtLeast4096(Nunits(nbytes)))
      modifies this
      ensures Valid()
      ensures r != 0 ==> r >= HDR && r - HDR !in old(live) && live == old(live)[r - HDR := Nunits(nbytes)]
      ensures r == 0 <==> asked && grant == Refused
      ensures r == 0 ==> live == old(live)
      ensures asked <==> old(freep) == 0 || !Fits(old(hdr), old(list), Nunits(nbytes))
      ensures r != 0 ==>
                && 1 <= i < |mid.list| && Nunits(nbytes) <= Sz(mid.hdr, mid.list[i])
                && State() == Allocated(mid, i, Nunits(nbytes)) && freep == mid.list[i - 1]
                && FirstFrom(mid.hdr, mid.list, from, i, Nunits(nbytes))
                && r == mid.list[i] + HDR * (Sz(mid.hdr, mid.list[i]) - Nunits(nbytes)) + HDR
      ensures !asked ==> mid == old(State()) && from == old(freep)
      ensures asked && r != 0 ==>
                Grown(Begun(base, old(State()), old(freep)), mid, from, grant.addr, AtLeast4096(Nunits(nbytes)))
      ensures asked && r != 0 ==>
                && granted == old(granted) + Bytes(grant.addr, AtLeast4096(Nunits(nbytes)))
                && units == old(units) + AtLeast4096(Nunits(nbytes))
      ensures r == 0 ==> granted == old(granted) && units == old(units)
      ensures r == 0 && old(freep) != 0 ==> hdr == old(hdr) && list == old(list)
    {
      hide HeapOk, FreeOk, Sz, Nx, Bytes, Fits, Nunits, Ahead, Allocated, Next, AtLeast4096, FirstFrom, GrantOk,
           SmallSoFar, BigAhead, Grown;
      var nunits := Nunits(nbytes);
      NunitsPositive(nbytes);
      var prevp := freep;
      if prevp == 0 {
        FirstHeap(base, State(), nunits);
        hdr := hdr[base := Header(base, 0)];
        freep, prevp := base, base;
        list := [base];
      }
      ghost var s1, freep1 := State(), freep;
      mid, from := s1, freep;
      assert HeapOk(base, s1, 0) && freep in list;
      ghost var k: nat :| k < |list| && list[k] == freep;
      asked, i := false, Next(k, |list|);
      NextIs(base, s1, k);
      SmallStart(hdr, list, k, nunits);
      var p := Nx(hdr, prevp);
      while true
        invariant HeapOk(base, State(), 0) && live == old(live)
        invariant i < |list| && k < |list| && list[i] == p && list[k] == freep && prevp == list[Prev(i, |list|)]
        invariant SmallSoFar(hdr, list, k, i, nunits)
        invariant State() == mid && freep == from && (!asked ==> mid == s1 && from == freep1)
        invariant asked ==> BigAhead(hdr, list, k, i, nunits) && grant != Refused && !Fits(s1.hdr, s1.list, nunits)
        invariant asked ==> granted == old(granted) + Bytes(grant.addr, AtLeast4096(nunits))
        invariant asked ==> units == old(units) + AtLeast4096(nunits)
        invariant asked ==> Grown(s1, mid, from, grant.addr, AtLeast4096(nunits))
        decreases if asked then 0 else 1, Ahead(i, k, |list|)
      {
        if Sz(hdr, p) >= nunits {
          BigEnough(base, State(), i, nunits);
          IsFirst(hdr, list, freep, k, i, nunits);
          r := Take(p, prevp, nunits, i);
          return;
        }
        if p == freep {
          SamePosition(base, State(), i, k);
          AllSmall(hdr, list, k, nunits);
          asked := true;
          p := Morecore(nunits, grant);
          if p == 0 {
            return 0, asked, i, mid, from;
          }
          mid, from := State(), freep;
          k :| k < |list| && list[k] == freep;
          i := k;
          SmallStart(hdr, list, k, nunits);
          BigStart(hdr, list, k, nunits);
        } else {
          SmallNext(hdr, list, k, i, nunits);
        }
        NextIs(base, State(), i);
        AheadNext(i, k, |list|);
        prevp := p;
        p := Nx(hdr, p);
        i := Next(i, |list|);
      }
    }
  }

  /** A request for 2^32 - 1 bytes on a fresh heap that sbrk serves: the result is a block of one unit, which has
      room for its header and for none of the bytes asked for. */
  method LargestRequest() returns (h: UserHeap, r: nat)
    ensures fresh(h) && h.Valid() && r >= HDR && h.live == map[r - HDR := 1]
    ensures (h.live[r - HDR] - 1) * HDR == 0 < 0xFFFF_FFFF
  {
    h := new UserHeap(4096);
    WrapsToOne();
    ghost var asked, i, mid, from;
    r, asked, i, mid, from := h.Malloc(0xFFFF_FFFF, At(8192));
  }

  lemma WrapsToOne()
    ensures Nunits(0xFFFF_FFFF) == 1 && AtLeast4096(1) == 4096
  {
  }

  lemma Release(base: nat, s: Hp, b: nat)
    requires HeapOk(base, s, 0) && b in s.live
    ensures var s' := s.(live := s.live - {b}); HeapOk(base, s', s.live[b]) && Transit(base, s', b, s.live[b])
  {
    hide FreeOk, Units, Clear, Within, AllWithin;
    LiveRemove(s.live, b);
    assert LiveAt(base, s, b);
    WithinLow(base, s.granted, b, s.live[b]);
    forall a | a in s.live - {b}
      ensures LiveAt(base, s.(live := s.live - {b}), a)
    {
      assert LiveAt(base, s, a);
    }
  }

  lemma InsertUnits(base: nat, s: Hp, b: nat, n: nat, j: nat)
    requires HeapOk(base, s, n) && Transit(base, s, b, n) && Place(s.list, j, b)
    ensures var s' := Inserted(s, j, b); Units(s'.hdr, s'.list) == Units(s.hdr, s.list) + n
  {
    hide Units, Clear, Within, AllWithin, Insertion;
    InsertionOk(base, s.hdr, s.list, j, b);
  }

  // ---- malloc ----

  /** The heap as malloc first sees it: before any other call its list has the base alone. */
  function Begun(base: nat, s: Hp, freep: nat): Hp {
    if freep == 0 then s.(hdr := s.hdr[base := Header(base, 0)], list := [base]) else s
  }

  /** sbrk has given `n` units at `hp`, and they were freed as one block: it is in its place by address, joined with the
      neighbours it touches, and the next search starts at the block before it. */
  ghost predicate Grown(s: Hp, s': Hp, freep: nat, hp: nat, n: nat) {
    var given := s.(hdr := s.hdr[hp := Header(Nx(s.hdr, hp), n)], granted := s.granted + Bytes(hp, n),
                    units := s.units + n);
    exists j: nat :: Place(s.list, j, hp) && freep == s.list[j] && s' == Inserted(given, j, hp)
  }

  lemma IsGrown(s: Hp, s': Hp, freep: nat, hp: nat, n: nat, j: nat)
    requires Place(s.list, j, hp) && freep == s.list[j]
    requires s' == Inserted(s.(hdr := s.hdr[hp := Header(Nx(s.hdr, hp), n)], granted := s.granted + Bytes(hp, n),
                               units := s.units + n), j, hp)
    ensures Grown(s, s', freep, hp, n)
  {
    hide Place, Inserted, Bytes;
  }

  function Bytes(a: nat, n: nat): set<nat> {
    set x: nat | a <= x < a + HDR * n && InBlock(a, n, x)
  }

  predicate InBlock(a: nat, n: nat, x: nat) {
    a <= x < a + HDR * n
  }

  /** sbrk gives memory above everything it gave before, and below the kernel. */
  predicate GrantOk(base: nat, granted: set<nat>, grant: Grant, n: nat) {
    grant != Refused ==>
      && base + HDR <= grant.addr && grant.addr + HDR * n <= KERNBASE
      && forall x :: x in granted ==> x < grant.addr
  }

  predicate Fits(hdr: Headers, list: seq<nat>, n: nat) {
    exists x :: 0 <= x < |list| && Sz(hdr, list[x]) >= n
  }

  /** Going round from just after `freep`, position `i` is the first block of at least `n` units. */
  predicate FirstFrom(hdr: Headers, list: seq<nat>, freep: nat, i: nat, n: nat)
    requires i < |list|
  {
    && Sz(hdr, list[i]) >= n
    && exists k :: 0 <= k < |list| && list[k] == freep &&
         forall x :: 0 <= x < |list| && Passed(k, i, x) ==> Sz(hdr, list[x]) < n
  }

  function Next(i: nat, n: nat): (r: nat)
    requires i < n
    ensures r < n
  {
    if i + 1 < n then i + 1 else 0
  }

  function Prev(i: nat, n: nat): (r: nat)
    requires i < n
    ensures r < n
  {
    if i > 0 then i - 1 else n - 1
  }

  lemma NextIs(base: nat, s: Hp, i: nat)
    requires HeapOk(base, s, 0) && i < |s.list|
    ensures Nx(s.hdr, s.list[i]) == s.list[Next(i, |s.list|)] && Prev(Next(i, |s.list|), |s.list|) == i
    ensures s.list[i] > 0
  {
    hide AllWithin, LiveOk, Units, LiveUnits, Ordered, Coalesced;
  }

  /** The blocks passed since leaving position `k` were too small. */
  predicate SmallSoFar(hdr: Headers, list: seq<nat>, k: nat, i: nat, n: nat) {
    forall x: nat :: x < |list| && Passed(k, i, x) ==> Sz(hdr, list[x]) < n
  }

  /** Some block not passed yet is large enough. */
  predicate BigAhead(hdr: Headers, list: seq<nat>, k: nat, i: nat, n: nat) {
    exists x: nat :: x < |list| && !Passed(k, i, x) && Sz(hdr, list[x]) >= n
  }

  lemma SmallStart(hdr: Headers, list: seq<nat>, k: nat, n: nat)
    requires k < |list|
    ensures SmallSoFar(hdr, list, k, Next(k, |list|), n)
  {
  }

  lemma BigStart(hdr: Headers, list: seq<nat>, k: nat, n: nat)
    requires k < |list| && Fits(hdr, list, n)
    ensures BigAhead(hdr, list, k, Next(k, |list|), n)
  {
    var x :| 0 <= x < |list| && Sz(hdr, list[x]) >= n;
    assert !Passed(k, Next(k, |list|), x);
  }

  lemma SmallNext(hdr: Headers, list: seq<nat>, k: nat, i: nat, n: nat)
    requires k < |list| && i < |list| && i != k && Sz(hdr, list[i]) < n && SmallSoFar(hdr, list, k, i, n)
    ensures SmallSoFar(hdr, list, k, Next(i, |list|), n)
    ensures BigAhead(hdr, list, k, i, n) ==> BigAhead(hdr, list, k, Next(i, |list|), n)
  {
    hide Sz;
    forall x: nat | x < |list|
      ensures Passed(k, Next(i, |list|), x) <==> Passed(k, i, x) || x == i
    {
    }
  }

  lemma FirstHeap(base: nat, s: Hp, n: nat)
    requires base > 0 && s.live == map[] && s.granted == {} && s.units == 0 && n > 0
    ensures HeapOk(base, s.(hdr := s.hdr[base := Header(base, 0)], list := [base]), 0)
    ensures !Fits(s.hdr[base := Header(base, 0)], [base], n)
  {
    var h := s.hdr[base := Header(base, 0)];
    UnitsOne(h, base);
    assert Sz(h, base) == 0;
    assert LiveUnits(s.live) == 0;
  }

  lemma BigEnough(base: nat, s: Hp, i: nat, n: nat)
    requires HeapOk(base, s, 0) && i < |s.list| && Sz(s.hdr, s.list[i]) >= n > 0
    ensures i >= 1 && Fits(s.hdr, s.list, n)
  {
    hide AllWithin, LiveOk, Units, LiveUnits, Ordered, Coalesced;
  }

  lemma IsFirst(hdr: Headers, list: seq<nat>, freep: nat, k: nat, i: nat, n: nat)
    requires i < |list| && k < |list| && list[k] == freep && Sz(hdr, list[i]) >= n
    requires SmallSoFar(hdr, list, k, i, n)
    ensures FirstFrom(hdr, list, freep, i, n)
  {
    hide Sz, Passed;
  }

  lemma SamePosition(base: nat, s: Hp, i: nat, k: nat)
    requires HeapOk(base, s, 0) && i < |s.list| && k < |s.list| && s.list[i] == s.list[k]
    ensures i == k
  {
    hide AllWithin, LiveOk, Units, LiveUnits;
    if i < k {
      Ascending(base, s.hdr, s.list, -1, -1, i, k);
    } else if k < i {
      Ascending(base, s.hdr, s.list, -1, -1, k, i);
    }
  }

  /** A full circuit has passed every other position, so a second call of morecore cannot come about. */
  lemma AllSmall(hdr: Headers, list: seq<nat>, k: nat, n: nat)
    requires k < |list| && Sz(hdr, list[k]) < n && SmallSoFar(hdr, list, k, k, n)
    ensures !Fits(hdr, list, n) && !BigAhead(hdr, list, k, k, n)
  {
    hide Sz;
    assert forall x: nat :: x < |list| && x != k ==> Passed(k, k, x);
  }

  /** malloc's assignments give the headers of Allocated, and the block it names. */
  lemma AllocatedIs(base: nat, s: Hp, i: nat, n: nat)
    requires HeapOk(base, s, 0) && 1 <= i < |s.list| && 0 < n <= Sz(s.hdr, s.list[i])
    ensures var p, prevp := s.list[i], s.list[i - 1];
            var s' := Allocated(s, i, n);
            if Sz(s.hdr, p) == n then
              && s'.hdr == s.hdr[prevp := Header(Nx(s.hdr, p), Sz(s.hdr, prevp))]
              && s'.live == s.live[p := n] && p !in s.live
            else
              var h1 := s.hdr[p := Header(Nx(s.hdr, p), Sz(s.hdr, p) - n)];
              var q := p + HDR * Sz(h1, p);
              && Sz(h1, p) == Sz(s.hdr, p) - n
              && s'.hdr == h1[q := Header(Nx(h1, q), n)] && s'.live == s.live[q := n] && q !in s.live
    ensures Allocated(s, i, n).granted == s.granted && Allocated(s, i, n).units == s.units
    ensures s.list[i - 1] in Allocated(s, i, n).list && s.list[i - 1] > 0
  {
    hide Ordered, Coalesced, Linked, AllWithin, LiveOk, Units, LiveUnits;
    AllocateKeeps(base, s, i, n);
    NextIs(base, s, i - 1);
    var p := s.list[i];
    if Sz(s.hdr, p) != n {
      var h1 := s.hdr[p := Header(Nx(s.hdr, p), Sz(s.hdr, p) - n)];
      assert Sz(h1, p) == Sz(s.hdr, p) - n;
      NextNotSelf(s.hdr, p, n);
    } else {
      UnlinkHeaders(base, s.hdr, s.list, i, n);
      assert Unlinked(s.list, i)[i - 1] == s.list[i - 1];
    }
  }

  /** The header of the piece cut off lies past the one that shrinks. */
  lemma NextNotSelf(hdr: Headers, p: nat, n: nat)
    requires n < Sz(hdr, p)
    ensures var q := p + HDR * (Sz(hdr, p) - n);
            q != p && Nx(hdr[p := Header(Nx(hdr, p), Sz(hdr, p) - n)], q) == Nx(hdr, q)
  {
  }

  lemma BlockBelow(granted: set<nat>, a: nat, n: nat, hp: nat)
    requires Within(granted, a, n) && n > 0 && forall x :: x in granted ==> x < hp
    ensures a + HDR * n <= hp
  {
    assert a + HDR * n - 1 in granted;
  }

  /** A fresh grant is a block in transit. */
  lemma NewBlock(base: nat, s: Hp, hp: nat, n: nat)
    requires HeapOk(base, s, 0) && n > 0 && base + HDR <= hp && forall x :: x in s.granted ==> x < hp
    ensures var s' := s.(hdr := s.hdr[hp := Header(Nx(s.hdr, hp), n)], granted := s.granted + Bytes(hp, n),
                         units := s.units + n);
            HeapOk(base, s', n) && Transit(base, s', hp, n)
  {
    hide Units, LiveUnits, Ordered, Coalesced, Bytes;
    var s' := s.(hdr := s.hdr[hp := Header(Nx(s.hdr, hp), n)], granted := s.granted + Bytes(hp, n),
                 units := s.units + n);
    BytesAre(hp, n);
    forall i | 0 <= i < |s.list|
      ensures s.list[i] + HDR * Sz(s.hdr, s.list[i]) <= hp && s.list[i] != hp
    {
      if i > 0 {
        assert Within(s.granted, s.list[i], Sz(s.hdr, s.list[i]));
        BlockBelow(s.granted, s.list[i], Sz(s.hdr, s.list[i]), hp);
      }
    }
    forall a | a in s.live
      ensures a + HDR * s.live[a] <= hp && a != hp
    {
      assert LiveAt(base, s, a);
      BlockBelow(s.granted, a, s.live[a], hp);
    }
    UnitsSame(s.hdr, s'.hdr, s.list);
    NewHeader(base, s, s', hp);
  }

  lemma BytesAre(a: nat, n: nat)
    ensures forall x: nat :: x in Bytes(a, n) <==> a <= x < a + HDR * n
  {
  }

  /** A header written outside every block changes none of them. */
  lemma NewHeader(base: nat, s: Hp, s': Hp, hp: nat)
    requires FreeOk(base, s.hdr, s.list) && AllWithin(s.granted, s.hdr, s.list) && LiveOk(base, s)
    requires hp !in s.list && hp !in s.live && s'.list == s.list && s'.live == s.live && s.granted <= s'.granted
    requires forall a :: a != hp ==>
               (a in s.hdr ==> a in s'.hdr) && Sz(s'.hdr, a) == Sz(s.hdr, a) && Nx(s'.hdr, a) == Nx(s.hdr, a)
    ensures FreeOk(base, s'.hdr, s'.list) && AllWithin(s'.granted, s'.hdr, s'.list) && LiveOk(base, s')
  {
    hide Sz, Nx, Apart;
    forall a | a in s'.live
      ensures LiveAt(base, s', a)
    {
      assert LiveAt(base, s, a);
    }
    forall i | 1 <= i < |s'.list|
      ensures Within(s'.granted, s'.list[i], Sz(s'.hdr, s'.list[i]))
    {
      assert Within(s.granted, s.list[i], Sz(s.hdr, s.list[i]));
    }
  }

  lemma InsertFits(base: nat, s: Hp, b: nat, n: nat, j: nat, nu: nat)
    requires HeapOk(base, s, n) && Transit(base, s, b, n) && Place(s.list, j, b) && nu <= n
    ensures Fits(Inserted(s, j, b).hdr, Inserted(s, j, b).list, nu)
  {
    hide Units, Clear, Within, AllWithin, Insertion;
    InsertionOk(base, s.hdr, s.list, j, b);
  }

  // ---- what users store ----

  /** The eight bytes at `y` overlap the payload of a live block. */
  predicate InPayload(live: map<nat, nat>, y: nat) {
    exists a :: a in live && a < y < a + HDR * live[a]
  }

  /** Whatever is stored in the payloads of live blocks, the heap stays as it is. */
  lemma UserStores(base: nat, s: Hp, hdr: Headers)
    requires HeapOk(base, s, 0) && forall y :: y in s.hdr ==> y in hdr
    requires forall y :: Sz(hdr, y) != Sz(s.hdr, y) || Nx(hdr, y) != Nx(s.hdr, y) ==> InPayload(s.live, y)
    ensures HeapOk(base, s.(hdr := hdr), 0)
  {
    hide Sz, Nx, Units, LiveUnits, Within, Coalesced, Ordered;
    forall i | 0 <= i < |s.list|
      ensures !InPayload(s.live, s.list[i])
    {
      ListedOutside(base, s, i);
    }
    forall a | a in s.live
      ensures !InPayload(s.live, a)
    {
      LiveOutside(base, s, a);
    }
    UnitsSame(s.hdr, hdr, s.list);
    SameHeaders(base, s, hdr);
  }

  lemma ListedOutside(base: nat, s: Hp, i: nat)
    requires HeapOk(base, s, 0) && i < |s.list|
    ensures !InPayload(s.live, s.list[i])
  {
    hide Nx, Units, LiveUnits, Coalesced, Ordered;
    forall a | a in s.live
      ensures !(a < s.list[i] < a + HDR * s.live[a])
    {
      assert LiveAt(base, s, a);
      WithinLow(base, s.granted, a, s.live[a]);
      if i > 0 {
        assert Apart(a, s.live[a], s.list[i], Sz(s.hdr, s.list[i]));
      }
    }
  }

  lemma LiveOutside(base: nat, s: Hp, c: nat)
    requires HeapOk(base, s, 0) && c in s.live
    ensures !InPayload(s.live, c)
  {
    hide Nx, Units, LiveUnits, Coalesced, Ordered, Linked, Clear, Within;
    assert LiveAt(base, s, c);
    forall a | a in s.live
      ensures !(a < c < a + HDR * s.live[a])
    {
      assert LiveAt(base, s, a);
      if a != c {
        assert Apart(a, s.live[a], c, s.live[c]);
      }
    }
  }

  lemma SameHeaders(base: nat, s: Hp, hdr: Headers)
    requires FreeOk(base, s.hdr, s.list) && AllWithin(s.granted, s.hdr, s.list) && LiveOk(base, s)
    requires forall y :: y in s.hdr ==> y in hdr
    requires forall i :: 0 <= i < |s.list| ==>
               Sz(hdr, s.list[i]) == Sz(s.hdr, s.list[i]) && Nx(hdr, s.list[i]) == Nx(s.hdr, s.list[i])
    requires forall a :: a in s.live ==> Sz(hdr, a) == Sz(s.hdr, a)
    ensures FreeOk(base, hdr, s.list) && AllWithin(s.granted, hdr, s.list) && LiveOk(base, s.(hdr := hdr))
  {
    hide Sz, Nx, Apart, Within;
    forall a | a in s.live
      ensures LiveAt(base, s.(hdr := hdr), a)
    {
      assert LiveAt(base, s, a);
    }
    forall i | 1 <= i < |s.list|
      ensures Within(s.granted, s.list[i], Sz(hdr, s.list[i]))
    {
      assert Within(s.granted, s.list[i], Sz(s.hdr, s.list[i]));
    }
  }
}
