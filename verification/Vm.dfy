/** kalloc.c and vm.c: the page allocator and the operations on address spaces.

    A kernel pointer to a page is its number here, except where the source tests or stores the address itself.
    Where a method returns false for ok the kernel panics. */
module Vm {
  import opened Basics
  import opened Words
  import opened Paging

  const PTE_W := 2
  const PTE_U := 4

  /** The slot of a page table that walkpgdir's result points at. */
  datatype PtePtr = Null | At(t: Pn, y: Slot)

  class Vm {
    const end: nat    // first address after the kernel image
    const data: nat   // first address of the kernel's data section

    var page: Pages
    var freelist: nat

    ghost var role: Roles
    ghost var free: seq<Pn>

    ghost function State(): Mem
      reads this
    {
      Mem(page, role, free, freelist)
    }

    function First(): nat {
      if end < KERNBASE then 0 else (end - KERNBASE + 4095) / 4096
    }

    ghost predicate Valid()
      reads this
    {
      && KERNBASE < end
      && Wf(State(), First())
    }

    /** At boot no page is free: those below `end` are the kernel's, the rest not yet handed over. */
    constructor (kend: nat, kdata: nat, contents: Pages)
      requires KERNBASE < kend
      ensures Valid() && free == [] && end == kend && data == kdata && page == contents
      ensures forall p: Pn :: role[p] == if p < First() then Kernel else Held
    {
      end := kend;
      data := kdata;
      page := contents;
      freelist := 0;
      free := [];
      var first := (kend - KERNBASE + 4095) / 4096;
      role := seq(57344, i => if i < first then Kernel else Held);
    }

    // ---- kalloc.c ----

    /** Put the page at address `v` on the free list; panics unless `v` is a page boundary in [end, P2V(PHYSTOP)). */
    method Kfree(v: nat) returns (ok: bool)
      requires KERNBASE < end && FreeOk(State())
      requires v % PGSIZE == 0 && end <= v < KERNBASE + PHYSTOP ==> role[(v - KERNBASE) / PGSIZE] != Free
      modifies `page, `freelist, `role, `free
      ensures ok <==> v % PGSIZE == 0 && end <= v < KERNBASE + PHYSTOP
      ensures !ok ==> State() == old(State())
      ensures ok ==> State() == Freed(old(State()), (v - KERNBASE) / PGSIZE) && FreeOk(State())
      ensures ok ==> freelist == v && free == [(v - KERNBASE) / PGSIZE] + old(free)
      ensures ok ==> page[(v - KERNBASE) / PGSIZE][4..] == Filled(1)[4..]
    {
      hide FreeOk, SetEnt;
      if v % PGSIZE != 0 || v < end || v - KERNBASE >= PHYSTOP {
        return false; // panic("kfree")
      }
      ghost var s := State();
      var p: Pn := (v - KERNBASE) / PGSIZE;
      FreePush(s, p);
      page := page[p := Filled(1)];
      page := page[p := SetEnt(page[p], 0, freelist)];
      freelist := v;
      role := role[p := Free];
      free := [p] + free;
      assert page == s.page[p := SetEnt(Filled(1), 0, s.head)];
      JunkStays(Filled(1), s.head);
      ok := true;
    }

    /** Take the first page of the free list; 0 if there is none. */
    method Kalloc() returns (v: nat)
      requires FreeOk(State())
      modifies `freelist, `role, `free
      ensures v == 0 <==> old(free) == []
      ensures v == 0 ==> State() == old(State())
      ensures v != 0 ==> v == Kva(old(free)[0]) && State() == Taken(old(State())) && FreeOk(State())
    {
      hide Ent;
      ghost var s := State();
      v := freelist;
      if v != 0 {
        assert free != [];
        FreePop(s);
        KvaParts(free[0]);
        freelist := Ent(page[(v - KERNBASE) / PGSIZE], 0);
        role := role[free[0] := Held];
        free := free[1..];
      } else if free != [] {
        KvaParts(free[0]);
      }
    }

    /** Every page wholly inside [vstart, vend) goes on the free list. */
    method Freerange(vstart: nat, vend: nat)
      requires Valid() && end <= vstart && vend <= KERNBASE + PHYSTOP
      requires forall p: Pn :: Inside(vstart, vend, p) ==> role[p] == Held
      modifies `page, `freelist, `role, `free
      ensures Valid()
      ensures forall p: Pn :: role[p] == if Inside(vstart, vend, p) then Free else old(role)[p]
    {
      hide Wf, FreeOk;
      var p := (vstart + PGSIZE - 1) / PGSIZE * PGSIZE;
      while p + PGSIZE <= vend
        invariant Valid() && p % PGSIZE == 0 && vstart <= p
        invariant forall q: Pn :: role[q] == if Inside(vstart, vend, q) && Kva(q) < p then Free else old(role)[q]
        decreases vend - p
      {
        ghost var n: Pn := (p - KERNBASE) / PGSIZE;
        assert Kva(n) == p && Inside(vstart, vend, n);
        WfMap(State(), First());
        WfFreed(State(), First(), n);
        var ok := Kfree(p);
        assert ok;
        p := p + PGSIZE;
      }
    }

    /** kinit1 and kinit2 as main calls them: every page above the kernel becomes free. */
    method Kinit()
      requires Valid() && end <= KERNBASE + 0x400000
      requires forall p: Pn :: role[p] == if p < First() then Kernel else Held
      modifies `page, `freelist, `role, `free
      ensures Valid() && forall p: Pn :: role[p] == if p < First() then Kernel else Free
    {
      hide Wf;
      var mid, top := KERNBASE + 0x400000, KERNBASE + PHYSTOP;
      forall p: Pn
        ensures p >= First() <==> Inside(end, top, p)
        ensures Inside(end, top, p) <==> Inside(end, mid, p) || Inside(mid, top, p)
      {
      }
      Freerange(end, mid);
      Freerange(mid, top);
    }

    // ---- walking and mapping ----

    /** The entry for `va`, in a table made on demand if `alloc`; null if there is none. */
    method Walkpgdir(d: Pn, va: nat, alloc: bool) returns (r: PtePtr)
      requires Valid() && role[d] == Dir && va < UINT
      modifies `page, `freelist, `role, `free
      ensures Valid()
      ensures State() == if alloc then Walked(old(State()), d, X(va / 4096)) else old(State())
      ensures r == Null <==> !HasTable(State(), d, X(va / 4096))
      ensures r != Null ==> role[r.t] == Table(d, X(va / 4096)) && r.y == Y(va / 4096)
      ensures r != Null ==> Ent(page[r.t], r.y) == Pte(State(), d, va / 4096)
      ensures r != Null ==> SlotAt(page[d], va, r.t, r.y)
    {
      hide Wf, Pte, Ent, SetEnt, Taken, Present, Entry, Addr, X, Y, Kva, FreeOk, MapOk, Word;
      SlotsOf(va);
      ghost var s := State();
      var x: Slot := va / 4096 / 1024 % 1024;
      var y: Slot := va / 4096 % 1024;
      var pde := Ent(page[d], x);
      var pgtab: Pn;
      WfMap(s, First());
      if pde != 0 {
        TableAt(s, d, x);
      }
      NotZero(pde);
      if Present(pde) {
        pgtab := Addr(pde);
      } else {
        if !alloc {
          return Null;
        }
        var v := Kalloc();
        if v == 0 {
          return Null;
        }
        KvaParts(s.free[0]);
        pgtab := (v - KERNBASE) / PGSIZE;
        page := page[pgtab := Filled(0)];
        page := page[d := SetEnt(page[d], x, Entry(pgtab, 7))];
        role := role[pgtab := Table(d, x)];
        WalkedOk(s, First(), d, x, -1);
      }
      WfMap(State(), First());
      TableHere(State(), pgtab, y);
      VpOfParts(va / 4096);
      TableWord(State(), d, va, pgtab);
      r := At(pgtab, y);
    }

    /** Map [va, va + size) to [pa, pa + size), both widened to whole pages; false if a table page runs out,
        with the first `n` pages mapped. A page that is mapped already is a panic, so none may be. */
    method Mappages(d: Pn, va: nat, size: nat, pa: nat, perm: nat) returns (ok: bool, ghost n: nat)
      requires Valid() && role[d] == Dir && 0 < size && va + size <= UINT
      requires pa % PGSIZE == 0 && pa + (LastPage(va, size) - va / 4096 + 1) * 4096 <= UINT && perm < 4096
      requires forall vp: Vpn :: va / 4096 <= vp <= LastPage(va, size) ==> Pte(State(), d, vp) == 0
      requires va / 4096 < USERPAGES ==>
                 LastPage(va, size) == va / 4096 && pa / 4096 < NPAGES && role[pa / 4096] == Held
      requires va / 4096 >= USERPAGES ==> !UserBit(OrPresent(perm))
      modifies `page, `freelist, `role, `free
      ensures Valid() && role[d] == Dir
      ensures va / 4096 + n <= LastPage(va, size) + 1 && (ok <==> va / 4096 + n == LastPage(va, size) + 1)
      ensures ok <==> |old(free)| >= Fresh(old(State()), d, va / 4096, LastPage(va, size) + 1 - va / 4096)
      ensures |old(free)| == |free| + Fresh(old(State()), d, va / 4096, n)
      ensures TablesAre(old(State()), State(), d, va / 4096, n)
      ensures Mapped(old(State()), State(), d, va / 4096, n, pa / 4096, OrPresent(perm))
      ensures va / 4096 >= USERPAGES ==> Grew(old(State()), State(), d, -1)
      ensures va / 4096 < USERPAGES ==>
                && Grew(old(State()), State(), d, pa / 4096)
                && page[pa / 4096] == old(page)[pa / 4096]
                && role[pa / 4096] == if ok then User(d, va / 4096) else Held
    {
      hide Wf, Pte, Ent, SetEnt, Walked, Present, Entry, Addr, UserBit, Mapped, Grew, X, Y, HasTable, Fresh, TablesAre,
           SlotAt;
      var a := va / PGSIZE * PGSIZE;
      var last := (va + size - 1) / PGSIZE * PGSIZE;
      var pa' := pa;
      n := 0;
      ghost var lo, pn, f, first := va / 4096, pa / 4096, OrPresent(perm), First();
      ghost var q: Pn := if lo < USERPAGES then pn else d;
      MappedNone(State(), d, lo, pn, f, q);
      TablesNone(State(), d, lo);
      while true
        invariant Valid() && role[d] == Dir
        invariant a == (lo + n) * 4096 && pa' == (pn + n) * 4096 && lo + n <= LastPage(va, size)
        invariant Mapped(old(State()), State(), d, lo, n, pn, f) && Grew(old(State()), State(), d, q)
        invariant lo < USERPAGES ==> n == 0 && role[q] == Held && page[q] == old(page)[q]
        invariant TablesAre(old(State()), State(), d, lo, n) && |old(free)| == |free| + Fresh(old(State()), d, lo, n)
        decreases last - a
      {
        ghost var s := State();
        assert a / 4096 == lo + n && pa' / 4096 == pn + n;
        MappedPast(old(State()), s, d, lo, n, pn, f);
        FreshNext(old(State()), s, d, lo, n);
        FreshMono(old(State()), d, lo, n + 1, LastPage(va, size) + 1 - lo);
        var pte := Walkpgdir(d, a, true);
        ghost var w := State();
        WalkedOk(s, first, d, X(a / 4096), q);
        WalkedDir(s, d, X(a / 4096), first);
        WalkedTables(s, first, d, X(a / 4096));
        if pte == Null {
          ok := false;
          WalkedNone(s, d, X(a / 4096), first);
          FinishGrew(old(State()), State(), d, q);
          return;
        }
        NotZero(Ent(page[pte.t], pte.y));
        assert !Present(Ent(page[pte.t], pte.y)); // else panic("remap")
        OrPresentOk(perm);
        MapStep(w, first, d, lo + n, pte.t, pn + n, f, q);
        page := page[pte.t := SetEnt(page[pte.t], pte.y, Entry(pa' / 4096, OrPresent(perm)))];
        role := role[q := if lo < USERPAGES then User(d, lo) else Dir];
        MappedNext(old(State()), s, w, State(), first, d, lo, n, pn, f, q);
        SameDirPage(w, State(), d);
        TablesNext(old(State()), s, State(), d, lo, n);
        n := n + 1;
        if a == last {
          break;
        }
        a := a + PGSIZE;
        pa' := pa' + PGSIZE;
      }
      FinishGrew(old(State()), State(), d, q);
      ok := true;
    }

    // ---- giving pages back ----

    /** The page that entry `y` of table `t` maps goes back to the free list and the entry is cleared; in a space
        whose pages from `lo` to `j` are gone already. */
    method DropHere(d: Pn, t: Pn, y: Slot, ghost s0: Mem, ghost lo: nat, ghost j: nat)
      requires Valid() && role[d] == Dir && lo <= j < USERPAGES && Ent(page[t], y) == Pte(State(), d, j)
      requires role[t] == Table(d, X(j)) && y == Y(j) && Present(Ent(page[t], y))
      requires Dropped(s0, State(), d, lo, j) && State() == PageByPage(s0, d, lo, j)
      modifies `page, `freelist, `role, `free
      ensures Valid() && role[d] == Dir
      ensures Dropped(s0, State(), d, lo, j + 1) && State() == PageByPage(s0, d, lo, j + 1)
    {
      hide Wf, Pte, Ent, SetEnt, Present, Entry, Addr, Dropped, X, Y, FreeOk, HasTable, UserBit, Kva, PutPte,
           Freed, PageByPage, DropPage;
      ghost var s, first := State(), First();
      NotZero(Pte(s, d, j));
      WfMap(s, first);
      PteMeans(s, d, j);
      var pa := Addr(Ent(page[t], y));
      KernelLow(s, first, pa);
      assert pa != 0; // else panic("kfree")
      DropOne(s0, s, first, d, lo, j, t, pa);
      DropPageIs(s, first, d, j, t, pa);
      PageByPageNext(s0, d, lo, j);
      KvaParts(pa);
      var ok := Kfree(KERNBASE + pa * PGSIZE);
      assert ok;
      DropOrder(s, t, j, pa);
      page := page[t := SetEnt(page[t], y, 0)];
    }

    /** Unmap and free the user pages from `oldsz` down to `newsz`. Where a whole page table is missing the loop
        jumps to the last page before the next one's, so that its step lands on the next one's first. */
    method Deallocuvm(d: Pn, oldsz: nat, newsz: nat) returns (r: nat)
      requires Valid() && role[d] == Dir && oldsz <= KERNBASE
      modifies `page, `freelist, `role, `free
      ensures Valid() && r == if newsz < oldsz then newsz else oldsz
      ensures Dropped(old(State()), State(), d, PgUp(newsz), if newsz < oldsz then PgUp(oldsz) else PgUp(newsz))
      ensures newsz < oldsz ==> PgUp(newsz) <= PgUp(oldsz) <= 1048576
      ensures forall vp: Vpn ::
                Pte(State(), d, vp) == if newsz <= vp * 4096 < oldsz then 0 else Pte(old(State()), d, vp)
      ensures forall p: Pn :: role[p] == if OfPages(old(role)[p], d, newsz, oldsz) then Free else old(role)[p]
      ensures State() == if newsz < oldsz then PageByPage(old(State()), d, PgUp(newsz), PgUp(oldsz)) else old(State())
    {
      hide Wf, Pte, Ent, SetEnt, Present, Entry, Addr, Dropped, X, Y, FreeOk, HasTable, UserBit, Kva, PgUp, PutPte,
           Freed, PageByPage, DropPage, OfPages, SlotAt, NextTable;
      DroppedNone(State(), d, PgUp(newsz));
      if newsz < oldsz {
        PageByPageNone(State(), d, PgUp(newsz), oldsz, newsz);
      }
      if newsz >= oldsz {
        DroppedSizes(State(), State(), d, newsz, oldsz, PgUp(newsz));
        return oldsz;
      }
      ghost var lo, hi, g, first := PgUp(newsz), PgUp(oldsz), PgUp(newsz), First();
      PgUpOrder(newsz, oldsz);
      var a := (newsz + PGSIZE - 1) / PGSIZE * PGSIZE;
      while a < oldsz
        invariant Valid() && role[d] == Dir && a == 4096 * g && lo <= g
        invariant Dropped(old(State()), State(), d, lo, Least(g, hi))
        invariant State() == PageByPage(old(State()), d, lo, Least(g, hi))
        decreases oldsz - a
      {
        ghost var s := State();
        PgUpBelow(oldsz, g);
        PageAt(a, g);
        var pte := Walkpgdir(d, a, false);
        if pte == Null {
          SkipTable(old(State()), s, first, d, lo, g, Least(NextTable(g), hi));
          a := (a / 4194304 + 1) * 4194304 - PGSIZE;
          g := NextTable(g) - 1;
        } else {
          var e := Ent(page[pte.t], pte.y);
          NotZero(e);
          PresentIs(s, first, d, g);
          if Present(e) {
            DropHere(d, pte.t, pte.y, old(State()), lo, g);
          } else {
            SkipPage(old(State()), s, first, d, lo, g);
          }
        }
        a := a + PGSIZE;
        g := g + 1;
      }
      PgUpBelow(oldsz, g);
      DroppedSizes(old(State()), State(), d, newsz, oldsz, hi);
      r := newsz;
    }

    /** Free every page of address space `d`: user pages, page tables, and the directory itself. */
    method Freevm(d: Pn)
      requires Valid() && role[d] == Dir
      modifies `page, `freelist, `role, `free
      ensures Valid() && Removed(old(State()), State(), d)
    {
      hide Wf, Pte, Ent, SetEnt, Present, Entry, Addr, Dropped, Dying, Removed, FreeOk, PageByPage, DropPage;
      ghost var first := First();
      var r := Deallocuvm(d, KERNBASE, 0);
      ghost var s := State();
      WfMap(s, first);
      DyingNone(s, d);
      DroppedDir(old(State()), s, d);
      for i := 0 to 1024
        invariant FreeOk(State()) && Dying(s, State(), d, i)
      {
        DyingNext(s, State(), first, d, i);
        NotZero(Ent(page[d], i));
        if Present(Ent(page[d], i)) {
          KvaParts(Addr(Ent(page[d], i)));
          var ok := Kfree(KERNBASE + Addr(Ent(page[d], i)) * PGSIZE);
          assert ok;
        }
      }
      DyingRemoved(old(State()), s, State(), first, d);
      KvaParts(d);
      var ok := Kfree(Kva(d));
      assert ok;
      RemoveSpace(s, State(), first, d);
    }

    /** One page of allocuvm's loop, with the undoing where the memory runs out. */
    method AllocOne(d: Pn, a: nat, oldsz: nat, newsz: nat, ghost s0: Mem, ghost k: nat) returns (ok: bool)
      requires Valid() && oldsz <= newsz < KERNBASE && a == (PgUp(oldsz) + k) * 4096 && PgUp(oldsz) + k < PgUp(newsz)
      requires Wf(s0, First()) && s0.role[d] == Dir && AllocAt(s0, State(), d, PgUp(oldsz), k)
      requires forall vp: Vpn :: PgUp(oldsz) <= vp < PgUp(newsz) ==> Pte(s0, d, vp) == 0
      modifies `page, `freelist, `role, `free
      ensures Valid() && role[d] == Dir
      ensures ok ==> AllocAt(s0, State(), d, PgUp(oldsz), k + 1)
      ensures !ok ==> Restored(s0, State(), d) && |s0.free| < Needed(s0, d, oldsz, newsz)
    {
      hide Wf, Pte, Ent, SetEnt, Present, Entry, Addr, Dropped, AllocAt, Mapped, Grew, Restored, X, Y, HasTable, Fresh,
           TablesAre, UserBit, PgUp, Loaded, Taken, Freed, FreeOk, Filled, Kva, SameMaps, PageByPage, DropPage,
           Needed, Alloced;
      ghost var s, first, lo, hi := State(), First(), PgUp(oldsz), PgUp(newsz);
      PgUpOrder(oldsz, newsz);
      ghost var vp: Vpn := lo + k;
      WfMap(s, first);
      AllocHere(s0, s, d, oldsz, newsz, k);
      ok := true;
      var mem := Kalloc();
      if mem == 0 {
        var _ := Deallocuvm(d, newsz, oldsz);
        FirstFailure(s0, s, State(), first, d, lo, vp, hi);
        return false;
      }
      ghost var p := s.free[0];
      KvaParts(p);
      LoadedOk(s, first, d, Filled(0));
      page := page[(mem - KERNBASE) / PGSIZE := Filled(0)];
      ghost var b := State();
      IsLoaded(s, b, Filled(0));
      PteBounds(a);
      var mapped, n := Mappages(d, a, PGSIZE, mem - KERNBASE, PTE_W + PTE_U);
      FreshOne(b, d, vp);
      ghost var m := State();
      if !mapped {
        var _ := Deallocuvm(d, newsz, oldsz);
        SecondFailure(s0, s, m, State(), first, d, lo, vp, hi, n);
        KernelLow(s, first, p);
        var done := Kfree(mem);
        assert done;
        return false;
      }
      AllocStep(s0, s, m, first, d, lo, k);
    }

    /** Grow the user part from `oldsz` to `newsz`. It succeeds exactly when the free list covers the pages and
        the missing page tables; otherwise the mappings are as before. */
    method Allocuvm(d: Pn, oldsz: nat, newsz: nat) returns (r: nat)
      requires Valid() && role[d] == Dir
      requires newsz < KERNBASE ==> forall vp: Vpn :: PgUp(oldsz) <= vp < PgUp(newsz) ==> Pte(State(), d, vp) == 0
      modifies `page, `freelist, `role, `free
      ensures Valid() && role[d] == Dir
      ensures AllocResult(old(State()), State(), d, oldsz, newsz, r)
      ensures r != 0 && oldsz <= newsz ==>
                forall va: nat :: PgUp(oldsz) * 4096 <= va < PgUp(newsz) * 4096 ==>
                  va < KERNBASE && UserAt(State(), d, va / 4096) && UserByte(State(), d, va) == 0
    {
      hide Wf, Pte, AllocAt, Alloced, Restored, PgUp, AllocResult, Needed, UserAt, UserByte;
      AllocTrivial(State(), d, oldsz, newsz);
      if newsz >= KERNBASE {
        return 0;
      }
      if newsz < oldsz {
        return oldsz;
      }
      ghost var s0, k := State(), 0;
      PgUpOrder(oldsz, newsz);
      PgUpBelow(newsz, PgUp(oldsz));
      AllocStart(s0, d, PgUp(oldsz));
      var a := (oldsz + PGSIZE - 1) / PGSIZE * PGSIZE;
      while a < newsz
        invariant Valid() && role[d] == Dir && a == (PgUp(oldsz) + k) * 4096 && PgUp(oldsz) + k <= PgUp(newsz)
        invariant a < newsz <==> PgUp(oldsz) + k < PgUp(newsz)
        invariant AllocAt(s0, State(), d, PgUp(oldsz), k)
      {
        var ok := AllocOne(d, a, oldsz, newsz, s0, k);
        if !ok {
          AllocFails(s0, State(), d, oldsz, newsz);
          return 0;
        }
        k := k + 1;
        PgUpBelow(newsz, PgUp(oldsz) + k);
        a := a + PGSIZE;
      }
      AllocSucceeds(s0, State(), d, oldsz, newsz);
      r := newsz;
      AllocZeros(s0, State(), First(), d, oldsz, newsz);
    }

    // ---- whole address spaces ----

    /** A directory with the kernel's mappings and an empty user half; nothing if fewer than 65 pages are free. */
    method Setupkvm() returns (r: Pgdir)
      requires Valid() && Linked(data, end)
      modifies `page, `freelist, `role, `free
      ensures Valid()
      ensures r == NoDir <==> |old(free)| < 65
      ensures r == NoDir ==> SameOwners(old(State()), State())
      ensures r != NoDir ==> NewSpace(data, old(State()), State(), r.d)
      ensures r != NoDir ==> KernelHalf(data, State(), r.d)
      ensures r != NoDir ==> forall vp: Vpn :: vp < USERPAGES ==> Pte(State(), r.d, vp) == 0
    {
      hide Wf, Pte, Ent, SetEnt, Present, Entry, Addr, Dropped, Mapped, Grew, X, Y, HasTable, Fresh, TablesAre, UserBit,
           Loaded, FreeOk, SameMaps, Removed, SameOwners, NewSpace, Building, OrPresent, KernelHalf;
      ghost var s0, first := State(), First();
      WfMap(s0, first);
      var v := Kalloc();
      if v == 0 {
        SameOwnersSelf(s0);
        return NoDir;
      }
      ghost var p := s0.free[0];
      KvaParts(p);
      var d: Pn := (v - KERNBASE) / PGSIZE;
      page := page[d := Filled(0)];
      IsLoaded(s0, State(), Filled(0));
      role := role[d := Dir];
      BuildStart(data, s0, first);
      ghost var s1 := State();
      var kmap := Kmap(data);
      for k := 0 to 4
        invariant Valid() && role[d] == Dir && Building(data, s1, State(), d, k)
      {
        ghost var s := State();
        KmapRow(data, end, k);
        BuildRow(data, s1, s, d, k);
        var size := (kmap[k].physEnd - kmap[k].physStart) % UINT;
        var ok, n := Mappages(d, kmap[k].virt, size, kmap[k].physStart, kmap[k].perm);
        if !ok {
          BuildFails(data, end, s0, s1, s, State(), d, k);
          GrewNewDir(s0, State(), first, d);
          ghost var m := State();
          Freevm(d);
          RemovedFresh(s0, m, State(), first, d);
          return NoDir;
        }
        BuildNext(data, end, s1, s, State(), d, k, n);
      }
      BuildDone(data, s0, State(), first, d);
      NewKernel(data, end, s0, State(), d);
      r := DirAt(d);
    }

    /** One page of copyuvm's loop; a panic exactly if the parent does not map it. */
    method CopyOne(e: Pn, d: Pn, i: nat, ghost s0: Mem, ghost s1: Mem, ghost n: nat)
      returns (ok: bool, panicked: bool)
      requires Valid() && i % 4096 == 0 && i / 4096 < USERPAGES
      requires Wf(s0, First()) && s0.role[e] == Dir && n <= USERPAGES
      requires Pte(s0, e, i / 4096) != 0 ==> i / 4096 < n
      requires CopyAt(data, s0, s1, State(), e, d, i / 4096)
      modifies `page, `freelist, `role, `free
      ensures Valid() && role[d] == Dir
      ensures panicked <==> Pte(s0, e, i / 4096) == 0
      ensures panicked ==> State() == old(State())
      ensures !panicked && ok ==> CopyAt(data, s0, s1, State(), e, d, i / 4096 + 1)
      ensures !panicked && !ok ==> Grew(s0, State(), d, -1) && |s1.free| < n + Fresh(s1, d, 0, n)
    {
      hide Wf, Pte, Ent, SetEnt, Present, Entry, Addr, Flags, Mapped, Grew, X, Y, HasTable, Fresh, TablesAre, UserBit,
           Loaded, Taken, Freed, FreeOk, SameMaps, Gained, OrPresent, CopyAt, Filled, Kva, SlotAt;
      ghost var s, first := State(), First();
      ghost var vp: Vpn := i / 4096;
      WfMap(s, first);
      CopyReads(data, s0, s1, s, first, e, d, vp);
      if Pte(s0, e, vp) != 0 {
        CopyHere(data, s0, s1, s, first, e, d, vp, n);
        PteMeans(s, e, vp);
      }
      var pte := Walkpgdir(e, i, false);
      if pte == Null {
        PteOfNull(s, e, vp);
        return false, true; // panic("copyuvm: pte should exist")
      }
      NotZero(Pte(s, e, vp));
      if !Present(Ent(page[pte.t], pte.y)) {
        return false, true; // panic("copyuvm: page not present")
      }
      panicked := false;
      var pa := Addr(Ent(page[pte.t], pte.y));
      var flags := Flags(Ent(page[pte.t], pte.y));
      var mem := Kalloc();
      if mem == 0 {
        return false, false;
      }
      ghost var p := s.free[0];
      KvaParts(p);
      LoadedOk(s, first, d, page[pa]);
      page := page[(mem - KERNBASE) / PGSIZE := page[pa]];
      ghost var b := State();
      IsLoaded(s, b, page[pa]);
      FlagsPresent(Pte(s, e, vp));
      OnePage(i);
      ghost var k: nat;
      ok, k := Mappages(d, i, PGSIZE, mem - KERNBASE, flags);
      ghost var m := State();
      FreshOne(b, d, vp);
      if !ok {
        CopyUndo(s0, s, m, first, d, s.page[pa]);
        WfMap(m, first);
        KernelLow(s, first, p);
        var done := Kfree(mem);
        assert done;
        return;
      }
      CopyStep(data, s0, s1, s, m, first, e, d, vp);
    }

    /** A copy of the first `sz` bytes of space `e` in a new space. It succeeds exactly when there are free pages
        for the kernel half, the copies and their page tables; otherwise every page taken is given back. A page
        below `sz` that is not mapped is a panic, exactly if the free list lasts until it is reached. */
    method Copyuvm(e: Pn, sz: nat) returns (r: Pgdir, panicked: bool)
      requires Valid() && Linked(data, end) && role[e] == Dir && sz <= KERNBASE
      modifies `page, `freelist, `role, `free
      ensures Valid() && PgUp(sz) <= USERPAGES
      ensures var hole := FirstHole(old(State()), e, PgUp(sz));
              && (panicked <==> hole < PgUp(sz) && |old(free)| >= CopyCost(4096 * hole))
              && (!panicked ==> (r == NoDir <==> |old(free)| < CopyCost(4096 * hole)))
      ensures !panicked && r == NoDir ==> SameOwners(old(State()), State())
      ensures !panicked && r != NoDir ==>
                && Copying(old(State()), State(), e, r.d, PgUp(sz), KernelRest(data))
                && KernelHalf(data, State(), r.d)
                && |old(free)| >= CopyCost(sz)
      ensures !panicked && r != NoDir ==>
                (forall va: nat :: va < PgUp(sz) * 4096 ==>
                  va < KERNBASE && UserByte(State(), r.d, va) == UserByte(old(State()), e, va))
      ensures !panicked && r != NoDir ==>
                (forall vp: Vpn :: vp < PgUp(sz) ==> Pte(State(), r.d, vp) % 4096 == Pte(old(State()), e, vp) % 4096)
    {
      hide Wf, Pte, PgUp, SameOwners, NewSpace, Copying, CopyCost, CopyAt, Linked, Grew, Fresh, Removed, KernelRest,
           FirstHole, KernelHalf, UserByte;
      ghost var s0, first := State(), First();
      PgUpRange(sz);
      ghost var n, hole := PgUp(sz), FirstHole(s0, e, PgUp(sz));
      FirstHoleIs(s0, e, n);
      WholePages(sz, hole);
      panicked := false;
      r := Setupkvm();
      if r == NoDir {
        CostAtLeast(4096 * hole);
        return;
      }
      var d := r.d;
      ghost var s1 := State();
      CopyStart(data, s0, s1, e, d);
      CopyCosts(data, s0, s1, d, 4096 * hole);
      var i, ok := 0, true;
      PgUpBelow(sz, 0);
      while i < sz
        invariant Valid() && i % 4096 == 0 && i / 4096 <= hole && (i < sz <==> i / 4096 < n)
        invariant CopyAt(data, s0, s1, State(), e, d, i / 4096)
      {
        ok, panicked := CopyOne(e, d, i, s0, s1, hole);
        if panicked {
          CopyEnd(data, s0, s1, State(), e, d, hole);
          return;
        }
        if !ok {
          break;
        }
        PgUpBelow(sz, i / 4096 + 1);
        i := i + PGSIZE;
      }
      if ok {
        CopyEnd(data, s0, s1, State(), e, d, n);
        CopyKernel(data, end, s0, State(), e, d, n);
        CopyBytes(data, s0, State(), first, e, d, n);
        return;
      }
      ghost var m := State();
      Freevm(d); // bad:
      RemovedFresh(s0, m, State(), first, d);
      r := NoDir;
    }

    /** Take the user bit off one page, as exec does for the guard page; a panic if its slot has no table. */
    method Clearpteu(d: Pn, va: nat) returns (ok: bool)
      requires Valid() && role[d] == Dir && va < UINT
      modifies `page, `freelist, `role, `free
      ensures Valid() && role == old(role) && (ok <==> HasTable(old(State()), d, X(va / 4096)))
      ensures !ok ==> State() == old(State())
      ensures forall e: Pn, vq: Vpn :: ok && role[e] == Dir ==>
                Pte(State(), e, vq) == var was := Pte(old(State()), e, vq);
                                       if e == d && vq == va / 4096 then WithoutUser(was) else was
      ensures forall p: Pn :: !role[p].Table? ==> page[p] == old(page)[p]
    {
      hide Wf, Pte, Ent, SetEnt, Addr, UserBit, Present, X, Y, HasTable, SlotAt;
      ghost var s := State();
      WfMap(s, First());
      var pte := Walkpgdir(d, va, false);
      if pte == Null {
        return false;
      }
      var e := Ent(page[pte.t], pte.y);
      if UserBit(e) {
        UserBitNonzero(e);
        PteMeans(s, d, va / 4096);
        HideUser(s, First(), d, va / 4096, pte.t, Addr(e));
        page := page[pte.t := SetEnt(page[pte.t], pte.y, WithoutUser(e))];
        assert State() == PutPte(s, pte.t, va / 4096, WithoutUser(e), Addr(e), s.role[Addr(e)]);
      }
      ok := true;
    }

    // ---- user bytes from the kernel ----

    /** The page behind user address `va`. The source reads through walkpgdir's result without a test, so an
        address whose directory slot is empty dereferences a null pointer. */
    method Uva2ka(d: Pn, va: nat) returns (r: Ka)
      requires Valid() && role[d] == Dir && va < UINT
      modifies `page, `freelist, `role, `free
      ensures Valid() && State() == old(State())
      ensures r == NullPte <==> !HasTable(State(), d, X(va / 4096))
      ensures r.Ka? <==> UserAt(State(), d, va / 4096)
      ensures r.Ka? ==> va < KERNBASE && r.p == Addr(Pte(State(), d, va / 4096))
    {
      hide Wf, Pte, Ent, SetEnt, Present, Addr, UserBit, HasTable, X, Y, Entry, SlotAt;
      WfMap(State(), First());
      if Pte(State(), d, va / 4096) != 0 {
        PteMeans(State(), d, va / 4096);
      }
      var pte := Walkpgdir(d, va, false);
      NotZero(Pte(State(), d, va / 4096));
      if pte == Null {
        PteOfNull(State(), d, va / 4096);
        return NullPte;
      }
      var e := Ent(page[pte.t], pte.y);
      if !Present(e) || !UserBit(e) {
        return NotUser;
      }
      r := Ka(Addr(e));
    }

    /** Copy `src` to user address `va` of space `d`, page by page. `k` is the number of bytes copied. */
    method Copyout(d: Pn, va: nat, src: seq<byte>) returns (r: Outcome, ghost k: nat)
      requires Valid() && role[d] == Dir && va < UINT
      modifies `page, `freelist, `role, `free
      ensures Valid() && k <= |src| && Wrote(old(State()), State(), d, va, src[..k])
      ensures r == Done <==> k == |src|
      ensures AllUser(old(State()), d, va, k)
      ensures r == Done <==> AllUser(old(State()), d, va, |src|)
      ensures k < |src| ==> va + k < UINT && !UserAt(old(State()), d, (va + k) / 4096)
      ensures k < |src| ==> (k == 0 || (va + k) % 4096 == 0)
      ensures k < |src| ==> (r == Faulted <==> !HasTable(old(State()), d, X((va + k) / 4096)))
    {
      hide Wf, Pte, Ent, SetEnt, Present, Addr, UserBit, HasTable, X, Y, Entry, Wrote, OnlyBytes, UserAt, AllUser,
           Stored, Patched;
      ghost var s0, first := State(), First();
      var va', len, buf := va, |src|, 0;
      k := 0;
      WroteNothing(s0, d, va);
      AllUserNone(s0, d, va);
      assert src[..0] == [];
      while len > 0
        invariant Valid() && role[d] == Dir && buf == k && len == |src| - k && 0 <= len
        invariant len > 0 ==> va' == va + k && (va' <= KERNBASE || k == 0) && (k == 0 || va' % 4096 == 0)
        invariant Wrote(s0, State(), d, va, src[..k])
        invariant AllUser(s0, d, va, k)
      {
        ghost var s := State();
        CopySame(s0, s, first, d, va, src[..k], va' / 4096);
        if !UserAt(s0, d, (va + k) / 4096) {
          AllUserStep(s0, d, va, k, |src|);
        }
        var va0 := va' / PGSIZE * PGSIZE;
        var pa0 := Uva2ka(d, va0);
        assert va0 / 4096 == va' / 4096;
        if pa0 == NullPte {
          r := Faulted;
          return;
        }
        if pa0 == NotUser {
          r := BadAddress;
          return;
        }
        var n := PGSIZE - (va' - va0);
        if n > len {
          n := len;
        }
        SpanInPage(va', n);
        AllUserMore(s0, d, va, k, n);
        UserNonzero(s, d, va' / 4096);
        WroteChunk(s, first, d, va', src[buf..buf + n]);
        page := page[pa0.p := Patched(page[pa0.p], va' - va0, src[buf..buf + n])];
        IsStored(s, State(), pa0.p, Patched(s.page[pa0.p], va' - va0, src[buf..buf + n]));
        WroteOk(s, State(), first, d, va', src[buf..buf + n]);
        WroteMore(s0, s, State(), d, va, src, k, n);
        len := len - n;
        buf := buf + n;
        k := k + n;
        va' := va0 + PGSIZE;
      }
      r := Done;
    }

    /** exec copies an argument string, with its terminator, below stack pointer `sp`: the pointer drops by the
        string's length in 32 bits and to a word boundary, and nobody asks whether it is still in the stack. In
        the range between the kernel's memory and the devices, where a space has no table, the copy faults. */
    method PushString(d: Pn, sp: nat, str: seq<byte>) returns (sp': nat, r: Outcome)
      requires Valid() && role[d] == Dir && sp < UINT && |str| + 1 < UINT
      modifies `page, `freelist, `role, `free
      ensures Valid() && sp' == Dropped32(sp, |str| + 1)
      ensures sp' % 4 == 0 && sp' <= (sp + UINT - (|str| + 1)) % UINT < sp' + 4
      ensures r == Done <==> AllUser(old(State()), d, sp', |str| + 1)
      ensures r == Done ==> Wrote(old(State()), State(), d, sp', str + [0])
      ensures NoGapTables(old(State()), d) && InGap(sp') ==> r == Faulted && Wrote(old(State()), State(), d, sp', [])
    {
      hide Wf, Pte, Ent, SetEnt, Present, Addr, UserBit, HasTable, X, Y, Entry, Wrote, OnlyBytes, AllUser, Stored,
           Patched, Dropped32, InGap, NoGapTables, UserAt;
      sp' := (sp + UINT - (|str| + 1)) % UINT / 4 * 4;
      WordBelow(sp, |str| + 1);
      ghost var s0 := State();
      GapNull(s0, d, sp');
      var src := str + [0];
      ghost var k;
      r, k := Copyout(d, sp', src);
      if k > 0 {
        AllUserFirst(s0, d, sp', k);
      }
      assert k == |src| ==> src[..k] == src;
      assert k == 0 ==> src[..k] == [];
    }
  }

  /** Where an address leads: its top ten bits choose the word of the directory that names table `t`, the next ten the
      slot of that table. */
  predicate SlotAt(dir: Page, va: nat, t: Pn, y: Slot)
    requires va < UINT
  {
    Word(dir, va / 0x40_0000) == 4096 * t + 7 && y == va / 0x1000 % 0x400
  }

  predicate Inside(vstart: nat, vend: nat, p: Pn) {
    vstart <= Kva(p) && Kva(p) + PGSIZE <= vend
  }

  function LastPage(va: nat, size: nat): nat
    requires 0 < size
  {
    (va + size - 1) / 4096
  }

  /** The first whole page at or above size `sz`. */
  function PgUp(sz: nat): nat {
    (sz + 4095) / 4096
  }

  /** A user page of `d` that a process of `oldsz` bytes has and one of `newsz` bytes has not. */
  predicate OfPages(r: Role, d: Pn, newsz: nat, oldsz: nat) {
    r.User? && r.dir == d && newsz <= r.vp * 4096 < oldsz
  }

  function Least(a: nat, b: nat): nat {
    if a <= b then a else b
  }

  /** The first page of the next page table. */
  function NextTable(g: nat): (r: nat)
    ensures r > g
  {
    (g / 1024 + 1) * 1024
  }

  lemma PageAt(a: nat, g: nat)
    requires a == 4096 * g
    ensures a % 4096 == 0 && a / 4096 == g && (a / 4194304 + 1) * 4194304 == 4096 * NextTable(g)
  {
    assert a / 4194304 == g / 1024;
  }

  lemma SkipPage(s0: Mem, s: Mem, first: nat, d: Pn, lo: nat, j: nat)
    requires Wf(s0, first) && s0.role[d] == Dir && Dropped(s0, s, d, lo, j) && lo <= j < 1048576
    requires s == PageByPage(s0, d, lo, j) && Pte(s, d, j) == 0
    ensures Dropped(s0, s, d, lo, j + 1) && s == PageByPage(s0, d, lo, j + 1)
  {
    hide Wf, Pte, Dropped, PageByPage;
    DropSkip(s0, s, first, d, lo, j, j + 1);
    SkipPages(s0, s, d, lo, j, j + 1);
  }

  /** A jump over a directory slot that is empty. */
  lemma SkipTable(s0: Mem, s: Mem, first: nat, d: Pn, lo: nat, j: nat, k: nat)
    requires Wf(s0, first) && s0.role[d] == Dir && Dropped(s0, s, d, lo, j) && lo <= j <= k <= NextTable(j)
    requires k <= 1048576 && j < 1048576 && s == PageByPage(s0, d, lo, j) && !HasTable(s, d, X(j))
    ensures Dropped(s0, s, d, lo, k) && s == PageByPage(s0, d, lo, k)
  {
    hide Wf, Pte, Dropped, PageByPage, HasTable, X;
    forall vq: Vpn | j <= vq < k
      ensures Pte(s, d, vq) == 0
    {
      NoTable(s, d, j, vq);
    }
    DropSkip(s0, s, first, d, lo, j, k);
    SkipPages(s0, s, d, lo, j, k);
  }

  lemma DroppedSizes(s: Mem, s': Mem, d: Pn, newsz: nat, oldsz: nat, hi: nat)
    requires Dropped(s, s', d, PgUp(newsz), hi) && hi == if newsz < oldsz then PgUp(oldsz) else PgUp(newsz)
    ensures forall vp: Vpn :: Pte(s', d, vp) == if newsz <= vp * 4096 < oldsz then 0 else Pte(s, d, vp)
    ensures forall p: Pn :: s'.role[p] == if OfPages(s.role[p], d, newsz, oldsz) then Free else s.role[p]
  {
    hide Pte;
    forall vp: Vpn
      ensures PgUp(newsz) <= vp < hi <==> newsz <= vp * 4096 < oldsz
    {
      PgUpBelow(newsz, vp);
      PgUpBelow(oldsz, vp);
    }
  }

  /** The link takes up the first four bytes of a free page; the others keep the junk. */
  lemma JunkStays(pg: Page, head: nat)
    ensures SetEnt(pg, 0, head)[4..] == pg[4..]
  {
  }

  /** An entry of the user half that is not present is 0. */
  lemma PresentIs(s: Mem, first: nat, d: Pn, vp: Vpn)
    requires Wf(s, first) && s.role[d] == Dir
    ensures Present(Pte(s, d, vp)) <==> Pte(s, d, vp) != 0
  {
    hide Wf, Pte, Addr;
    NotZero(Pte(s, d, vp));
    WfMap(s, first);
    if Pte(s, d, vp) != 0 {
      PteMeans(s, d, vp);
    }
  }

  /** Pages that allocuvm takes to grow from `oldsz` to `newsz`: the new pages and the missing page tables. */
  function Needed(s: Mem, d: Pn, oldsz: nat, newsz: nat): nat
    requires oldsz <= newsz < KERNBASE
  {
    PgUp(newsz) - PgUp(oldsz) + Fresh(s, d, PgUp(oldsz), PgUp(newsz) - PgUp(oldsz))
  }

  lemma PteBounds(a: nat)
    requires a % 4096 == 0
    ensures LastPage(a, 4096) == a / 4096
    ensures OrPresent(6) == 7 && OrPresent(7) == 7
  {
  }

  lemma PgUpOrder(oldsz: nat, newsz: nat)
    requires oldsz <= newsz <= KERNBASE
    ensures PgUp(oldsz) <= PgUp(newsz) <= USERPAGES
    ensures (oldsz + PGSIZE - 1) / PGSIZE * PGSIZE == PgUp(oldsz) * 4096
  {
  }

  lemma PgUpBelow(sz: nat, k: nat)
    ensures k * 4096 < sz <==> k < PgUp(sz)
  {
  }

  /** Outside its size checks allocuvm succeeds exactly when the free list covers what it needs. */
  predicate AllocResult(s: Mem, s': Mem, d: Pn, oldsz: nat, newsz: nat, r: nat) {
    if newsz >= KERNBASE then r == 0 && s' == s
    else if newsz < oldsz then r == oldsz && s' == s
    else if |s.free| >= Needed(s, d, oldsz, newsz) then
      r == newsz && Alloced(s, s', d, PgUp(oldsz), PgUp(newsz)) && AllocTables(s, s', d, oldsz, newsz)
    else
      r == 0 && Restored(s, s', d)
  }

  /** The tables that exist afterwards, and the pages that have come off the free list. */
  predicate AllocTables(s: Mem, s': Mem, d: Pn, oldsz: nat, newsz: nat)
    requires oldsz <= newsz < KERNBASE
  {
    && TablesAre(s, s', d, PgUp(oldsz), PgUp(newsz) - PgUp(oldsz))
    && |s.free| == |s'.free| + Needed(s, d, oldsz, newsz)
  }

  lemma AllocTrivial(s: Mem, d: Pn, oldsz: nat, newsz: nat)
    ensures newsz >= KERNBASE ==> AllocResult(s, s, d, oldsz, newsz, 0)
    ensures newsz < KERNBASE && newsz < oldsz ==> AllocResult(s, s, d, oldsz, newsz, oldsz)
  {
  }

  lemma AllocFails(s: Mem, s': Mem, d: Pn, oldsz: nat, newsz: nat)
    requires oldsz <= newsz < KERNBASE && Restored(s, s', d) && |s.free| < Needed(s, d, oldsz, newsz)
    ensures AllocResult(s, s', d, oldsz, newsz, 0)
  {
    hide PgUp, Restored, Fresh, Needed;
  }

  /** After `k` pages: what is mapped, the tables it took, and the pages that came off the free list. */
  predicate AllocAt(s0: Mem, s: Mem, d: Pn, lo: nat, k: nat) {
    && lo + k <= USERPAGES && s.role[d] == Dir
    && Alloced(s0, s, d, lo, lo + k) && TablesAre(s0, s, d, lo, k)
    && |s0.free| == |s.free| + k + Fresh(s0, d, lo, k)
  }

  lemma AllocStart(s: Mem, d: Pn, lo: nat)
    requires lo <= USERPAGES && s.role[d] == Dir
    ensures AllocAt(s, s, d, lo, 0)
  {
    hide Alloced, TablesAre, Fresh;
    AllocedNone(s, d, lo);
    TablesNone(s, d, lo);
  }

  /** What one more page starts from, and the cost if no page can be had. */
  lemma AllocHere(s0: Mem, s: Mem, d: Pn, oldsz: nat, newsz: nat, k: nat)
    requires oldsz <= newsz < KERNBASE && PgUp(oldsz) + k < PgUp(newsz) <= USERPAGES
               && AllocAt(s0, s, d, PgUp(oldsz), k)
    ensures Alloced(s0, s, d, PgUp(oldsz), PgUp(oldsz) + k) && s.role[d] == Dir
    ensures Pte(s, d, PgUp(oldsz) + k) == Pte(s0, d, PgUp(oldsz) + k)
    ensures |s.free| < 1 + (if HasTable(s, d, X(PgUp(oldsz) + k)) then 0 else 1) ==>
              |s0.free| < Needed(s0, d, oldsz, newsz)
  {
    hide Pte, HasTable, X, Fresh, TablesAre, Alloced, PgUp;
    var lo, hi := PgUp(oldsz), PgUp(newsz);
    AllocedUnmapped(s0, s, d, lo, lo + k, lo + k);
    FreshNext(s0, s, d, lo, k);
    FreshMono(s0, d, lo, k + 1, hi - lo);
    FreshMono(s0, d, lo, k, hi - lo);
  }

  lemma AllocStep(s0: Mem, s: Mem, m: Mem, first: nat, d: Pn, lo: nat, k: nat)
    requires Wf(s0, first) && Wf(s, first) && AllocAt(s0, s, d, lo, k) && s.free != [] && lo + k < USERPAGES
    requires var b := Loaded(s, Filled(0));
             && Mapped(b, m, d, lo + k, 1, s.free[0], 7) && Grew(b, m, d, s.free[0])
             && m.role[s.free[0]] == User(d, lo + k) && m.page[s.free[0]] == Filled(0) && m.role[d] == Dir
             && TablesAre(b, m, d, lo + k, 1) && |b.free| == |m.free| + Fresh(b, d, lo + k, 1)
    ensures AllocAt(s0, m, d, lo, k + 1)
  {
    hide Wf, Pte, HasTable, X, Fresh, TablesAre, Alloced, Loaded, Mapped, Grew, Gained, Filled;
    LoadedOk(s, first, d, Filled(0));
    IsGained(s, m, d, lo + k, 7, Filled(0));
    AllocNext(s0, s, m, first, d, lo, lo + k);
    FreshOne(Loaded(s, Filled(0)), d, lo + k);
    FreshNext(s0, s, d, lo, k);
    TablesStep(s0, s, Loaded(s, Filled(0)), m, d, lo, k);
  }

  /** Every byte of the new range reads as zero. */
  lemma AllocZeros(s: Mem, s': Mem, first: nat, d: Pn, oldsz: nat, newsz: nat)
    requires Wf(s', first) && oldsz <= newsz < KERNBASE && PgUp(oldsz) <= PgUp(newsz)
    requires AllocAt(s, s', d, PgUp(oldsz), PgUp(newsz) - PgUp(oldsz))
    ensures forall va: nat :: PgUp(oldsz) * 4096 <= va < PgUp(newsz) * 4096 ==>
              va < KERNBASE && UserAt(s', d, va / 4096) && UserByte(s', d, va) == 0
  {
    hide PgUp, Wf, Alloced, TablesAre, Fresh, UserAt, UserByte;
    WfMap(s', first);
    forall va: nat | PgUp(oldsz) * 4096 <= va < PgUp(newsz) * 4096
      ensures va < KERNBASE && UserAt(s', d, va / 4096) && UserByte(s', d, va) == 0
    {
      AllocedPage(s, s', d, PgUp(oldsz), PgUp(newsz), va / 4096);
      NewByte(s, s', d, va, 7, Filled(0));
      SevenUser();
    }
  }

  lemma AllocedPage(s: Mem, s': Mem, d: Pn, lo: nat, hi: nat, vp: Vpn)
    requires Alloced(s, s', d, lo, hi) && lo <= vp < hi
    ensures NewPage(s, s', d, vp, 7, Filled(0))
  {
    hide NewPage, Pte, Grew;
  }

  lemma SevenUser()
    ensures Present(7) && UserBit(7)
  {
  }

  lemma AllocSucceeds(s: Mem, s': Mem, d: Pn, oldsz: nat, newsz: nat)
    requires oldsz <= newsz < KERNBASE && PgUp(oldsz) <= PgUp(newsz)
    requires AllocAt(s, s', d, PgUp(oldsz), PgUp(newsz) - PgUp(oldsz))
    ensures AllocResult(s, s', d, oldsz, newsz, newsz)
  {
    hide PgUp, Alloced, TablesAre, Fresh;
  }

  /** What setupkvm returns: a null pointer or a directory. */
  datatype Pgdir = NoDir | DirAt(d: Pn)

  // ---- the kernel's mappings ----

  const EXTMEM := 0x100000
  const DEVSPACE := 0xFE00_0000
  const KERNLINK := KERNBASE + EXTMEM

  datatype KmapRange = KmapRange(virt: nat, physStart: nat, physEnd: nat, perm: nat)

  function Kmap(data: nat): (k: seq<KmapRange>)
    requires KERNBASE <= data
    ensures |k| == 4
  {
    [ KmapRange(KERNBASE, 0, EXTMEM, PTE_W),
      KmapRange(KERNLINK, KERNLINK - KERNBASE, data - KERNBASE, 0),
      KmapRange(data, data - KERNBASE, PHYSTOP, PTE_W),
      KmapRange(DEVSPACE, DEVSPACE, 0, PTE_W) ]
  }

  /** What the linker script guarantees about the kernel image. */
  predicate Linked(data: nat, end: nat) {
    KERNLINK < data < end <= KERNBASE + PHYSTOP && data % 4096 == 0
  }

  /** The entry every address space has for a virtual page; 0 in the user half and in the gap below the devices. */
  function KernelPte(data: nat, vp: Vpn): nat {
    if vp < 0x80000 || 0x8E000 <= vp < 0xFE000 then 0
    else if vp >= 0xFE000 then Entry(vp, 3)
    else if 0x80100 <= vp < data / 4096 then Entry(vp - 0x80000, 1)
    else Entry(vp - 0x80000, 3)
  }

  /** The kernel half of space `d`: every physical page at KERNBASE above its address, writable unless it holds kernel
      text or read-only data; devices where they are; nothing else, and nothing for the user. */
  predicate KernelHalf(data: nat, s: Mem, d: Pn) {
    && (forall vp: Vpn :: 0x80000 <= vp < 0x80000 + NPAGES ==>
          KernelEntry(Pte(s, d, vp), vp - 0x80000, !(0x8010_0000 <= vp * 4096 < data)))
    && (forall vp: Vpn :: 0x80000 + NPAGES <= vp < 0xFE000 ==> Pte(s, d, vp) == 0)
    && (forall vp: Vpn :: 0xFE000 <= vp ==> KernelEntry(Pte(s, d, vp), vp, true))
  }

  /** An entry for frame `p` that only the kernel may use. */
  predicate KernelEntry(e: nat, p: nat, writable: bool) {
    e / 4096 == p && e % 2 == 1 && (e / 2 % 2 == 1 <==> writable) && e / 4 % 2 == 0
  }

  lemma KernelEntries(data: nat, end: nat, s: Mem, d: Pn)
    requires Linked(data, end) && forall vp: Vpn :: vp >= USERPAGES ==> Pte(s, d, vp) == KernelPte(data, vp)
    ensures KernelHalf(data, s, d)
  {
    hide Pte, KernelEntry, Entry;
    forall vp: Vpn | vp >= USERPAGES
      ensures Pte(s, d, vp) == KernelPte(data, vp)
    {
    }
    forall p: nat
      ensures KernelEntry(Entry(p, 3), p, true) && KernelEntry(Entry(p, 1), p, false)
    {
      EntryBits(p, 3);
      EntryBits(p, 1);
    }
  }

  lemma EntryBits(p: nat, flags: nat)
    requires flags in {1, 3}
    ensures KernelEntry(Entry(p, flags), p, flags == 3)
  {
    EntryAddr(p, flags);
    EntryPresent(p, flags);
    EntryUserBit(p, flags);
    HalfPlus(p * 2048, flags);
    EvenPlus(p * 1024, flags / 2);
    OneAndThree(flags);
    BitsTogether(p, flags, Entry(p, flags));
  }

  lemma OneAndThree(flags: nat)
    requires flags in {1, 3}
    ensures Present(flags) && !UserBit(flags) && (flags / 2 % 2 == 1 <==> flags == 3)
  {
  }

  lemma BitsTogether(p: nat, flags: nat, e: nat)
    requires Addr(e) == p && Present(e) && !UserBit(e) && e / 2 % 2 == flags / 2 % 2
    requires flags / 2 % 2 == 1 <==> flags == 3
    ensures KernelEntry(e, p, flags == 3)
  {
    Parity(e / 4);
  }

  lemma Parity(n: nat)
    ensures n % 2 == 0 || n % 2 == 1
  {
  }

  lemma CopyKernel(data: nat, end: nat, s: Mem, s': Mem, e: Pn, d: Pn, k: nat)
    requires Linked(data, end) && k <= USERPAGES && Copying(s, s', e, d, k, KernelRest(data))
    ensures KernelHalf(data, s', d)
  {
    hide Pte, KernelPte, KernelHalf, CopiedPage;
    KernelEntries(data, end, s', d);
  }

  lemma CopyBytes(data: nat, s: Mem, s': Mem, first: nat, e: Pn, d: Pn, k: nat)
    requires Wf(s, first) && Wf(s', first) && s.role[e] == Dir && k <= USERPAGES
    requires Copying(s, s', e, d, k, KernelRest(data))
    ensures forall va: nat :: va < k * 4096 ==>
              va < KERNBASE && UserByte(s', d, va) == UserByte(s, e, va)
    ensures forall vp: Vpn :: vp < k ==> Pte(s', d, vp) % 4096 == Pte(s, e, vp) % 4096
  {
    hide Wf, Pte, CopiedPage, UserByte, KernelPte, Grew;
    CopiedFlags(s, s', e, d, k, KernelRest(data));
    WfMap(s', first);
    forall va: nat | va < k * 4096
      ensures va < KERNBASE && UserByte(s', d, va) == UserByte(s, e, va)
    {
      var vp: Vpn := va / 4096;
      assert CopiedPage(s, s', e, d, vp);
      CopiedByte(s, s', d, e, va);
    }
  }

  lemma CopiedFlags(s: Mem, s': Mem, e: Pn, d: Pn, k: nat, rest: Vpn -> nat)
    requires Copying(s, s', e, d, k, rest)
    ensures forall vp: Vpn :: vp < k ==> Pte(s', d, vp) % 4096 == Pte(s, e, vp) % 4096
  {
    hide Pte, Grew;
    forall vp: Vpn | vp < k
      ensures Pte(s', d, vp) % 4096 == Pte(s, e, vp) % 4096
    {
      assert CopiedPage(s, s', e, d, vp);
    }
  }

  lemma CopiedByte(s: Mem, s': Mem, d: Pn, e: Pn, va: nat)
    requires MapOk(s') && va < KERNBASE && CopiedPage(s, s', e, d, va / 4096)
    ensures UserByte(s', d, va) == UserByte(s, e, va)
  {
    hide MapOk, NewPage, Pte, Present, Flags, Addr;
    var was := Pte(s, e, va / 4096);
    NewByte(s, s', d, va, Flags(was), s.page[Addr(was)]);
    EntryOfParts(was);
    NotZero(was);
  }

  lemma NewKernel(data: nat, end: nat, s: Mem, s': Mem, d: Pn)
    requires Linked(data, end) && NewSpace(data, s, s', d)
    ensures KernelHalf(data, s', d) && forall vp: Vpn :: vp < USERPAGES ==> Pte(s', d, vp) == 0
  {
    hide Pte, KernelHalf, HasTable;
    KernelEntries(data, end, s', d);
  }

  predicate KernelSlot(x: Slot) {
    512 <= x < 568 || 1016 <= x
  }

  /** `d` was free and is now a directory with the kernel's mappings only; 65 pages went into it. */
  predicate NewSpace(data: nat, s: Mem, s': Mem, d: Pn) {
    && s.role[d] == Free && s'.role[d] == Dir
    && Grew(s, s', d, -1)
    && (forall vp: Vpn :: Pte(s', d, vp) == KernelPte(data, vp))
    && (forall x: Slot :: HasTable(s', d, x) <==> KernelSlot(x))
    && |s.free| == |s'.free| + 65
  }

  /** First virtual page not covered by the first `k` ranges. */
  function Bound(data: nat, k: nat): nat {
    if k == 0 then 0x80000 else if k == 1 then 0x80100 else if k == 2 then data / 4096
    else if k == 3 then 0x8E000 else 0x100000
  }

  function TablesUpTo(data: nat, k: nat): nat
    requires KERNLINK < data < KERNBASE + PHYSTOP
  {
    if k == 0 then 0 else if k <= 3 then (Bound(data, k) - 1) / 1024 - 511 else 64
  }

  predicate SlotUpTo(data: nat, k: nat, x: Slot)
    requires KERNLINK < data < KERNBASE + PHYSTOP
  {
    if k == 4 then KernelSlot(x) else 512 <= x < 512 + TablesUpTo(data, k)
  }

  /** The first `k` ranges of kmap are in place. */
  predicate Building(data: nat, s1: Mem, s: Mem, d: Pn, k: nat)
    requires KERNLINK < data < KERNBASE + PHYSTOP
  {
    && Grew(s1, s, d, -1)
    && (forall vp: Vpn :: Pte(s, d, vp) == if vp < Bound(data, k) then KernelPte(data, vp) else 0)
    && (forall x: Slot :: HasTable(s, d, x) <==> SlotUpTo(data, k, x))
    && |s1.free| == |s.free| + TablesUpTo(data, k)
  }

  function Low(data: nat, k: nat): nat {
    if k == 3 then 0xFE000 else Bound(data, k)
  }

  function LowPhys(data: nat, k: nat): nat
    requires KERNLINK < data
  {
    if k == 3 then 0xFE000 else Bound(data, k) - 0x80000
  }

  /** Row `k` of kmap in pages. */
  lemma KmapRow(data: nat, end: nat, k: nat)
    requires Linked(data, end) && k < 4
    ensures var row := Kmap(data)[k];
            var size := (row.physEnd - row.physStart) % UINT;
            && 0 < size && row.virt + size <= UINT && row.physStart % 4096 == 0 && row.perm < 4096
            && row.virt / 4096 == Low(data, k) && LastPage(row.virt, size) + 1 == Bound(data, k + 1)
            && row.physStart / 4096 == LowPhys(data, k)
            && row.physStart + (LastPage(row.virt, size) - row.virt / 4096 + 1) * 4096 <= UINT
            && OrPresent(row.perm) == (if k == 1 then 1 else 3)
    ensures USERPAGES <= Low(data, k) < Bound(data, k + 1) <= 1048576
    ensures !UserBit(1) && !UserBit(3)
  {
  }

  lemma BuildRow(data: nat, s1: Mem, s: Mem, d: Pn, k: nat)
    requires KERNLINK < data < KERNBASE + PHYSTOP && k < 4 && Building(data, s1, s, d, k)
    ensures forall vp: Vpn :: Low(data, k) <= vp < Bound(data, k + 1) ==> Pte(s, d, vp) == 0
  {
    hide Pte, KernelPte, HasTable, TablesUpTo, Grew;
  }

  lemma RowPte(data: nat, k: nat, vp: Vpn)
    requires KERNLINK < data < KERNBASE + PHYSTOP && k < 4 && vp < Bound(data, k + 1)
    ensures vp >= Low(data, k) ==>
              KernelPte(data, vp) == Entry(LowPhys(data, k) + vp - Low(data, k), if k == 1 then 1 else 3)
    ensures Bound(data, k) <= vp < Low(data, k) ==> KernelPte(data, vp) == 0
  {
    hide Entry;
  }

  /** The slots that row `k` adds. */
  lemma RowSlots(data: nat, k: nat, x: Slot)
    requires KERNLINK < data < KERNBASE + PHYSTOP && k < 4
    ensures SlotUpTo(data, k + 1, x) <==> SlotUpTo(data, k, x) || X(Low(data, k)) <= x <= X(Bound(data, k + 1) - 1)
    ensures X(Low(data, k)) < x <= X(Bound(data, k + 1) - 1) ==> !SlotUpTo(data, k, x)
    ensures TablesUpTo(data, k + 1) == TablesUpTo(data, k) + X(Bound(data, k + 1) - 1) - X(Low(data, k))
              + if SlotUpTo(data, k, X(Low(data, k))) then 0 else 1
    ensures TablesUpTo(data, k + 1) <= 64
  {
  }

  lemma RowFresh(data: nat, s1: Mem, s: Mem, d: Pn, k: nat)
    requires KERNLINK < data < KERNBASE + PHYSTOP && k < 4 && Building(data, s1, s, d, k)
    requires Low(data, k) < Bound(data, k + 1) <= 1048576
    ensures Fresh(s, d, Low(data, k), Bound(data, k + 1) - Low(data, k)) ==
              TablesUpTo(data, k + 1) - TablesUpTo(data, k)
  {
    hide Pte, KernelPte, HasTable, TablesUpTo, Grew, X, SlotUpTo, Low, Bound;
    RowSlots(data, k, X(Low(data, k)));
    forall x: Slot | X(Low(data, k)) < x <= X(Bound(data, k + 1) - 1)
      ensures !HasTable(s, d, x)
    {
      RowSlots(data, k, x);
    }
    FreshRun(s, d, Low(data, k), Bound(data, k + 1) - Low(data, k));
  }

  lemma BuildNext(data: nat, end: nat, s1: Mem, s: Mem, s': Mem, d: Pn, k: nat, n: nat)
    requires Linked(data, end) && k < 4 && Building(data, s1, s, d, k) && s1.role[d] == Dir && s.role[d] == Dir
    requires n == Bound(data, k + 1) - Low(data, k) && Low(data, k) + n <= 1048576
    requires Mapped(s, s', d, Low(data, k), n, LowPhys(data, k), if k == 1 then 1 else 3) && Grew(s, s', d, -1)
    requires TablesAre(s, s', d, Low(data, k), n) && |s.free| == |s'.free| + Fresh(s, d, Low(data, k), n)
    ensures Building(data, s1, s', d, k + 1)
  {
    hide Pte, KernelPte, HasTable, TablesUpTo, X, SlotUpTo, Grew, Fresh, Entry;
    KmapRow(data, end, k);
    RowFresh(data, s1, s, d, k);
    GrewTrans(s1, s, s', d, -1);
    forall x: Slot
      ensures HasTable(s', d, x) <==> SlotUpTo(data, k + 1, x)
    {
      RowSlots(data, k, x);
    }
    forall vp: Vpn
      ensures Pte(s', d, vp) == if vp < Bound(data, k + 1) then KernelPte(data, vp) else 0
    {
      if vp < Bound(data, k + 1) {
        RowPte(data, k, vp);
      }
    }
  }

  lemma {:induction false} UpTo64(data: nat, k: nat)
    requires KERNLINK < data < KERNBASE + PHYSTOP && k < 4
    ensures TablesUpTo(data, k + 1) <= 64
  {
    RowSlots(data, k, 512);
  }

  lemma BuildFails(data: nat, end: nat, s0: Mem, s1: Mem, s: Mem, s': Mem, d: Pn, k: nat)
    requires Linked(data, end) && k < 4 && Building(data, s1, s, d, k) && s1.role[d] == Dir && s.role[d] == Dir
    requires Low(data, k) < Bound(data, k + 1) <= 1048576 && |s0.free| == |s1.free| + 1
    requires |s.free| < Fresh(s, d, Low(data, k), Bound(data, k + 1) - Low(data, k)) && Grew(s, s', d, -1)
    ensures |s0.free| < 65 && Grew(s1, s', d, -1)
  {
    hide Pte, KernelPte, HasTable, TablesUpTo, X, SlotUpTo, Grew, Fresh, Low, Bound;
    RowFresh(data, s1, s, d, k);
    UpTo64(data, k);
    GrewTrans(s1, s, s', d, -1);
  }

  lemma BuildStart(data: nat, s0: Mem, first: nat)
    requires Wf(s0, first) && s0.free != [] && KERNLINK < data < KERNBASE + PHYSTOP
    ensures var d := s0.free[0];
            var s1 := NewDir(Loaded(s0, Filled(0)), d);
            Wf(s1, first) && s1.role[d] == Dir && Building(data, s1, s1, d, 0) && |s0.free| == |s1.free| + 1
  {
    hide Wf, Pte, HasTable, Ent, SameMaps;
    var d := s0.free[0];
    FreeHead(s0, first);
    WfTaken(s0, first);
    WfStored(Taken(s0), first, d, Filled(0));
    NewDirOk(Loaded(s0, Filled(0)), first, d);
    GrewSelf(NewDir(Loaded(s0, Filled(0)), d), d);
  }

  lemma GrewSelf(s: Mem, d: Pn)
    ensures Grew(s, s, d, -1)
  {
  }

  lemma BuildDone(data: nat, s0: Mem, s: Mem, first: nat, d: Pn)
    requires Wf(s0, first) && s0.free != [] && d == s0.free[0] && s.role[d] == Dir
    requires KERNLINK < data < KERNBASE + PHYSTOP && |s0.free| == |NewDir(Loaded(s0, Filled(0)), d).free| + 1
    requires Building(data, NewDir(Loaded(s0, Filled(0)), d), s, d, 4)
    ensures NewSpace(data, s0, s, d) && |s0.free| >= 65
  {
    hide Wf, Pte, HasTable, Loaded, KernelPte, Grew;
    GrewNewDir(s0, s, first, d);
  }

  // ---- copyuvm ----

  /** The kernel's mappings as a function of the virtual page. */
  function KernelRest(data: nat): Vpn -> nat {
    (vp: Vpn) => KernelPte(data, vp)
  }

  /** Pages a copy of `sz` bytes takes: 65 for the kernel half, the copies, and one table for every 1024 of them. */
  function CopyCost(sz: nat): nat {
    65 + PgUp(sz) + (PgUp(sz) + 1023) / 1024
  }

  lemma CostAtLeast(sz: nat)
    ensures CopyCost(sz) >= 65
  {
  }

  /** The first of `n` pages that space `e` does not map, or `n`. */
  function FirstHole(s: Mem, e: Pn, n: nat): (h: nat)
    requires n <= USERPAGES
    ensures h <= n
  {
    if n == 0 then 0
    else
      var h := FirstHole(s, e, n - 1);
      if h == n - 1 && Pte(s, e, n - 1) != 0 then n else h
  }

  lemma {:induction false} FirstHoleIs(s: Mem, e: Pn, n: nat)
    requires n <= USERPAGES
    ensures var h := FirstHole(s, e, n);
            && (forall vp: Vpn :: vp < h ==> Pte(s, e, vp) != 0)
            && (h < n ==> Pte(s, e, h) == 0)
  {
    hide Pte;
    if n > 0 {
      FirstHoleIs(s, e, n - 1);
    }
  }

  lemma WholePages(sz: nat, k: nat)
    requires k <= PgUp(sz) && sz <= KERNBASE
    ensures PgUp(4096 * k) == k && 4096 * k <= KERNBASE
    ensures k == PgUp(sz) ==> CopyCost(4096 * k) == CopyCost(sz)
  {
  }

  lemma PgUpRange(sz: nat)
    requires sz <= KERNBASE
    ensures PgUp(sz) <= USERPAGES
  {
  }

  lemma OnePage(i: nat)
    requires i % 4096 == 0
    ensures LastPage(i, 4096) == i / 4096
  {
  }

  /** After `k` pages: what is copied, the tables it took, and the pages that came off the free list. */
  predicate CopyAt(data: nat, s0: Mem, s1: Mem, s: Mem, e: Pn, d: Pn, k: nat) {
    && k <= USERPAGES
    && Copying(s0, s, e, d, k, KernelRest(data)) && TablesAre(s1, s, d, 0, k)
    && |s1.free| == |s.free| + k + Fresh(s1, d, 0, k)
  }

  lemma CopyStart(data: nat, s0: Mem, s1: Mem, e: Pn, d: Pn)
    requires NewSpace(data, s0, s1, d)
    ensures CopyAt(data, s0, s1, s1, e, d, 0) && s0.role[d] == Free
  {
    hide Pte, HasTable, KernelPte, Grew, Fresh;
    TablesNone(s1, d, 0);
  }

  lemma CopyEnd(data: nat, s0: Mem, s1: Mem, s: Mem, e: Pn, d: Pn, k: nat)
    requires CopyAt(data, s0, s1, s, e, d, k)
    ensures Copying(s0, s, e, d, k, KernelRest(data)) && |s1.free| >= k + Fresh(s1, d, 0, k)
  {
    hide Copying, Fresh;
  }

  /** The parent's entry is still what it was. */
  lemma CopyReads(data: nat, s0: Mem, s1: Mem, s: Mem, first: nat, e: Pn, d: Pn, vp: Vpn)
    requires Wf(s0, first) && s0.role[e] == Dir && CopyAt(data, s0, s1, s, e, d, vp)
    ensures s.role[e] == Dir && s.role[d] == Dir && Pte(s, e, vp) == Pte(s0, e, vp)
  {
    hide Wf, Pte, CopiedPage, Addr, Grew, TablesAre, Fresh;
    OtherSpace(s0, s, first, d, e, vp);
  }

  /** What one more page starts from: the parent's page, and the cost if no page can be had. */
  lemma CopyHere(data: nat, s0: Mem, s1: Mem, s: Mem, first: nat, e: Pn, d: Pn, vp: Vpn, n: nat)
    requires Wf(s0, first) && Wf(s, first) && s0.role[e] == Dir && CopyAt(data, s0, s1, s, e, d, vp)
    requires vp < n <= USERPAGES && Pte(s0, e, vp) != 0
    ensures s.role[e] == Dir == s.role[d] && Pte(s, e, vp) == Pte(s0, e, vp)
    ensures Pte(s, d, vp) == 0 && Grew(s0, s, d, -1)
    ensures |s.free| + vp + Fresh(s1, d, 0, vp) == |s1.free|
    ensures |s.free| < 1 + (if HasTable(s, d, X(vp)) then 0 else 1) ==> |s1.free| < n + Fresh(s1, d, 0, n)
  {
    hide Wf, Pte, Addr, Grew, HasTable, X, Fresh, CopiedPage, TablesAre;
    CopyParent(data, s0, s, first, e, d, vp);
    FreshNext(s1, s, d, 0, vp);
    FreshMono(s1, d, 0, vp + 1, n);
    FreshMono(s1, d, 0, vp, n);
  }

  /** mappages failed: the page goes back. */
  lemma CopyUndo(s0: Mem, s: Mem, m: Mem, first: nat, d: Pn, pg: Page)
    requires Wf(s, first) && Wf(m, first) && s.role[d] == Dir && m.role[d] == Dir && s.free != [] && Grew(s0, s, d, -1)
    requires Grew(Loaded(s, pg), m, d, s.free[0]) && m.role[s.free[0]] == Held
    ensures Wf(Freed(m, s.free[0]), first) && Grew(s0, Freed(m, s.free[0]), d, -1)
    ensures Freed(m, s.free[0]).role[d] == Dir && FreeOk(Freed(m, s.free[0]))
  {
    hide Wf, Grew, Freed, Loaded, FreeOk;
    var p := s.free[0];
    CopyHead(s0, s, first, d);
    GrewTaken(s0, s, m, d, p, pg);
    FreedGrew(s0, m, d, p);
    WfFreed(m, first, p);
    WfMap(Freed(m, p), first);
  }

  lemma CopyStep(data: nat, s0: Mem, s1: Mem, s: Mem, m: Mem, first: nat, e: Pn, d: Pn, vp: Vpn)
    requires Wf(s0, first) && Wf(s, first) && s0.role[e] == Dir && CopyAt(data, s0, s1, s, e, d, vp) && s.free != []
    requires vp < USERPAGES && Pte(s0, e, vp) != 0 && Addr(Pte(s0, e, vp)) < NPAGES
    requires var pg := s.page[Addr(Pte(s0, e, vp))];
             var b := Loaded(s, pg);
             && Mapped(b, m, d, vp, 1, s.free[0], Flags(Pte(s0, e, vp))) && Grew(b, m, d, s.free[0])
             && m.role[s.free[0]] == User(d, vp) && m.page[s.free[0]] == pg
             && TablesAre(b, m, d, vp, 1) && |b.free| == |m.free| + Fresh(b, d, vp, 1)
    ensures CopyAt(data, s0, s1, m, e, d, vp + 1)
  {
    hide Wf, Pte, Addr, Flags, Grew, HasTable, X, Fresh, CopiedPage, TablesAre, Loaded, Mapped, Gained, Copying,
         KernelRest;
    var pg := s.page[Addr(Pte(s0, e, vp))];
    CopyDir(s0, s, e, d, vp, KernelRest(data));
    CopyParent(data, s0, s, first, e, d, vp);
    LoadedOk(s, first, d, pg);
    IsGained(s, m, d, vp, Flags(Pte(s0, e, vp)), pg);
    CopyNext(s0, s, m, first, e, d, vp, KernelRest(data));
    FreshOne(Loaded(s, pg), d, vp);
    FreshNext(s1, s, d, 0, vp);
    TablesStep(s1, s, Loaded(s, pg), m, d, 0, vp);
  }

  lemma CopyDir(s0: Mem, s: Mem, e: Pn, d: Pn, k: nat, rest: Vpn -> nat)
    requires Copying(s0, s, e, d, k, rest)
    ensures s.role[d] == Dir
  {
    hide Grew, CopiedPage, Pte;
  }

  lemma UserTables(data: nat, s0: Mem, s1: Mem, d: Pn, n: nat)
    requires NewSpace(data, s0, s1, d) && n <= USERPAGES
    ensures Fresh(s1, d, 0, n) == (n + 1023) / 1024
  {
    hide Pte, HasTable, KernelPte, Grew;
    if n == 0 {
      TablesNone(s1, d, 0);
    } else {
      assert X(0) == 0 && X(n - 1) == (n - 1) / 1024 < 512;
      FreshRun(s1, d, 0, n);
    }
  }

  lemma CopyCosts(data: nat, s0: Mem, s1: Mem, d: Pn, sz: nat)
    requires NewSpace(data, s0, s1, d) && sz <= KERNBASE
    ensures PgUp(sz) <= USERPAGES
    ensures |s0.free| >= CopyCost(sz) <==> |s1.free| >= PgUp(sz) + Fresh(s1, d, 0, PgUp(sz))
  {
    hide Pte, HasTable, KernelPte, Grew, PgUp, Fresh;
    PgUpRange(sz);
    UserTables(data, s0, s1, d, PgUp(sz));
  }

  /** The parent's page, read while the child grows. */
  lemma CopyParent(data: nat, s0: Mem, s: Mem, first: nat, e: Pn, d: Pn, vp: Vpn)
    requires Wf(s0, first) && s0.role[e] == Dir && Copying(s0, s, e, d, vp, KernelRest(data))
    requires vp < USERPAGES && Pte(s0, e, vp) != 0
    ensures s.role[e] == Dir && Pte(s, e, vp) == Pte(s0, e, vp)
    ensures Addr(Pte(s, e, vp)) < NPAGES && s.page[Addr(Pte(s, e, vp))] == s0.page[Addr(Pte(s, e, vp))]
    ensures Pte(s, d, vp) == KernelPte(data, vp) == 0
  {
    hide Wf, Pte, CopiedPage, Addr, Grew;
    OtherSpace(s0, s, first, d, e, vp);
  }

  lemma FlagsPresent(e: nat)
    requires Present(e)
    ensures Flags(e) < 4096 && OrPresent(Flags(e)) == Flags(e)
  {
    EntryOfParts(e);
  }

  lemma CopyHead(s0: Mem, s: Mem, first: nat, d: Pn)
    requires Wf(s, first) && s.free != [] && Grew(s0, s, d, -1) && s.role[d] == Dir
    ensures s.role[s.free[0]] == Free && s0.role[s.free[0]] == Free && s.free[0] != d
  {
    hide MapOk, KernelOk;
    FreeHead(s, first);
    GrewFree(s0, s, d, s.free[0]);
  }

  lemma IsGained(s: Mem, m: Mem, d: Pn, vp: Vpn, f: nat, pg: Page)
    requires s.free != [] && Mapped(Loaded(s, pg), m, d, vp, 1, s.free[0], f) && Grew(Loaded(s, pg), m, d, s.free[0])
    requires m.role[s.free[0]] == User(d, vp) && m.page[s.free[0]] == pg
    ensures Gained(s, m, d, vp, f, pg)
  {
    hide Mapped, Grew, Loaded;
  }

  // ---- copyout ----

  datatype Ka = NullPte | NotUser | Ka(p: Pn)

  datatype Outcome = Done | BadAddress | Faulted

  lemma PteOfNull(s: Mem, d: Pn, vp: Vpn)
    requires !HasTable(s, d, X(vp))
    ensures Pte(s, d, vp) == 0 && !Present(Pte(s, d, vp))
  {
    hide Ent, X, Addr;
  }

  lemma CopySame(s0: Mem, s: Mem, first: nat, d: Pn, va: nat, src: seq<byte>, vp: nat)
    requires Wf(s0, first) && s0.role[d] == Dir && Wrote(s0, s, d, va, src) && vp < 1048576
    ensures s.role[d] == Dir
    ensures UserAt(s, d, vp) <==> UserAt(s0, d, vp)
    ensures HasTable(s, d, X(vp)) <==> HasTable(s0, d, X(vp))
  {
    hide Wf, Pte, UserByte, Ent, X, Present, UserBit;
    OnlyBytesOk(s0, s, first, d);
  }

  lemma WroteOk(s: Mem, s': Mem, first: nat, d: Pn, va: nat, src: seq<byte>)
    requires Wf(s, first) && s.role[d] == Dir && Wrote(s, s', d, va, src)
    ensures Wf(s', first) && s'.role[d] == Dir
  {
    hide Wf, Pte, UserByte;
    OnlyBytesOk(s, s', first, d);
  }

  lemma UserNonzero(s: Mem, d: Pn, vp: Vpn)
    requires UserAt(s, d, vp)
    ensures Pte(s, d, vp) != 0
  {
    hide Pte;
  }

  lemma IsStored(s: Mem, s': Mem, p: Pn, pg: Page)
    requires s' == s.(page := s.page[p := pg])
    ensures s' == Stored(s, p, pg)
  {
  }

  lemma SpanInPage(va: nat, n: nat)
    requires va % 4096 + n <= 4096
    ensures va - va / 4096 * 4096 == va % 4096
    ensures forall w: nat :: va <= w < va + n ==> w / 4096 == va / 4096
    ensures va < KERNBASE ==> va + n <= KERNBASE
  {
  }

  /** Every byte of [va, va + n) lies on a user page. */
  predicate AllUser(s: Mem, d: Pn, va: nat, n: nat) {
    forall w: nat :: va <= w < va + n ==> w < UINT && UserAt(s, d, w / 4096)
  }

  lemma AllUserNone(s: Mem, d: Pn, va: nat)
    ensures AllUser(s, d, va, 0)
  {
    hide UserAt;
  }

  lemma AllUserFirst(s: Mem, d: Pn, va: nat, n: nat)
    requires AllUser(s, d, va, n) && n > 0 && va < UINT
    ensures UserAt(s, d, va / 4096)
  {
    hide UserAt;
  }

  lemma AllUserStep(s: Mem, d: Pn, va: nat, k: nat, n: nat)
    requires k < n && va + k < UINT && !UserAt(s, d, (va + k) / 4096)
    ensures !AllUser(s, d, va, n)
  {
    hide UserAt;
    assert va <= va + k < va + n;
  }

  lemma AllUserMore(s: Mem, d: Pn, va: nat, k: nat, m: nat)
    requires AllUser(s, d, va, k) && va + k + m < UINT && UserAt(s, d, (va + k) / 4096) && (va + k) % 4096 + m <= 4096
    ensures AllUser(s, d, va, k + m)
  {
    hide UserAt;
    forall w: nat | va <= w < va + k + m
      ensures w < UINT && UserAt(s, d, w / 4096)
    {
      if w >= va + k {
        assert w / 4096 == (va + k) / 4096;
      }
    }
  }

  lemma PageByPageNone(s: Mem, d: Pn, lo: nat, oldsz: nat, newsz: nat)
    requires lo == PgUp(newsz) && newsz < oldsz <= KERNBASE
    ensures lo <= 1048576 && PageByPage(s, d, lo, lo) == s
  {
  }

  lemma PageByPageNext(s: Mem, d: Pn, lo: nat, j: nat)
    requires lo <= j < 1048576
    ensures PageByPage(s, d, lo, j + 1) == DropPage(PageByPage(s, d, lo, j), d, j)
  {
    hide DropPage;
  }

  // ---- a stack pointer that wraps around ----

  /** The stack pointer after `n` bytes have been pushed. */
  function Dropped32(sp: nat, n: nat): (r: nat)
    requires sp < UINT && n < UINT
    ensures r < UINT
  {
    (if n <= sp then sp - n else sp + UINT - n) / 4 * 4
  }

  lemma WordBelow(sp: nat, n: nat)
    requires sp < UINT && n < UINT
    ensures var p := (sp + UINT - n) % UINT / 4 * 4;
            p == Dropped32(sp, n) && p % 4 == 0 && p <= (sp + UINT - n) % UINT < p + 4 && p < UINT
  {
    assert (sp + UINT - n) % UINT == if n <= sp then sp - n else sp + UINT - n;
  }

  /** Above the kernel's memory and below the devices. */
  predicate InGap(va: nat) {
    KERNBASE + PHYSTOP <= va < DEVSPACE
  }

  predicate NoGapTables(s: Mem, d: Pn) {
    forall x: Slot :: 568 <= x < 1016 ==> !HasTable(s, d, x)
  }

  lemma GapNull(s: Mem, d: Pn, va: nat)
    requires va < UINT
    ensures NoGapTables(s, d) && InGap(va) ==>
              va / 4096 < 1048576 && !HasTable(s, d, X(va / 4096)) && !UserAt(s, d, va / 4096)
  {
    hide HasTable, Pte, Present, UserBit;
    if NoGapTables(s, d) && InGap(va) {
      assert 568 <= va / 4096 / 1024 < 1016;
      PteOfNull(s, d, va / 4096);
    }
  }

  lemma {:induction false} Covers(s: seq<nat>, lo: nat, n: nat)
    requires forall p: nat :: lo <= p < lo + n ==> p in s
    ensures |s| >= n
    decreases n
  {
    if n > 0 {
      assert lo + n - 1 in s;
      var i :| 0 <= i < |s| && s[i] == lo + n - 1;
      var rest := s[..i] + s[i + 1..];
      forall p: nat | lo <= p < lo + (n - 1)
        ensures p in rest
      {
        assert p in s;
        var j :| 0 <= j < |s| && s[j] == p;
        assert p == if j < i then rest[j] else rest[j - 1];
      }
      Covers(rest, lo, n - 1);
    }
  }

  /** After kinit the free list is as long as there are pages above the kernel. */
  lemma FreeLength(s: Mem, first: nat)
    requires FreeOk(s) && first <= NPAGES
    requires forall p: Pn :: first <= p ==> s.role[p] == Free
    ensures |s.free| >= NPAGES - first
  {
    forall p: nat | first <= p < first + (NPAGES - first)
      ensures p in s.free
    {
      var q: Pn := p;
      assert s.role[q] == Free;
    }
    Covers(s.free, first, NPAGES - first);
  }

  lemma WfFree(s: Mem, first: nat)
    requires Wf(s, first)
    ensures FreeOk(s)
  {
    hide FreeOk;
  }

  lemma SpaceStart(data: nat, s0: Mem, s: Mem, d: Pn)
    requires NewSpace(data, s0, s, d) && |s0.free| >= 71
    ensures s.role[d] == Dir && |s.free| >= 6 && NoGapTables(s, d)
    ensures forall vp: Vpn :: vp < 3 ==> Pte(s, d, vp) == 0
  {
    hide Pte, HasTable, Grew;
  }

  lemma SpaceGrown(s: Mem, s': Mem, d: Pn, sz: nat)
    requires AllocResult(s, s', d, 0, 12288, sz) && |s.free| >= 6 && NoGapTables(s, d)
    ensures sz == 12288 && NoGapTables(s', d)
  {
    hide Pte, HasTable, Grew, Alloced;
    assert PgUp(0) == 0 && PgUp(12288) == 3;
    FreshAtMost(s, d, 0, 3);
    assert Needed(s, d, 0, 12288) <= 6;
  }

  lemma {:induction false} FreshAtMost(s: Mem, d: Pn, lo: nat, n: nat)
    requires lo + n <= 1048576
    ensures Fresh(s, d, lo, n) <= n
  {
    hide HasTable, X;
    if n > 0 {
      FreshAtMost(s, d, lo, n - 1);
    }
  }

  /** A program of three pages whose first argument is 32 megabytes and some long: the space that setupkvm and
      allocuvm have built for it, and the fault of copying the argument. */
  method StrayArgument(contents: Pages) returns (vm: Vm, d: Pn, sp: nat, r: Outcome)
    ensures fresh(vm) && vm.Valid() && vm.role[d] == Dir
    ensures sp == 0xFDFF_FFFC && r == Faulted
  {
    hide Wf, FreeOk, Pte, HasTable, NewSpace, AllocResult, Grew, NoGapTables, UserBit, Present;
    vm := new Vm(KERNBASE + 0x200000, KERNLINK + 0x8000, contents);
    vm.Kinit();
    WfFree(vm.State(), vm.First());
    FreeLength(vm.State(), vm.First());
    ghost var s0 := vm.State();
    var pg := vm.Setupkvm();
    d := pg.d;
    ghost var s := vm.State();
    SpaceStart(vm.data, s0, s, d);
    var sz := vm.Allocuvm(d, 0, 12288);
    SpaceGrown(s, vm.State(), d, sz);
    var str := seq(sz + 0x200_0003, k => 65);
    sp, r := vm.PushString(d, sz, str);
  }
}
