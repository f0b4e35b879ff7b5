/** Two-level page tables in physical memory, and who owns each physical page.

    Physical pages are numbered 0 .. PHYSTOP/PGSIZE; a directory or table is an ordinary page read as 1024
    little-endian words. `role` is the ownership ledger the proofs keep: it is not part of the kernel's state. */
module Paging {
  import opened Basics
  import opened Words

  const PGSIZE := 4096
  const PHYSTOP: int := 0xE00_0000
  const NPAGES := 57344 // PHYSTOP / PGSIZE
  const USERPAGES := 524288 // KERNBASE / PGSIZE

  type Page = s: seq<byte> | |s| == 4096 witness seq(4096, i => 0)
  type Pn = p: int | 0 <= p < 57344
  type Slot = y: int | 0 <= y < 1024
  type Vpn = v: int | 0 <= v < 1048576

  /** Kernel: below the end of the kernel image. Held: handed out by kalloc and owned by its caller.
      Table(d, x): the page table that slot x of directory d points to. User(d, vp): mapped at virtual page vp
      of the address space with directory d. */
  datatype Role = Kernel | Free | Held | Dir | Table(dir: Pn, x: Slot) | User(dir: Pn, vp: Vpn)

  type Pages = s: seq<Page> | |s| == 57344 witness seq<Page>(57344, i => Filled(0))
  type Roles = s: seq<Role> | |s| == 57344 witness seq(57344, i => Held)

  datatype Mem = Mem(page: Pages, role: Roles, free: seq<Pn>, head: nat)

  // ---- pages of words ----

  function Filled(c: byte): (z: Page)
    ensures forall i :: 0 <= i < 4096 ==> z[i] == c
  {
    seq(4096, i => c)
  }

  function Ent(pg: Page, y: Slot): nat {
    Word(pg, y)
  }

  function SetEnt(pg: Page, y: Slot, e: nat): Page {
    SetWord(pg, y, e)
  }

  lemma EntOfSet(pg: Page, y: Slot, e: nat, z: Slot)
    requires e < UINT
    ensures Ent(SetEnt(pg, y, e), z) == if z == y then e else Ent(pg, z)
  {
    WordOfSetWord(pg, y, e, z);
  }

  lemma EntOfZeros(z: Slot)
    ensures Ent(Filled(0), z) == 0
  {
    WordOfZeros(Filled(0), z);
  }

  lemma EntRange(pg: Page, y: Slot)
    ensures Ent(pg, y) < UINT
  {
    WordRange(pg, y);
  }

  // ---- entries ----

  function Entry(p: nat, flags: nat): nat {
    p * 4096 + flags
  }

  function Addr(e: nat): nat {
    e / 4096
  }

  function Flags(e: nat): (f: nat)
    ensures f < 4096
  {
    e % 4096
  }

  predicate Present(e: nat) {
    e % 2 == 1
  }

  predicate UserBit(e: nat) {
    e / 4 % 2 == 1
  }

  /** perm | PTE_P */
  function OrPresent(perm: nat): nat {
    if perm % 2 == 1 then perm else perm + 1
  }

  lemma EvenPlus(a: nat, b: nat)
    ensures (2 * a + b) % 2 == b % 2
  {
  }

  lemma HalfPlus(a: nat, b: nat)
    ensures (2 * a + b) / 2 == a + b / 2
  {
  }

  lemma QuarterPlus(a: nat, b: nat)
    ensures (4 * a + b) / 4 == a + b / 4
  {
  }

  lemma EntryPresent(p: nat, flags: nat)
    ensures Present(Entry(p, flags)) <==> Present(flags)
  {
    EvenPlus(p * 2048, flags);
  }

  lemma EntryUserBit(p: nat, flags: nat)
    ensures UserBit(Entry(p, flags)) <==> UserBit(flags)
  {
    QuarterPlus(p * 1024, flags);
    EvenPlus(p * 512, flags / 4);
  }

  lemma EntryAddr(p: nat, flags: nat)
    requires flags < 4096
    ensures Addr(Entry(p, flags)) == p && Flags(Entry(p, flags)) == flags
    ensures p < 1048576 ==> Entry(p, flags) < UINT
  {
  }

  lemma EntryParts(p: nat, flags: nat)
    requires p < 1048576 && flags < 4096
    ensures Addr(Entry(p, flags)) == p && Flags(Entry(p, flags)) == flags && Entry(p, flags) < UINT
    ensures Present(Entry(p, flags)) <==> Present(flags)
    ensures UserBit(Entry(p, flags)) <==> UserBit(flags)
    ensures Present(flags) ==> Entry(p, flags) != 0
  {
    hide Addr, Flags, UserBit, Present;
    EntryAddr(p, flags);
    EntryPresent(p, flags);
    EntryUserBit(p, flags);
    NotZero(flags);
  }

  lemma NotZero(e: nat)
    ensures Present(e) ==> e != 0
  {
  }

  lemma EntryOfParts(e: nat)
    ensures Entry(Addr(e), Flags(e)) == e
    ensures Present(Flags(e)) <==> Present(e)
    ensures UserBit(Flags(e)) <==> UserBit(e)
  {
    hide UserBit, Present;
    assert Entry(Addr(e), Flags(e)) == e;
    EntryPresent(Addr(e), Flags(e));
    EntryUserBit(Addr(e), Flags(e));
  }

  // ---- virtual pages ----

  function X(vp: Vpn): Slot {
    vp / 1024
  }

  function Y(vp: Vpn): Slot {
    vp % 1024
  }

  function Vp(x: Slot, y: Slot): Vpn {
    x * 1024 + y
  }

  lemma VpParts(x: Slot, y: Slot)
    ensures X(Vp(x, y)) == x && Y(Vp(x, y)) == y
    ensures Vp(x, y) < USERPAGES <==> x < 512
  {
  }

  lemma VpOfParts(vp: Vpn)
    ensures Vp(X(vp), Y(vp)) == vp
    ensures vp < USERPAGES <==> X(vp) < 512
  {
  }

  /** The kernel's address of a physical page. */
  function Kva(p: Pn): nat {
    KERNBASE + p * 4096
  }

  lemma KvaParts(p: Pn)
    ensures KERNBASE <= Kva(p) < UINT && (Kva(p) - KERNBASE) / 4096 == p
    ensures Kva(p) % 4096 == 0 && Kva(p) - KERNBASE < PHYSTOP
  {
  }

  /** What walking directory `d` finds for virtual page `vp`; 0 where there is no table. */
  function Pte(s: Mem, d: Pn, vp: Vpn): nat {
    var e := Ent(s.page[d], X(vp));
    if e == 0 || Addr(e) >= NPAGES then 0 else Ent(s.page[Addr(e)], Y(vp))
  }

  predicate HasTable(s: Mem, d: Pn, x: Slot) {
    Ent(s.page[d], x) != 0
  }

  // ---- the ownership invariant ----

  predicate FreeOk(s: Mem) {
    && s.head == (if s.free == [] then 0 else Kva(s.free[0]))
    && (forall i :: 0 <= i < |s.free| ==> s.role[s.free[i]] == Free)
    && (forall i :: 0 <= i < |s.free| ==> LinkAt(s.page, s.free, i))
    && (forall i, j :: 0 <= i < j < |s.free| ==> s.free[i] != s.free[j])
    && (forall p: Pn :: s.role[p] == Free ==> p in s.free)
  }

  /** The first word of a free page holds the address of the next one. */
  predicate LinkAt(page: Pages, free: seq<Pn>, i: int)
    requires 0 <= i < |free|
  {
    Ent(page[free[i]], 0) == if i + 1 < |free| then Kva(free[i + 1]) else 0
  }

  predicate PdeOk(s: Mem, d: Pn, x: Slot) {
    var e := Ent(s.page[d], x);
    e == 0 || (Addr(e) < NPAGES && e == Entry(Addr(e), 7) && s.role[Addr(e)] == Table(d, x))
  }

  predicate TableOk(s: Mem, t: Pn)
    requires s.role[t].Table?
  {
    var r := s.role[t];
    s.role[r.dir] == Dir && Ent(s.page[r.dir], r.x) == Entry(t, 7)
  }

  predicate PteOk(s: Mem, t: Pn, y: Slot)
    requires s.role[t].Table?
  {
    var r := s.role[t];
    var e := Ent(s.page[t], y);
    e == 0 || (Present(e) && (if r.x < 512 then Addr(e) < NPAGES && s.role[Addr(e)] == User(r.dir, Vp(r.x, y))
                              else !UserBit(e)))
  }

  predicate UserOk(s: Mem, p: Pn)
    requires s.role[p].User?
  {
    var r := s.role[p];
    s.role[r.dir] == Dir && r.vp < USERPAGES && Pte(s, r.dir, r.vp) != 0 && Addr(Pte(s, r.dir, r.vp)) == p
  }

  predicate DirsOk(s: Mem) {
    forall d: Pn, x: Slot :: s.role[d] == Dir ==> PdeOk(s, d, x)
  }

  predicate TablesOk(s: Mem) {
    forall t: Pn :: s.role[t].Table? ==> TableOk(s, t)
  }

  predicate EntriesOk(s: Mem) {
    forall t: Pn, y: Slot :: s.role[t].Table? ==> PteOk(s, t, y)
  }

  predicate UsersOk(s: Mem) {
    forall p: Pn :: s.role[p].User? ==> UserOk(s, p)
  }

  predicate MapOk(s: Mem) {
    DirsOk(s) && TablesOk(s) && EntriesOk(s) && UsersOk(s)
  }

  predicate KernelOk(s: Mem, first: nat) {
    forall p: Pn :: s.role[p] == Kernel <==> p < first
  }

  predicate Wf(s: Mem, first: nat) {
    FreeOk(s) && MapOk(s) && KernelOk(s, first)
  }

  // ---- reading facts off the invariant ----

  lemma TableAt(s: Mem, d: Pn, x: Slot)
    requires MapOk(s) && s.role[d] == Dir && HasTable(s, d, x)
    ensures Present(Ent(s.page[d], x)) && Addr(Ent(s.page[d], x)) < NPAGES
    ensures s.role[Addr(Ent(s.page[d], x))] == Table(d, x)
    ensures Ent(s.page[d], x) == Entry(Addr(Ent(s.page[d], x)), 7)
  {
    hide TablesOk, EntriesOk, UsersOk, Ent, Addr, Present, Entry;
    assert PdeOk(s, d, x);
    EntryParts(Addr(Ent(s.page[d], x)), 7);
    assert Present(7) by { PresentSeven(); }
  }

  lemma PresentSeven()
    ensures Present(7)
  {
  }

  lemma TableHere(s: Mem, t: Pn, y: Slot)
    requires MapOk(s) && s.role[t].Table?
    ensures s.role[s.role[t].dir] == Dir && HasTable(s, s.role[t].dir, s.role[t].x)
    ensures Addr(Ent(s.page[s.role[t].dir], s.role[t].x)) == t
    ensures Pte(s, s.role[t].dir, Vp(s.role[t].x, y)) == Ent(s.page[t], y)
  {
    hide DirsOk, EntriesOk, UsersOk, Ent, Addr, Present, Entry, X, Y, Vp;
    assert TableOk(s, t);
    EntryParts(t, 7);
    PresentSeven();
    VpParts(s.role[t].x, y);
  }

  /** Bits 22 to 31 of an address choose the slot of the directory, bits 12 to 21 that of the table. */
  lemma SlotsOf(va: nat)
    requires va < UINT
    ensures X(va / 4096) == va / 4096 / 1024 % 1024 && Y(va / 4096) == va / 4096 % 1024 == va / 0x1000 % 0x400
  {
  }

  /** Bits 22 to 31 of an address choose the directory entry, which holds the table's frame and the flags P, W, U. */
  lemma TableWord(s: Mem, d: Pn, va: nat, t: Pn)
    requires MapOk(s) && va < UINT && s.role[t] == Table(d, X(va / 4096))
    ensures Word(s.page[d], va / 0x40_0000) == 4096 * t + 7
  {
    hide DirsOk, EntriesOk, UsersOk, Word;
    assert TableOk(s, t);
  }

  /** The translation of an address that has a table, by the words of directory and table alone. */
  lemma PteWords(s: Mem, d: Pn, va: nat)
    requires MapOk(s) && s.role[d] == Dir && va < UINT && HasTable(s, d, X(va / 4096))
    ensures var t := Word(s.page[d], va / 0x40_0000) / 4096;
            t < NPAGES && Pte(s, d, va / 4096) == Word(s.page[t], va / 0x1000 % 0x400)
  {
    hide TablesOk, EntriesOk, UsersOk, Word;
    TableAt(s, d, X(va / 4096));
  }

  /** A user entry points at a page owned by exactly that address; a kernel entry never has the user bit. */
  lemma PteMeans(s: Mem, d: Pn, vp: Vpn)
    requires MapOk(s) && s.role[d] == Dir && Pte(s, d, vp) != 0
    ensures Present(Pte(s, d, vp)) && HasTable(s, d, X(vp))
    ensures vp < USERPAGES ==> Addr(Pte(s, d, vp)) < NPAGES && s.role[Addr(Pte(s, d, vp))] == User(d, vp)
    ensures vp >= USERPAGES ==> !UserBit(Pte(s, d, vp))
  {
    hide TablesOk, UsersOk, DirsOk, Ent, Addr, Present, Entry, X, Y, Vp, UserBit;
    var e := Ent(s.page[d], X(vp));
    assert e != 0;
    TableAt(s, d, X(vp));
    assert PteOk(s, Addr(e), Y(vp));
    VpOfParts(vp);
  }

  lemma PteOfUser(s: Mem, p: Pn)
    requires MapOk(s) && s.role[p].User?
    ensures s.role[s.role[p].dir] == Dir && s.role[p].vp < USERPAGES
    ensures Pte(s, s.role[p].dir, s.role[p].vp) != 0 && Addr(Pte(s, s.role[p].dir, s.role[p].vp)) == p
  {
    hide TablesOk, EntriesOk, DirsOk, Ent, Addr, Pte;
    assert UserOk(s, p);
  }

  // ---- steps that leave every map alone ----

  predicate Idle(r: Role) {
    r == Free || r == Held
  }

  predicate SameMaps(s: Mem, s': Mem) {
    forall p: Pn ::
      && (Idle(s.role[p]) <==> Idle(s'.role[p]))
      && (!Idle(s.role[p]) ==> s'.role[p] == s.role[p])
      && (s.role[p] == Dir || s.role[p].Table? ==> s'.page[p] == s.page[p])
  }

  lemma SamePte(s: Mem, s': Mem, d: Pn, vp: Vpn)
    requires MapOk(s) && SameMaps(s, s') && s.role[d] == Dir
    ensures Pte(s', d, vp) == Pte(s, d, vp)
  {
    hide TablesOk, EntriesOk, UsersOk, DirsOk, Ent, Addr, Present, Entry, X, Y;
    if HasTable(s, d, X(vp)) {
      TableAt(s, d, X(vp));
    }
  }

  lemma MapKept(s: Mem, s': Mem)
    requires MapOk(s) && SameMaps(s, s')
    ensures MapOk(s')
  {
    hide Ent, Addr, Present, Entry, X, Y, Vp, UserBit, Pte;
    forall d: Pn, x: Slot | s'.role[d] == Dir
      ensures PdeOk(s', d, x)
    {
      assert PdeOk(s, d, x);
    }
    forall t: Pn | s'.role[t].Table?
      ensures TableOk(s', t)
    {
      assert TableOk(s, t);
    }
    forall t: Pn, y: Slot | s'.role[t].Table?
      ensures PteOk(s', t, y)
    {
      assert PteOk(s, t, y);
    }
    forall p: Pn | s'.role[p].User?
      ensures UserOk(s', p)
    {
      assert UserOk(s, p);
      SamePte(s, s', s.role[p].dir, s.role[p].vp);
    }
  }

  // ---- steps of the free list ----

  function Taken(s: Mem): Mem
    requires s.free != []
  {
    s.(role := s.role[s.free[0] := Held], free := s.free[1..], head := Ent(s.page[s.free[0]], 0))
  }

  /** kfree fills the page with ones before it links it. */
  function Freed(s: Mem, p: Pn): Mem {
    Mem(s.page[p := SetEnt(Filled(1), 0, s.head)], s.role[p := Free], [p] + s.free, Kva(p))
  }

  function Stored(s: Mem, p: Pn, pg: Page): Mem {
    s.(page := s.page[p := pg])
  }

  lemma FreePop(s: Mem)
    requires FreeOk(s) && s.free != []
    ensures FreeOk(Taken(s)) && s.role[s.free[0]] == Free && SameMaps(s, Taken(s))
  {
    hide Ent, Kva;
    assert LinkAt(s.page, s.free, 0);
    var s' := Taken(s);
    forall i | 0 <= i < |s'.free|
      ensures LinkAt(s'.page, s'.free, i)
    {
      assert LinkAt(s.page, s.free, i + 1);
    }
    forall p: Pn | s'.role[p] == Free
      ensures p in s'.free
    {
      assert p in s.free;
    }
  }

  lemma HeadRange(s: Mem)
    requires FreeOk(s)
    ensures s.head < UINT
  {
    if s.free != [] {
      KvaParts(s.free[0]);
    }
  }

  lemma FreePush(s: Mem, p: Pn)
    requires FreeOk(s) && s.role[p] != Free
    ensures FreeOk(Freed(s, p))
  {
    hide Ent, Kva, SetEnt;
    var s' := Freed(s, p);
    HeadRange(s);
    EntOfSet(Filled(1), 0, s.head, 0);
    assert s'.free[0] == p;
    forall i | 0 <= i < |s'.free|
      ensures LinkAt(s'.page, s'.free, i)
    {
      if i > 0 {
        assert LinkAt(s.page, s.free, i - 1);
        assert s'.free[i] == s.free[i - 1] != p;
      }
    }
    forall q: Pn | s'.role[q] == Free
      ensures q in s'.free
    {
      if q != p {
        assert q in s.free;
      }
    }
  }

  predicate SameFree(s: Mem, s': Mem) {
    && s'.free == s.free
    && s'.head == s.head
    && forall p: Pn :: (s.role[p] == Free <==> s'.role[p] == Free) && (s.role[p] == Free ==> s'.page[p] == s.page[p])
  }

  lemma FreeKept(s: Mem, s': Mem)
    requires FreeOk(s) && SameFree(s, s')
    ensures FreeOk(s')
  {
    hide Ent, Kva;
    forall i | 0 <= i < |s'.free|
      ensures LinkAt(s'.page, s'.free, i)
    {
      assert LinkAt(s.page, s.free, i);
    }
  }

  // ---- steps of the maps ----

  function LinkTable(s: Mem, d: Pn, x: Slot, t: Pn): Mem {
    s.(page := s.page[d := SetEnt(s.page[d], x, Entry(t, 7))], role := s.role[t := Table(d, x)])
  }

  lemma LinkTablePte(s: Mem, d: Pn, x: Slot, t: Pn, d2: Pn, vp: Vpn)
    requires MapOk(s) && s.role[d] == Dir && !HasTable(s, d, x) && s.role[t] == Held && s.page[t] == Filled(0)
    requires s.role[d2] == Dir
    ensures Pte(LinkTable(s, d, x, t), d2, vp) == Pte(s, d2, vp)
  {
    hide TablesOk, EntriesOk, UsersOk, DirsOk, Ent, Addr, Present, Entry, X, Y, SetEnt;
    EntryParts(t, 7);
    EntOfSet(s.page[d], x, Entry(t, 7), X(vp));
    EntOfZeros(Y(vp));
    PresentSeven();
    if HasTable(s, d2, X(vp)) {
      TableAt(s, d2, X(vp));
    }
  }

  lemma LinkTableOk(s: Mem, d: Pn, x: Slot, t: Pn)
    requires MapOk(s) && s.role[d] == Dir && !HasTable(s, d, x) && s.role[t] == Held && s.page[t] == Filled(0)
    ensures MapOk(LinkTable(s, d, x, t))
    ensures Ent(LinkTable(s, d, x, t).page[d], x) == Entry(t, 7)
  {
    hide Ent, Addr, Present, Entry, X, Y, Vp, UserBit, Pte, SetEnt;
    var s' := LinkTable(s, d, x, t);
    EntryParts(t, 7);
    PresentSeven();
    EntOfSet(s.page[d], x, Entry(t, 7), x);
    forall d2: Pn, x2: Slot | s'.role[d2] == Dir
      ensures PdeOk(s', d2, x2)
    {
      assert PdeOk(s, d2, x2);
      EntOfSet(s.page[d], x, Entry(t, 7), x2);
    }
    forall t2: Pn | s'.role[t2].Table?
      ensures TableOk(s', t2)
    {
      if t2 != t {
        assert TableOk(s, t2);
        EntryParts(t2, 7);
        EntOfSet(s.page[d], x, Entry(t, 7), s.role[t2].x);
      }
    }
    forall t2: Pn, y: Slot | s'.role[t2].Table?
      ensures PteOk(s', t2, y)
    {
      EntOfZeros(y);
      if t2 != t {
        assert PteOk(s, t2, y);
      }
    }
    forall p: Pn | s'.role[p].User?
      ensures UserOk(s', p)
    {
      assert UserOk(s, p);
      LinkTablePte(s, d, x, t, s.role[p].dir, s.role[p].vp);
    }
  }

  /** Write entry `e` for virtual page `vp` into table `t`, changing the role of page `p` to `r`. */
  function PutPte(s: Mem, t: Pn, vp: Vpn, e: nat, p: Pn, r: Role): Mem {
    s.(page := s.page[t := SetEnt(s.page[t], Y(vp), e)], role := s.role[p := r])
  }

  lemma PutPteReads(s: Mem, t: Pn, vp: Vpn, e: nat, p: Pn, r: Role, d: Pn, vq: Vpn)
    requires MapOk(s) && s.role[t].Table? && X(vp) == s.role[t].x && e < UINT && s.role[d] == Dir
    ensures Pte(PutPte(s, t, vp, e, p, r), d, vq) ==
            if d == s.role[t].dir && vq == vp then e else Pte(s, d, vq)
  {
    hide TablesOk, EntriesOk, UsersOk, DirsOk, Ent, Addr, Present, Entry, X, Y, SetEnt, Vp;
    EntOfSet(s.page[t], Y(vp), e, Y(vq));
    VpOfParts(vp);
    VpOfParts(vq);
    TableHere(s, t, Y(vp));
    if HasTable(s, d, X(vq)) {
      TableAt(s, d, X(vq));
    }
  }

  /** The three ways entries change: a held page becomes a user page, a user page is given up, or a kernel
      entry is written. */
  predicate GoodPut(s: Mem, t: Pn, vp: Vpn, e: nat, p: Pn, r: Role) {
    && s.role[t].Table? && X(vp) == s.role[t].x && p != t && e < UINT
    && var was := Ent(s.page[t], Y(vp));
       || (vp < USERPAGES && was == 0 && Present(e) && Addr(e) == p && s.role[p] == Held
           && r == User(s.role[t].dir, vp))
       || (vp < USERPAGES && was != 0 && Addr(was) == p && e == 0 && Idle(r))
       || (vp < USERPAGES && was != 0 && Addr(was) == p && Present(e) && Addr(e) == p && r == s.role[p])
       || (vp >= USERPAGES && was == 0 && Present(e) && !UserBit(e) && r == s.role[p])
  }

  lemma PutPteOk(s: Mem, t: Pn, vp: Vpn, e: nat, p: Pn, r: Role)
    requires MapOk(s) && GoodPut(s, t, vp, e, p, r)
    ensures MapOk(PutPte(s, t, vp, e, p, r))
  {
    hide Ent, Addr, Present, Entry, X, Y, Vp, UserBit, Pte, SetEnt;
    var s' := PutPte(s, t, vp, e, p, r);
    VpOfParts(vp);
    TableHere(s, t, Y(vp));
    assert PteOk(s, t, Y(vp));
    forall d2: Pn, x2: Slot | s'.role[d2] == Dir
      ensures PdeOk(s', d2, x2)
    {
      assert PdeOk(s, d2, x2);
    }
    forall t2: Pn | s'.role[t2].Table?
      ensures TableOk(s', t2)
    {
      assert TableOk(s, t2);
    }
    forall t2: Pn, y: Slot | s'.role[t2].Table?
      ensures PteOk(s', t2, y)
    {
      PutEntryOk(s, t, vp, e, p, r, t2, y);
    }
    forall q: Pn | s'.role[q].User?
      ensures UserOk(s', q)
    {
      PutUserOk(s, t, vp, e, p, r, q);
    }
  }

  lemma PutEntryOk(s: Mem, t: Pn, vp: Vpn, e: nat, p: Pn, r: Role, t2: Pn, y: Slot)
    requires MapOk(s) && GoodPut(s, t, vp, e, p, r) && PutPte(s, t, vp, e, p, r).role[t2].Table?
    ensures PteOk(PutPte(s, t, vp, e, p, r), t2, y)
  {
    hide TablesOk, UsersOk, DirsOk, Ent, Addr, Present, Entry, X, Y, UserBit, SetEnt, Pte, Vp;
    VpOfParts(vp);
    assert PteOk(s, t, Y(vp));
    assert PteOk(s, t2, y);
    EntOfSet(s.page[t], Y(vp), e, y);
    VpParts(s.role[t2].x, y);
    TableHere(s, t, y);
    TableHere(s, t2, y);
  }

  lemma PutUserOk(s: Mem, t: Pn, vp: Vpn, e: nat, p: Pn, r: Role, q: Pn)
    requires MapOk(s) && GoodPut(s, t, vp, e, p, r) && PutPte(s, t, vp, e, p, r).role[q].User?
    ensures UserOk(PutPte(s, t, vp, e, p, r), q)
  {
    hide TablesOk, EntriesOk, DirsOk, Ent, Addr, Present, Entry, X, Y, UserBit, SetEnt, Pte, Vp;
    var w := PutPte(s, t, vp, e, p, r).role[q];
    TableHere(s, t, Y(vp));
    VpOfParts(vp);
    NotZero(e);
    assert vp < USERPAGES && Pte(s, s.role[t].dir, vp) != 0 ==>
             Addr(Ent(s.page[t], Y(vp))) < NPAGES && s.role[Addr(Ent(s.page[t], Y(vp)))] == User(s.role[t].dir, vp) by {
      if vp < USERPAGES && Pte(s, s.role[t].dir, vp) != 0 {
        PteMeans(s, s.role[t].dir, vp);
      }
    }
    if s.role[q].User? {
      assert UserOk(s, q);
    }
    PutPteReads(s, t, vp, e, p, r, w.dir, w.vp);
  }

  lemma WfTaken(s: Mem, first: nat)
    requires Wf(s, first) && s.free != []
    ensures Wf(Taken(s), first)
  {
    hide FreeOk, MapOk;
    FreePop(s);
    MapKept(s, Taken(s));
  }

  lemma WfFreed(s: Mem, first: nat, p: Pn)
    requires Wf(s, first) && s.role[p] == Held
    ensures Wf(Freed(s, p), first)
  {
    hide FreeOk, MapOk;
    FreePush(s, p);
    MapKept(s, Freed(s, p));
  }

  lemma WfStored(s: Mem, first: nat, p: Pn, pg: Page)
    requires Wf(s, first) && (s.role[p] == Held || s.role[p].User?)
    ensures Wf(Stored(s, p, pg), first)
  {
    hide FreeOk, MapOk;
    FreeKept(s, Stored(s, p, pg));
    MapKept(s, Stored(s, p, pg));
  }

  lemma WfLinkTable(s: Mem, first: nat, d: Pn, x: Slot, t: Pn)
    requires Wf(s, first) && s.role[d] == Dir && !HasTable(s, d, x) && s.role[t] == Held && s.page[t] == Filled(0)
    ensures Wf(LinkTable(s, d, x, t), first)
  {
    hide FreeOk, MapOk, HasTable;
    FreeKept(s, LinkTable(s, d, x, t));
    LinkTableOk(s, d, x, t);
  }

  lemma WfPut(s: Mem, first: nat, t: Pn, vp: Vpn, e: nat, p: Pn, r: Role)
    requires Wf(s, first) && GoodPut(s, t, vp, e, p, r) && r != Free && s.role[p] != Free
    requires s.role[p] == Kernel <==> r == Kernel
    ensures Wf(PutPte(s, t, vp, e, p, r), first)
  {
    hide FreeOk, MapOk, X, Y, Ent;
    FreeKept(s, PutPte(s, t, vp, e, p, r));
    PutPteOk(s, t, vp, e, p, r);
  }

  // ---- growing one address space ----

  predicate Mine(r: Role, p: Pn, d: Pn) {
    (p == d && r == Dir) || (r.Table? && r.dir == d) || (r.User? && r.dir == d)
  }

  /** Only directory `d` and its tables change, and it gains only pages that were free. */
  predicate GrewAt(s: Mem, s': Mem, d: Pn, p: Pn) {
    && (s.role[p] != Free ==> s'.role[p] == s.role[p])
    && (s.role[p] != Free && p != d && !(s.role[p].Table? && s.role[p].dir == d) ==> s'.page[p] == s.page[p])
    && (s.role[p] == Free ==> s'.role[p] == Free || Mine(s'.role[p], p, d))
  }

  predicate Grew(s: Mem, s': Mem, d: Pn, but: int) {
    forall p: Pn :: p != but ==> GrewAt(s, s', d, p)
  }

  /** Virtual pages [lo, lo + n) now map to physical pages from `pn` on, the others as before. */
  predicate Mapped(s: Mem, s': Mem, d: Pn, lo: nat, n: nat, pn: nat, f: nat) {
    forall vp: Vpn :: Pte(s', d, vp) == if lo <= vp < lo + n then Entry(pn + vp - lo, f) else Pte(s, d, vp)
  }

  lemma GrewTrans(s0: Mem, s1: Mem, s2: Mem, d: Pn, but: int)
    requires Grew(s0, s1, d, but) && Grew(s1, s2, d, but)
    ensures Grew(s0, s2, d, but)
  {
    forall p: Pn | p != but
      ensures GrewAt(s0, s2, d, p)
    {
      assert GrewAt(s0, s1, d, p) && GrewAt(s1, s2, d, p);
    }
  }

  /** The walk with alloc set: a missing table is taken from the free list, if there is a page. */
  function Walked(s: Mem, d: Pn, x: Slot): Mem {
    if HasTable(s, d, x) || s.free == [] then s else LinkTable(Stored(Taken(s), s.free[0], Filled(0)), d, x, s.free[0])
  }

  lemma WalkedOk(s: Mem, first: nat, d: Pn, x: Slot, but: int)
    requires Wf(s, first) && s.role[d] == Dir
    ensures Wf(Walked(s, d, x), first) && Grew(s, Walked(s, d, x), d, but)
    ensures forall d2: Pn, vp: Vpn :: s.role[d2] == Dir ==> Pte(Walked(s, d, x), d2, vp) == Pte(s, d2, vp)
    ensures HasTable(Walked(s, d, x), d, x) <==> HasTable(s, d, x) || s.free != []
  {
    hide Wf, Pte, Ent, SetEnt, SameMaps, Present, Entry;
    if !HasTable(s, d, x) && s.free != [] {
      var t := s.free[0];
      var s1 := Taken(s);
      var s2 := Stored(s1, t, Filled(0));
      WfTaken(s, first);
      FreeHead(s, first);
      WfStored(s1, first, t, Filled(0));
      WfLinkTable(s2, first, d, x, t);
      WfMap(s, first);
      WfMap(s2, first);
      LinkTableOk(s2, d, x, t);
      EntryParts(t, 7);
      PresentSeven();
      assert SameMaps(s, s2) by { ZeroedMaps(s, t, Filled(0)); }
      forall d2: Pn, vp: Vpn | s.role[d2] == Dir
        ensures Pte(Walked(s, d, x), d2, vp) == Pte(s, d2, vp)
      {
        SamePte(s, s2, d2, vp);
        LinkTablePte(s2, d, x, t, d2, vp);
      }
    }
  }

  lemma WfMap(s: Mem, first: nat)
    requires Wf(s, first)
    ensures MapOk(s) && FreeOk(s)
  {
  }

  lemma FreeHead(s: Mem, first: nat)
    requires Wf(s, first) && s.free != []
    ensures s.role[s.free[0]] == Free
  {
  }

  lemma ZeroedMaps(s: Mem, t: Pn, pg: Page)
    requires s.free != [] && t == s.free[0] && s.role[t] == Free
    ensures SameMaps(s, Stored(Taken(s), t, pg))
  {
  }

  /** One entry of mappages. `p` is the page given to a user mapping, or any page for a kernel one. */
  lemma MapStep(s: Mem, first: nat, d: Pn, vp: Vpn, t: Pn, pn: nat, f: nat, p: Pn)
    requires Wf(s, first) && s.role[d] == Dir && Pte(s, d, vp) == 0 && s.role[t] == Table(d, X(vp))
    requires pn < 1048576 && f < 4096 && Present(f)
    requires vp < USERPAGES ==> p == pn && s.role[p] == Held
    requires vp >= USERPAGES ==> !UserBit(f) && p == d
    ensures var r := if vp < USERPAGES then User(d, vp) else Dir;
            var s' := PutPte(s, t, vp, Entry(pn, f), p, r);
            Wf(s', first) && Mapped(s, s', d, vp, 1, pn, f) && Grew(s, s', d, p) && s'.role[d] == Dir
            && s'.role[p] == r && (vp < USERPAGES ==> s'.page[p] == s.page[p])
  {
    hide FreeOk, MapOk, KernelOk, Pte, Ent, SetEnt, Present, Entry, X, Y, UserBit, Addr;
    var e := Entry(pn, f);
    EntryParts(pn, f);
    TableHere(s, t, Y(vp));
    VpOfParts(vp);
    var r := if vp < USERPAGES then User(d, vp) else Dir;
    WfPut(s, first, t, vp, e, p, r);
    forall vq: Vpn
      ensures Pte(PutPte(s, t, vp, e, p, r), d, vq) == if vq == vp then e else Pte(s, d, vq)
    {
      PutPteReads(s, t, vp, e, p, r, d, vq);
    }
  }

  lemma MappedNone(s: Mem, d: Pn, lo: nat, pn: nat, f: nat, but: int)
    ensures Mapped(s, s, d, lo, 0, pn, f) && Grew(s, s, d, but)
  {
    hide Pte, Entry;
  }

  /** A walk and one more entry after the first `k`. */
  lemma MappedNext(s0: Mem, s: Mem, w: Mem, s': Mem, first: nat, d: Pn, lo: nat, k: nat, pn: nat, f: nat, but: int)
    requires Wf(s, first) && s.role[d] == Dir && s0.role[d] == Dir
    requires Mapped(s0, s, d, lo, k, pn, f) && Grew(s0, s, d, but)
    requires lo + k < 1048576 && w == Walked(s, d, X(lo + k))
    requires Mapped(w, s', d, lo + k, 1, pn + k, f) && Grew(w, s', d, but)
    ensures Mapped(s0, s', d, lo, k + 1, pn, f) && Grew(s0, s', d, but)
  {
    hide Wf, Pte, Entry, Walked, Mapped, X, Grew, GrewAt;
    WalkedOk(s, first, d, X(lo + k), but);
    GrewTrans(s0, s, w, d, but);
    WalkedDir(s, d, X(lo + k), first);
    GrewTrans(s0, w, s', d, but);
    MappedJoin(s0, s, w, s', d, lo, k, pn, f);
  }

  lemma WalkedDir(s: Mem, d: Pn, x: Slot, first: nat)
    requires Wf(s, first) && s.role[d] == Dir
    ensures Walked(s, d, x).role[d] == Dir
    ensures forall p: Pn :: s.role[p] != Free ==> Walked(s, d, x).role[p] == s.role[p]
    ensures forall p: Pn :: s.role[p] != Free && p != d ==> Walked(s, d, x).page[p] == s.page[p]
  {
    hide MapOk, KernelOk, Ent, SetEnt, Entry;
  }

  lemma MappedJoin(s0: Mem, s: Mem, w: Mem, s': Mem, d: Pn, lo: nat, k: nat, pn: nat, f: nat)
    requires Mapped(s0, s, d, lo, k, pn, f) && Mapped(w, s', d, lo + k, 1, pn + k, f)
    requires forall vp: Vpn :: Pte(w, d, vp) == Pte(s, d, vp)
    ensures Mapped(s0, s', d, lo, k + 1, pn, f)
  {
    hide Pte, Entry;
  }

  lemma MappedPast(s0: Mem, s: Mem, d: Pn, lo: nat, k: nat, pn: nat, f: nat)
    requires Mapped(s0, s, d, lo, k, pn, f) && lo + k < 1048576
    ensures Pte(s, d, lo + k) == Pte(s0, d, lo + k)
  {
    hide Pte, Entry;
  }

  lemma WalkedNone(s: Mem, d: Pn, x: Slot, first: nat)
    requires Wf(s, first) && s.role[d] == Dir && !HasTable(Walked(s, d, x), d, x)
    ensures Walked(s, d, x) == s && s.free == []
  {
    WalkedOk(s, first, d, x, -1);
  }

  lemma OrPresentOk(perm: nat)
    requires perm < 4096
    ensures OrPresent(perm) < 4096 && Present(OrPresent(perm))
  {
  }

  lemma FinishGrew(s0: Mem, s: Mem, d: Pn, q: Pn)
    requires Grew(s0, s, d, q) && s0.role[d] == Dir && s.role[d] == Dir
    ensures q == d ==> Grew(s0, s, d, -1)
  {
  }

  // ---- giving user pages back ----

  predicate InRange(r: Role, d: Pn, lo: nat, hi: nat) {
    r.User? && r.dir == d && lo <= r.vp < hi
  }

  /** Exactly the user pages of `d` at [lo, hi) are back on the free list, and their entries are clear. */
  predicate Dropped(s: Mem, s': Mem, d: Pn, lo: nat, hi: nat) {
    && (forall p: Pn :: s'.role[p] == if InRange(s.role[p], d, lo, hi) then Free else s.role[p])
    && (forall p: Pn ::
          !InRange(s.role[p], d, lo, hi) && s.role[p] != Free && !(s.role[p].Table? && s.role[p].dir == d) ==>
            s'.page[p] == s.page[p])
    && (forall vp: Vpn :: Pte(s', d, vp) == if lo <= vp < hi then 0 else Pte(s, d, vp))
  }

  lemma DroppedNone(s: Mem, d: Pn, lo: nat)
    ensures Dropped(s, s, d, lo, lo)
  {
    hide Pte;
  }

  /** Pages that are not mapped need no work. */
  lemma DropSkip(s0: Mem, s: Mem, first: nat, d: Pn, lo: nat, j: nat, k: nat)
    requires Wf(s0, first) && s0.role[d] == Dir && Dropped(s0, s, d, lo, j) && lo <= j <= k
    requires forall vp: Vpn :: j <= vp < k ==> Pte(s, d, vp) == 0
    ensures Dropped(s0, s, d, lo, k)
  {
    hide Pte, Wf, Ent, Addr;
    WfMap(s0, first);
    forall p: Pn | InRange(s0.role[p], d, j, k)
      ensures false
    {
      PteOfUser(s0, p);
    }
  }

  /** kfree(v) and then *pte = 0 come to the same as the other order. */
  lemma DropOrder(s: Mem, t: Pn, vp: Vpn, p: Pn)
    requires p != t
    ensures var f := Freed(s, p);
            f.(page := f.page[t := SetEnt(f.page[t], Y(vp), 0)]) == Freed(PutPte(s, t, vp, 0, p, Held), p)
  {
    hide SetEnt, Y;
    var f := Freed(s, p);
    assert f.page[t := SetEnt(f.page[t], Y(vp), 0)] == Freed(PutPte(s, t, vp, 0, p, Held), p).page;
    assert f.role == s.role[p := Held][p := Free];
  }

  lemma DropOne(s0: Mem, s: Mem, first: nat, d: Pn, lo: nat, vp: Vpn, t: Pn, p: Pn)
    requires Wf(s, first) && s.role[d] == Dir && Dropped(s0, s, d, lo, vp) && lo <= vp < USERPAGES
    requires s.role[t] == Table(d, X(vp)) && Pte(s, d, vp) != 0 && Addr(Pte(s, d, vp)) == p
    ensures s.role[p] == User(d, vp) && Ent(s.page[t], Y(vp)) == Pte(s, d, vp)
    ensures var s' := Freed(PutPte(s, t, vp, 0, p, Held), p);
            Wf(s', first) && Dropped(s0, s', d, lo, vp + 1) && s'.role[d] == Dir
  {
    hide FreeOk, MapOk, KernelOk, Dropped, Pte, Ent, SetEnt, Present, Entry, X, Y, UserBit, Addr;
    PteMeans(s, d, vp);
    VpOfParts(vp);
    TableHere(s, t, Y(vp));
    var s1 := PutPte(s, t, vp, 0, p, Held);
    WfPut(s, first, t, vp, 0, p, Held);
    WfFreed(s1, first, p);
    assert SameMaps(s1, Freed(s1, p));
    forall vq: Vpn
      ensures Pte(Freed(s1, p), d, vq) == if vq == vp then 0 else Pte(s, d, vq)
    {
      PutPteReads(s, t, vp, 0, p, Held, d, vq);
      SamePte(s1, Freed(s1, p), d, vq);
    }
    WfMap(s, first);
    forall q: Pn | s.role[q] == User(d, vp)
      ensures q == p
    {
      PteOfUser(s, q);
    }
    DropNext(s0, s, Freed(s1, p), d, lo, vp, t, p);
  }

  lemma DropNext(s0: Mem, s: Mem, s': Mem, d: Pn, lo: nat, vp: Vpn, t: Pn, p: Pn)
    requires Dropped(s0, s, d, lo, vp) && lo <= vp
    requires s.role[p] == User(d, vp) && forall q: Pn :: s.role[q] == User(d, vp) ==> q == p
    requires s.role[t] == Table(d, X(vp)) && s'.role == s.role[p := Free]
    requires forall q: Pn :: q != p && q != t ==> s'.page[q] == s.page[q]
    requires forall vq: Vpn :: Pte(s', d, vq) == if vq == vp then 0 else Pte(s, d, vq)
    ensures Dropped(s0, s', d, lo, vp + 1)
  {
    hide Pte, X;
  }

  /** The plain way to give one page back. */
  function DropPage(s: Mem, d: Pn, vp: Vpn): Mem {
    var e := Pte(s, d, vp);
    var t := Addr(Ent(s.page[d], X(vp)));
    if e == 0 || Addr(e) >= NPAGES || t >= NPAGES then s
    else Freed(PutPte(s, t, vp, 0, Addr(e), Held), Addr(e))
  }

  /** A loop over every page of [lo, hi), one at a time. */
  function PageByPage(s: Mem, d: Pn, lo: nat, hi: nat): Mem
    requires lo <= hi <= 1048576
    decreases hi - lo
  {
    if lo == hi then s else DropPage(PageByPage(s, d, lo, hi - 1), d, hi - 1)
  }

  /** Pages that are not mapped make no difference to it. */
  lemma {:induction false} SkipPages(s0: Mem, s: Mem, d: Pn, lo: nat, j: nat, k: nat)
    requires lo <= j <= k <= 1048576 && s == PageByPage(s0, d, lo, j)
    requires forall vp: Vpn :: j <= vp < k ==> Pte(s, d, vp) == 0
    ensures PageByPage(s0, d, lo, k) == s
  {
    hide Pte, Addr, Ent, X, Freed, PutPte;
    if j < k {
      SkipPages(s0, s, d, lo, j, k - 1);
    }
  }

  lemma DropPageIs(s: Mem, first: nat, d: Pn, vp: Vpn, t: Pn, p: Pn)
    requires Wf(s, first) && s.role[t] == Table(d, X(vp)) && Pte(s, d, vp) != 0 && Addr(Pte(s, d, vp)) == p
    ensures DropPage(s, d, vp) == Freed(PutPte(s, t, vp, 0, p, Held), p)
  {
    hide FreeOk, KernelOk, Pte, Ent, X, Y, Addr, Freed, PutPte;
    WfMap(s, first);
    TableHere(s, t, Y(vp));
  }

  /** Where a directory slot is empty, none of the 1024 pages it covers is mapped. */
  lemma NoTable(s: Mem, d: Pn, vp: Vpn, vq: Vpn)
    requires !HasTable(s, d, X(vp)) && vp <= vq < (vp / 1024 + 1) * 1024
    ensures Pte(s, d, vq) == 0
  {
    hide Ent, Addr;
    assert X(vq) == X(vp);
  }

  /** Pages of the kernel image belong to nobody. */
  lemma KernelLow(s: Mem, first: nat, p: Pn)
    requires Wf(s, first) && s.role[p] != Kernel
    ensures first <= p
  {
  }

  // ---- how many page tables a mapping needs ----

  /** The directory slots of [lo, lo + n) that had no table in `s`. */
  function Fresh(s: Mem, d: Pn, lo: nat, n: nat): nat
    requires lo + n <= 1048576
  {
    if n == 0 then 0
    else
      Fresh(s, d, lo, n - 1) +
      if !HasTable(s, d, X(lo + n - 1)) && (n == 1 || X(lo + n - 2) != X(lo + n - 1)) then 1 else 0
  }

  predicate TablesAre(s: Mem, s': Mem, d: Pn, lo: nat, n: nat)
    requires lo + n <= 1048576
  {
    forall x: Slot :: HasTable(s', d, x) <==> HasTable(s, d, x) || (n > 0 && X(lo) <= x <= X(lo + n - 1))
  }

  lemma FreshNext(s0: Mem, s: Mem, d: Pn, lo: nat, n: nat)
    requires lo + n < 1048576 && TablesAre(s0, s, d, lo, n)
    ensures Fresh(s0, d, lo, n + 1) == Fresh(s0, d, lo, n) + if HasTable(s, d, X(lo + n)) then 0 else 1
  {
    hide HasTable, X;
    XOrder(lo, lo + n);
    if n > 0 {
      XOrder(lo + n - 1, lo + n);
    }
  }

  lemma XOrder(v: Vpn, w: Vpn)
    requires v <= w
    ensures X(v) <= X(w) && (w <= v + 1 ==> X(w) <= X(v) + 1)
  {
  }

  lemma {:induction false} FreshMono(s: Mem, d: Pn, lo: nat, n: nat, m: nat)
    requires n <= m && lo + m <= 1048576
    ensures Fresh(s, d, lo, n) <= Fresh(s, d, lo, m)
  {
    if n < m {
      FreshMono(s, d, lo, n, m - 1);
    }
  }

  lemma TablesNext(s0: Mem, s: Mem, s': Mem, d: Pn, lo: nat, n: nat)
    requires lo + n < 1048576 && TablesAre(s0, s, d, lo, n)
    requires forall x: Slot :: HasTable(s', d, x) <==> HasTable(s, d, x) || x == X(lo + n)
    ensures TablesAre(s0, s', d, lo, n + 1)
  {
    hide HasTable, X;
    XOrder(lo, lo + n);
    if n > 0 {
      XOrder(lo + n - 1, lo + n);
    }
  }

  lemma TablesNone(s: Mem, d: Pn, lo: nat)
    requires lo <= 1048576
    ensures TablesAre(s, s, d, lo, 0) && Fresh(s, d, lo, 0) == 0
  {
    hide HasTable;
  }

  lemma WalkedTables(s: Mem, first: nat, d: Pn, x: Slot)
    requires Wf(s, first) && s.role[d] == Dir
    ensures forall z: Slot :: HasTable(Walked(s, d, x), d, z) <==> HasTable(s, d, z) || (z == x && s.free != [])
    ensures |s.free| == |Walked(s, d, x).free| + if HasTable(s, d, x) || s.free == [] then 0 else 1
  {
    hide MapOk, KernelOk, Entry, SetEnt, Ent, Present;
    if !HasTable(s, d, x) && s.free != [] {
      var t := s.free[0];
      EntryParts(t, 7);
      PresentSeven();
      forall z: Slot
        ensures Ent(SetEnt(s.page[d], x, Entry(t, 7)), z) == if z == x then Entry(t, 7) else Ent(s.page[d], z)
      {
        EntOfSet(s.page[d], x, Entry(t, 7), z);
      }
    }
  }

  lemma SameDirPage(s: Mem, s': Mem, d: Pn)
    requires s'.page[d] == s.page[d]
    ensures forall x: Slot :: HasTable(s', d, x) == HasTable(s, d, x)
  {
  }

  // ---- taking an address space apart ----

  /** After the user pages are gone: the tables of slots below `i` are free, all else is as in `s`. */
  predicate Dying(s: Mem, s': Mem, d: Pn, i: nat) {
    && (forall p: Pn :: s'.role[p] == if DyingAt(s.role[p], d, i) then Free else s.role[p])
    && (forall p: Pn :: s.role[p] != Free && !DyingAt(s.role[p], d, i) ==> s'.page[p] == s.page[p])
  }

  predicate DyingAt(r: Role, d: Pn, i: nat) {
    r.Table? && r.dir == d && r.x < i
  }

  lemma DyingNext(s: Mem, s1: Mem, first: nat, d: Pn, i: Slot)
    requires Wf(s, first) && s.role[d] == Dir && Dying(s, s1, d, i)
    ensures s1.page[d] == s.page[d]
    ensures HasTable(s, d, i) ==>
              && Present(Ent(s.page[d], i)) && Addr(Ent(s.page[d], i)) < NPAGES
              && s1.role[Addr(Ent(s.page[d], i))] == Table(d, i) && first <= Addr(Ent(s.page[d], i))
              && Dying(s, Freed(s1, Addr(Ent(s.page[d], i))), d, i + 1)
    ensures !HasTable(s, d, i) ==> Dying(s, s1, d, i + 1)
  {
    hide Ent, SetEnt, Entry, Addr, Present, Pte, EntriesOk, UsersOk, DirsOk, FreeOk;
    WfMap(s, first);
    forall p: Pn | s.role[p] == Table(d, i)
      ensures HasTable(s, d, i) && Addr(Ent(s.page[d], i)) == p
    {
      assert TableOk(s, p);
      EntryParts(p, 7);
      PresentSeven();
    }
    if HasTable(s, d, i) {
      TableAt(s, d, i);
    }
  }

  /** Every page of the address space, and no other, has become free. */
  predicate Removed(s: Mem, s': Mem, d: Pn) {
    && (forall p: Pn :: s'.role[p] == if Mine(s.role[p], p, d) then Free else s.role[p])
    && (forall p: Pn :: s.role[p] != Free && !Mine(s.role[p], p, d) ==> s'.page[p] == s.page[p])
  }

  lemma RemoveSpace(s: Mem, s': Mem, first: nat, d: Pn)
    requires Wf(s, first) && s.role[d] == Dir && Removed(s, s', d) && FreeOk(s')
    requires forall p: Pn :: s.role[p].User? ==> s.role[p].dir != d
    ensures Wf(s', first)
  {
    hide Ent, Addr, Present, Entry, X, Y, Vp, UserBit, Pte, FreeOk;
    WfMap(s, first);
    forall e: Pn, x: Slot | s'.role[e] == Dir
      ensures PdeOk(s', e, x)
    {
      assert PdeOk(s, e, x);
    }
    forall t: Pn | s'.role[t].Table?
      ensures TableOk(s', t)
    {
      assert TableOk(s, t);
    }
    forall t: Pn, y: Slot | s'.role[t].Table?
      ensures PteOk(s', t, y)
    {
      assert PteOk(s, t, y);
    }
    forall p: Pn | s'.role[p].User?
      ensures UserOk(s', p)
    {
      assert UserOk(s, p);
      RemovedPte(s, s', first, d, s.role[p].dir, s.role[p].vp);
    }
  }

  lemma RemovedPte(s: Mem, s': Mem, first: nat, d: Pn, e: Pn, vp: Vpn)
    requires Wf(s, first) && s.role[e] == Dir && e != d && Removed(s, s', d)
    ensures Pte(s', e, vp) == Pte(s, e, vp)
  {
    hide Ent, Addr, Present, Entry, X, Y, FreeOk, MapOk;
    if HasTable(s, e, X(vp)) {
      WfMap(s, first);
      TableAt(s, e, X(vp));
    }
  }

  lemma NoUsers(s: Mem, first: nat, d: Pn)
    requires Wf(s, first) && forall vp: Vpn :: vp < USERPAGES ==> Pte(s, d, vp) == 0
    ensures forall p: Pn :: s.role[p].User? ==> s.role[p].dir != d
  {
    hide Pte, Addr, FreeOk, MapOk;
    WfMap(s, first);
    forall p: Pn | s.role[p].User?
      ensures s.role[p].dir != d
    {
      PteOfUser(s, p);
    }
  }

  /** Dropping all user pages, then all tables, then the directory removes the space. */
  lemma DyingRemoved(s0: Mem, s: Mem, s1: Mem, first: nat, d: Pn)
    requires Wf(s0, first) && Wf(s, first) && s0.role[d] == Dir && Dropped(s0, s, d, 0, USERPAGES)
    requires Dying(s, s1, d, 1024)
    ensures s1.role[d] == Dir && first <= d
    ensures Removed(s, Freed(s1, d), d) && Removed(s0, Freed(s1, d), d)
    ensures forall p: Pn :: s.role[p].User? ==> s.role[p].dir != d
  {
    hide Pte, FreeOk, MapOk, SetEnt, Kva;
    NoUsers(s, first, d);
    WfMap(s0, first);
    forall p: Pn | s0.role[p].User?
      ensures s0.role[p].vp < USERPAGES
    {
      PteOfUser(s0, p);
    }
  }

  // ---- pages for a user range ----

  /** [lo, hi) is mapped to new zeroed pages, user and writable; nothing else of the space has changed. */
  predicate Alloced(s: Mem, s': Mem, d: Pn, lo: nat, hi: nat) {
    && Grew(s, s', d, -1)
    && forall vp: Vpn :: if lo <= vp < hi then NewPage(s, s', d, vp, 7, Filled(0)) else Pte(s', d, vp) == Pte(s, d, vp)
  }

  /** `vp` is mapped with flags `f` to a page that was free and now holds `pg`. */
  predicate NewPage(s: Mem, s': Mem, d: Pn, vp: Vpn, f: nat, pg: Page) {
    var e := Pte(s', d, vp);
    && Flags(e) == f && Addr(e) < NPAGES
    && s.role[Addr(e)] == Free
    && s'.role[Addr(e)] == User(d, vp)
    && s'.page[Addr(e)] == pg
  }

  lemma DyingNone(s: Mem, d: Pn)
    ensures Dying(s, s, d, 0)
  {
  }

  lemma DroppedDir(s: Mem, s': Mem, d: Pn)
    requires Dropped(s, s', d, 0, USERPAGES) && s.role[d] == Dir
    ensures s'.role[d] == Dir
  {
    hide Pte;
  }

  lemma AllocedNone(s: Mem, d: Pn, lo: nat)
    requires s.role[d] == Dir
    ensures Alloced(s, s, d, lo, lo)
  {
    hide Pte, NewPage;
  }

  lemma AllocedUnmapped(s0: Mem, s: Mem, d: Pn, lo: nat, j: nat, vp: Vpn)
    requires Alloced(s0, s, d, lo, j) && vp >= j
    ensures Pte(s, d, vp) == Pte(s0, d, vp)
  {
    hide Pte, NewPage, Grew;
  }

  /** A page from the free list, filled with `pg`. */
  function Loaded(s: Mem, pg: Page): Mem
    requires s.free != []
  {
    Stored(Taken(s), s.free[0], pg)
  }

  lemma LoadedOk(s: Mem, first: nat, d: Pn, pg: Page)
    requires Wf(s, first) && s.free != [] && s.role[d] == Dir
    ensures Wf(Loaded(s, pg), first) && SameMaps(s, Loaded(s, pg)) && s.role[s.free[0]] == Free
    ensures Loaded(s, pg).role == s.role[s.free[0] := Held] && Loaded(s, pg).page == s.page[s.free[0] := pg]
    ensures |Loaded(s, pg).free| + 1 == |s.free|
    ensures forall vp: Vpn :: Pte(Loaded(s, pg), d, vp) == Pte(s, d, vp)
    ensures forall x: Slot :: HasTable(Loaded(s, pg), d, x) == HasTable(s, d, x)
  {
    hide Wf, Pte, Ent, SameMaps;
    FreeHead(s, first);
    WfTaken(s, first);
    WfStored(Taken(s), first, s.free[0], pg);
    ZeroedMaps(s, s.free[0], pg);
    WfMap(s, first);
    forall vp: Vpn
      ensures Pte(Loaded(s, pg), d, vp) == Pte(s, d, vp)
    {
      SamePte(s, Loaded(s, pg), d, vp);
    }
    SameDirPage(s, Loaded(s, pg), d);
  }

  lemma AllocNext(s0: Mem, s: Mem, s': Mem, first: nat, d: Pn, lo: nat, vp: Vpn)
    requires Wf(s0, first) && Wf(s, first) && s.role[d] == Dir && s.free != []
    requires Alloced(s0, s, d, lo, vp) && lo <= vp && Gained(s, s', d, vp, 7, Filled(0))
    ensures Alloced(s0, s', d, lo, vp + 1)
  {
    hide Wf, Pte, NewPage, Grew, Gained, Filled;
    GainedFacts(s0, s, s', first, d, vp, 7, Filled(0));
    forall vq: Vpn | lo <= vq < vp
      ensures NewPage(s0, s', d, vq, 7, Filled(0))
    {
      assert NewPage(s0, s, d, vq, 7, Filled(0));
      NewPageKept(s0, s, s', first, d, vq, 7, Filled(0), vp, 7, Filled(0));
    }
  }

  /** One page taken from the free list, filled with `pg` and mapped at `vp` with flags `f`. */
  predicate Gained(s: Mem, s': Mem, d: Pn, vp: Vpn, f: nat, pg: Page)
    requires s.free != []
  {
    var p := s.free[0];
    && Mapped(Loaded(s, pg), s', d, vp, 1, p, f) && Grew(Loaded(s, pg), s', d, p)
    && s'.role[p] == User(d, vp) && s'.page[p] == pg
  }

  lemma GainedFacts(s0: Mem, s: Mem, s': Mem, first: nat, d: Pn, vp: Vpn, f: nat, pg: Page)
    requires Wf(s, first) && s.role[d] == Dir && s.free != [] && f < 4096 && Present(f)
    requires Grew(s0, s, d, -1) && Gained(s, s', d, vp, f, pg)
    ensures Grew(s0, s', d, -1) && NewPage(s0, s', d, vp, f, pg)
    ensures forall vq: Vpn :: vq != vp ==> Pte(s', d, vq) == Pte(s, d, vq)
  {
    hide Wf, Pte, NewPage, Flags, Addr, Entry, Grew, GrewAt, Loaded, Present;
    var p := s.free[0];
    LoadedOk(s, first, d, pg);
    GrewTaken(s0, s, s', d, p, pg);
    EntryParts(p, f);
    GrewFree(s0, s, d, p);
    IsNewPage(s0, s', d, vp, p, f, pg);
  }

  lemma IsNewPage(s0: Mem, s': Mem, d: Pn, vp: Vpn, p: Pn, f: nat, pg: Page)
    requires s0.role[p] == Free && Pte(s', d, vp) == Entry(p, f) && f < 4096
    requires s'.role[p] == User(d, vp) && s'.page[p] == pg
    ensures NewPage(s0, s', d, vp, f, pg)
  {
    hide Pte, Flags, Addr, Entry, Present, UserBit;
    EntryParts(p, f);
  }

  lemma NewPageKept(s0: Mem, s: Mem, s': Mem, first: nat, d: Pn, vq: Vpn, f: nat, pg: Page, vp: Vpn, f2: nat, pg2: Page)
    requires Wf(s, first) && NewPage(s0, s, d, vq, f, pg) && s.free != [] && s.role[d] == Dir && vq != vp
    requires Gained(s, s', d, vp, f2, pg2) && Pte(s', d, vq) == Pte(s, d, vq)
    ensures NewPage(s0, s', d, vq, f, pg)
  {
    hide Pte, Flags, Addr, Entry, Ent, GrewAt, Wf, Mapped;
    var q := Addr(Pte(s, d, vq));
    FreeHead(s, first);
    assert GrewAt(Loaded(s, pg2), s', d, q);
    GrewUser(Loaded(s, pg2), s', d, q);
  }

  lemma GrewUser(s: Mem, s': Mem, d: Pn, q: Pn)
    requires GrewAt(s, s', d, q) && s.role[q].User?
    requires s.role[d] == Dir
    ensures s'.role[q] == s.role[q] && s'.page[q] == s.page[q]
  {
  }

  lemma GrewFree(s0: Mem, s: Mem, d: Pn, p: Pn)
    requires Grew(s0, s, d, -1) && s.role[p] == Free
    ensures s0.role[p] == Free
  {
    assert GrewAt(s0, s, d, p);
  }

  lemma GrewTaken(s0: Mem, s: Mem, s': Mem, d: Pn, p: Pn, pg: Page)
    requires s.role[d] == Dir && s.free != [] && p == s.free[0] && s.role[p] == Free
    requires Grew(s0, s, d, -1) && Grew(Loaded(s, pg), s', d, p)
    ensures Grew(s0, s', d, p)
    ensures Mine(s'.role[p], p, d) ==> Grew(s0, s', d, -1)
  {
    hide Ent, Filled;
    forall q: Pn
      ensures q != p ==> GrewAt(s0, s', d, q)
      ensures Mine(s'.role[p], p, d) ==> GrewAt(s0, s', d, q)
    {
      assert GrewAt(s0, s, d, q);
      if q != p {
        assert GrewAt(Loaded(s, pg), s', d, q);
      }
    }
  }

  /** The mappings of `d` are as they were; at most page tables have been added. */
  predicate Restored(s: Mem, s': Mem, d: Pn) {
    && Grew(s, s', d, -1)
    && (forall vp: Vpn :: Pte(s', d, vp) == Pte(s, d, vp))
    && (forall p: Pn :: s'.role[p].User? ==> s'.role[p] == s.role[p])
  }

  /** Dropping [lo, hi) undoes everything mapped there since `s0`, when nothing was. */
  lemma DropRestores(s0: Mem, s: Mem, s': Mem, first: nat, d: Pn, lo: nat, hi: nat, but: int)
    requires Wf(s0, first) && Wf(s', first) && s0.role[d] == Dir && s'.role[d] == Dir
    requires forall vp: Vpn :: lo <= vp < hi ==> Pte(s0, d, vp) == 0
    requires forall vp: Vpn :: !(lo <= vp < hi) ==> Pte(s, d, vp) == Pte(s0, d, vp)
    requires Grew(s0, s, d, but) && Dropped(s, s', d, lo, hi)
    ensures Grew(s0, s', d, but)
    ensures forall vp: Vpn :: Pte(s', d, vp) == Pte(s0, d, vp)
    ensures forall p: Pn :: p != but && s'.role[p].User? ==> s'.role[p] == s0.role[p]
  {
    hide Wf, Pte, Addr, GrewAt;
    WfMap(s0, first);
    WfMap(s', first);
    forall p: Pn | s0.role[p].User? && s0.role[p].dir == d
      ensures !(lo <= s0.role[p].vp < hi)
    {
      PteOfUser(s0, p);
    }
    forall p: Pn | p != but
      ensures GrewAt(s0, s', d, p)
    {
      assert GrewAt(s0, s, d, p);
      GrewDropped(s0, s, s', d, p, lo, hi);
    }
    forall p: Pn | p != but && s'.role[p].User?
      ensures s'.role[p] == s0.role[p]
    {
      assert GrewAt(s0, s', d, p);
      if s0.role[p] == Free {
        MineUser(s0, s', d, p);
        PteOfUser(s', p);
        PteMeans(s0, d, s'.role[p].vp);
      }
      GrewRole(s0, s', d, p);
    }
  }

  lemma MineUser(s0: Mem, s': Mem, d: Pn, p: Pn)
    requires GrewAt(s0, s', d, p) && s0.role[p] == Free && s'.role[p].User?
    ensures s'.role[p].dir == d
  {
  }

  lemma GrewRole(s0: Mem, s': Mem, d: Pn, p: Pn)
    requires GrewAt(s0, s', d, p) && s0.role[p] != Free
    ensures s'.role[p] == s0.role[p]
  {
  }

  lemma GrewDropped(s0: Mem, s: Mem, s': Mem, d: Pn, p: Pn, lo: nat, hi: nat)
    requires GrewAt(s0, s, d, p) && Dropped(s, s', d, lo, hi) && !InRange(s0.role[p], d, lo, hi)
    ensures GrewAt(s0, s', d, p)
  {
    hide Pte;
  }

  lemma AllocedPart(s0: Mem, s: Mem, d: Pn, lo: nat, j: nat, hi: nat)
    requires Alloced(s0, s, d, lo, j) && j <= hi
    ensures Grew(s0, s, d, -1) && forall vp: Vpn :: !(lo <= vp < hi) ==> Pte(s, d, vp) == Pte(s0, d, vp)
  {
    hide Pte, NewPage, Grew;
  }

  lemma AllocedFree(s0: Mem, s: Mem, d: Pn, lo: nat, j: nat, p: Pn)
    requires Alloced(s0, s, d, lo, j) && s.role[p] == Free
    ensures s0.role[p] == Free
  {
    hide Pte, NewPage;
    GrewFree(s0, s, d, p);
  }

  lemma MappedPart(s0: Mem, s: Mem, m: Mem, d: Pn, lo: nat, j: nat, hi: nat, pn: nat, n: nat, f: nat)
    requires Alloced(s0, s, d, lo, j) && lo <= j < hi && s.free != [] && n == 0
    requires Mapped(Loaded(s, Filled(0)), m, d, j, n, pn, f)
    requires forall vp: Vpn :: Pte(Loaded(s, Filled(0)), d, vp) == Pte(s, d, vp)
    ensures Grew(s0, s, d, -1)
    ensures forall vp: Vpn :: !(lo <= vp < hi) ==> Pte(m, d, vp) == Pte(s0, d, vp)
  {
    hide Pte, NewPage, Grew, Entry, Loaded;
  }

  lemma NotUserDir(s: Mem, s': Mem, d: Pn, lo: nat, hi: nat)
    requires Dropped(s, s', d, lo, hi)
    ensures forall p: Pn :: !s.role[p].User? ==> s'.role[p] == s.role[p]
    ensures forall p: Pn :: s.role[p] == Held ==> s'.page[p] == s.page[p]
  {
    hide Pte;
  }

  lemma IsRestored(s0: Mem, s: Mem, d: Pn)
    requires Grew(s0, s, d, -1) && forall vp: Vpn :: Pte(s, d, vp) == Pte(s0, d, vp)
    requires forall p: Pn :: s.role[p].User? ==> s.role[p] == s0.role[p]
    ensures Restored(s0, s, d)
  {
    hide Pte, Grew;
  }

  /** Freeing the page that could not be mapped finishes the restoration. */
  lemma FreedRestored(s0: Mem, s: Mem, first: nat, d: Pn, p: Pn)
    requires Wf(s, first) && s.role[d] == Dir && s.role[p] == Held && s0.role[p] == Free
    requires Grew(s0, s, d, p) && forall vp: Vpn :: Pte(s, d, vp) == Pte(s0, d, vp)
    requires forall q: Pn :: q != p && s.role[q].User? ==> s.role[q] == s0.role[q]
    ensures Restored(s0, Freed(s, p), d)
  {
    hide Pte, Wf, SetEnt;
    WfMap(s, first);
    assert SameMaps(s, Freed(s, p));
    forall vp: Vpn
      ensures Pte(Freed(s, p), d, vp) == Pte(s0, d, vp)
    {
      SamePte(s, Freed(s, p), d, vp);
    }
    forall q: Pn
      ensures GrewAt(s0, Freed(s, p), d, q)
    {
      if q != p {
        assert GrewAt(s0, s, d, q);
      }
    }
  }

  lemma FreshOne(s: Mem, d: Pn, vp: Vpn)
    ensures Fresh(s, d, vp, 1) == if HasTable(s, d, X(vp)) then 0 else 1
    ensures Fresh(s, d, vp, 0) == 0
  {
    hide X, HasTable;
    assert Fresh(s, d, vp, 0) == 0;
  }

  lemma TablesStep(s0: Mem, s: Mem, b: Mem, m: Mem, d: Pn, lo: nat, k: nat)
    requires lo + k < 1048576 && TablesAre(s0, s, d, lo, k) && TablesAre(b, m, d, lo + k, 1)
    requires forall x: Slot :: HasTable(b, d, x) == HasTable(s, d, x)
    ensures TablesAre(s0, m, d, lo, k + 1)
  {
    hide X, HasTable, TablesAre;
    TablesOne(b, m, d, lo + k);
    TablesNext(s0, s, m, d, lo, k);
  }

  lemma TablesOne(b: Mem, m: Mem, d: Pn, v: Vpn)
    requires TablesAre(b, m, d, v, 1)
    ensures forall x: Slot :: HasTable(m, d, x) <==> HasTable(b, d, x) || x == X(v)
  {
    hide X, HasTable;
  }

  /** kalloc returned nothing. */
  lemma FirstFailure(s0: Mem, s: Mem, s': Mem, first: nat, d: Pn, lo: nat, j: nat, hi: nat)
    requires Wf(s0, first) && Wf(s', first) && s0.role[d] == Dir && s.role[d] == Dir
    requires forall vp: Vpn :: lo <= vp < hi ==> Pte(s0, d, vp) == 0
    requires Alloced(s0, s, d, lo, j) && j <= hi && Dropped(s, s', d, lo, hi)
    ensures Restored(s0, s', d) && s'.role[d] == Dir
  {
    hide Wf, Pte, Grew, Alloced, Dropped, Restored;
    AllocedPart(s0, s, d, lo, j, hi);
    NotUserDir(s, s', d, lo, hi);
    DropRestores(s0, s, s', first, d, lo, hi, -1);
    IsRestored(s0, s', d);
  }

  /** The page came, but mappages found no page for a table. */
  lemma SecondFailure(s0: Mem, s: Mem, m: Mem, f: Mem, first: nat, d: Pn, lo: nat, j: nat, hi: nat, n: nat)
    requires Wf(s0, first) && Wf(s, first) && Wf(f, first) && s0.role[d] == Dir && s.role[d] == Dir && m.role[d] == Dir
    requires forall vp: Vpn :: lo <= vp < hi ==> Pte(s0, d, vp) == 0
    requires Alloced(s0, s, d, lo, j) && lo <= j < hi && s.free != [] && n == 0
    requires Mapped(Loaded(s, Filled(0)), m, d, j, n, s.free[0], 7) && Grew(Loaded(s, Filled(0)), m, d, s.free[0])
    requires m.role[s.free[0]] == Held && Dropped(m, f, d, lo, hi)
    ensures f.role[s.free[0]] == Held && f.role[d] == Dir && FreeOk(f)
    ensures Wf(Freed(f, s.free[0]), first) && Restored(s0, Freed(f, s.free[0]), d) && Freed(f, s.free[0]).role[d] == Dir
  {
    hide Wf, Pte, Grew, Alloced, Dropped, Restored, Loaded, Mapped, FreeOk;
    var p := s.free[0];
    LoadedOk(s, first, d, Filled(0));
    MappedPart(s0, s, m, d, lo, j, hi, p, n, 7);
    GrewTaken(s0, s, m, d, p, Filled(0));
    NotUserDir(m, f, d, lo, hi);
    DropRestores(s0, m, f, first, d, lo, hi, p);
    AllocedFree(s0, s, d, lo, j, p);
    WfMap(f, first);
    WfFreed(f, first, p);
    FreedRestored(s0, f, first, d, p);
  }

  lemma IsLoaded(s: Mem, b: Mem, pg: Page)
    requires s.free != []
    requires b == Stored(Taken(s), s.free[0], pg)
    ensures b == Loaded(s, pg)
  {
  }

  // ---- a new address space ----

  function NewDir(s: Mem, d: Pn): Mem {
    s.(role := s.role[d := Dir])
  }

  /** A zeroed page is a directory that maps nothing. */
  lemma NewDirOk(s: Mem, first: nat, d: Pn)
    requires Wf(s, first) && s.role[d] == Held && s.page[d] == Filled(0)
    ensures Wf(NewDir(s, d), first)
    ensures forall vp: Vpn :: Pte(NewDir(s, d), d, vp) == 0
    ensures forall x: Slot :: !HasTable(NewDir(s, d), d, x)
  {
    hide Ent, Addr, Present, Entry, X, Y, Vp, UserBit, Pte, FreeOk;
    var s' := NewDir(s, d);
    WfMap(s, first);
    FreeKept(s, s');
    forall e: Pn, x: Slot | s'.role[e] == Dir
      ensures PdeOk(s', e, x)
    {
      EntOfZeros(x);
      assert e == d || PdeOk(s, e, x);
    }
    forall t: Pn | s'.role[t].Table?
      ensures TableOk(s', t)
    {
      assert TableOk(s, t);
    }
    forall t: Pn, y: Slot | s'.role[t].Table?
      ensures PteOk(s', t, y)
    {
      assert PteOk(s, t, y);
    }
    forall p: Pn | s'.role[p].User?
      ensures UserOk(s', p)
    {
      assert UserOk(s, p);
      NewDirPte(s, d, s.role[p].dir, s.role[p].vp);
    }
    forall vp: Vpn
      ensures Pte(s', d, vp) == 0
    {
      EntOfZeros(X(vp));
      NoEntry(s', d, vp);
    }
    forall x: Slot
      ensures !HasTable(s', d, x)
    {
      EntOfZeros(x);
    }
  }

  lemma NewDirPte(s: Mem, d: Pn, e: Pn, vp: Vpn)
    ensures Pte(NewDir(s, d), e, vp) == Pte(s, e, vp)
  {
    hide Ent, Addr;
  }

  lemma NoEntry(s: Mem, d: Pn, vp: Vpn)
    requires Ent(s.page[d], X(vp)) == 0
    ensures Pte(s, d, vp) == 0
  {
    hide Ent, Addr, X;
  }

  lemma {:induction false} FreshRun(s: Mem, d: Pn, lo: nat, n: nat)
    requires 0 < n && lo + n <= 1048576
    requires forall x: Slot :: X(lo) < x <= X(lo + n - 1) ==> !HasTable(s, d, x)
    ensures Fresh(s, d, lo, n) == X(lo + n - 1) - X(lo) + if HasTable(s, d, X(lo)) then 0 else 1
  {
    hide X, HasTable;
    FreshOne(s, d, lo);
    if n > 1 {
      XOrder(lo + n - 2, lo + n - 1);
      XOrder(lo, lo + n - 2);
      FreshRun(s, d, lo, n - 1);
    }
  }

  /** Ownership as before, and no page that is in use has changed. */
  predicate SameOwners(s: Mem, s': Mem) {
    s'.role == s.role && forall p: Pn :: s.role[p] != Free ==> s'.page[p] == s.page[p]
  }

  /** Building a space on a free page and removing it again gives every page back. */
  lemma RemovedFresh(s0: Mem, s: Mem, s': Mem, first: nat, d: Pn)
    requires Wf(s0, first) && s0.role[d] == Free && Grew(s0, s, d, -1) && Removed(s, s', d)
    ensures SameOwners(s0, s')
  {
    hide FreeOk, Ent, Entry, DirsOk, EntriesOk, UserOk;
    NobodyYet(s0, first, d);
    forall p: Pn
      ensures s'.role[p] == s0.role[p] && (s0.role[p] != Free ==> s'.page[p] == s0.page[p])
    {
      assert GrewAt(s0, s, d, p);
    }
  }

  /** A page that is not a directory has no tables and no user pages. */
  lemma NobodyYet(s: Mem, first: nat, d: Pn)
    requires Wf(s, first) && s.role[d] != Dir
    ensures forall p: Pn :: !Mine(s.role[p], p, d)
  {
    hide FreeOk, Ent, Entry, DirsOk, EntriesOk, Pte;
    WfMap(s, first);
    forall p: Pn
      ensures !Mine(s.role[p], p, d)
    {
      if s.role[p].User? {
        assert UserOk(s, p);
      } else if s.role[p].Table? {
        assert TableOk(s, p);
      }
    }
  }

  lemma GrewNewDir(s: Mem, s': Mem, first: nat, d: Pn)
    requires Wf(s, first) && s.free != [] && d == s.free[0] && Grew(NewDir(Loaded(s, Filled(0)), d), s', d, -1)
               && s'.role[d] == Dir
    ensures Grew(s, s', d, -1) && s.role[d] == Free
  {
    hide Ent, Filled, MapOk, KernelOk;
    WfMap(s, first);
    forall p: Pn
      ensures GrewAt(s, s', d, p)
    {
      assert GrewAt(NewDir(Loaded(s, Filled(0)), d), s', d, p);
    }
  }

  lemma SameOwnersSelf(s: Mem)
    ensures SameOwners(s, s)
  {
  }

  // ---- copying an address space ----

  /** Growing one space leaves the others alone. */
  lemma OtherSpace(s: Mem, s': Mem, first: nat, d: Pn, e: Pn, vp: Vpn)
    requires Wf(s, first) && Grew(s, s', d, -1) && s.role[e] == Dir && e != d && s.role[d] in {Dir, Free}
    ensures s'.role[e] == Dir && Pte(s', e, vp) == Pte(s, e, vp)
    ensures vp < USERPAGES && Pte(s, e, vp) != 0 ==>
              && Addr(Pte(s, e, vp)) < NPAGES && s'.role[Addr(Pte(s, e, vp))] == User(e, vp)
              && s'.page[Addr(Pte(s, e, vp))] == s.page[Addr(Pte(s, e, vp))]
  {
    hide FreeOk, MapOk, KernelOk, Ent, Addr, Entry, X, Y, Present, UserBit;
    WfMap(s, first);
    assert GrewAt(s, s', d, e);
    if HasTable(s, e, X(vp)) {
      TableAt(s, e, X(vp));
      assert GrewAt(s, s', d, Addr(Ent(s.page[e], X(vp))));
    }
    if Pte(s, e, vp) != 0 && vp < USERPAGES {
      PteMeans(s, e, vp);
      assert GrewAt(s, s', d, Addr(Pte(s, e, vp)));
    }
  }

  /** In `s'` page `vp` of space `d` has the flags and the bytes it has in space `e` of `s`, on a page that was free. */
  predicate CopiedPage(s: Mem, s': Mem, e: Pn, d: Pn, vp: Vpn) {
    var was := Pte(s, e, vp);
    Addr(was) < NPAGES && NewPage(s, s', d, vp, Flags(was), s.page[Addr(was)])
  }

  /** The new space `d` holds copies of the first `k` pages of `e`, and `rest` above them. */
  predicate Copying(s: Mem, s': Mem, e: Pn, d: Pn, k: nat, rest: Vpn -> nat) {
    && Grew(s, s', d, -1) && s.role[d] == Free && s'.role[d] == Dir
    && forall vp: Vpn :: if vp < k then CopiedPage(s, s', e, d, vp) else Pte(s', d, vp) == rest(vp)
  }

  lemma CopyNext(s0: Mem, s: Mem, s': Mem, first: nat, e: Pn, d: Pn, vp: Vpn, rest: Vpn -> nat)
    requires Wf(s0, first) && Wf(s, first) && s0.role[e] == Dir && s.free != []
    requires Copying(s0, s, e, d, vp, rest) && vp < USERPAGES && Pte(s0, e, vp) != 0 && Addr(Pte(s0, e, vp)) < NPAGES
    requires Gained(s, s', d, vp, Flags(Pte(s0, e, vp)), s0.page[Addr(Pte(s0, e, vp))])
    ensures Copying(s0, s', e, d, vp + 1, rest)
  {
    hide Wf, Pte, NewPage, Grew, Gained, Flags, Addr, Present, Entry;
    WfMap(s0, first);
    var was := Pte(s0, e, vp);
    PteMeans(s0, e, vp);
    EntryOfParts(was);
    FlagsLow(was);
    GainedFacts(s0, s, s', first, d, vp, Flags(was), s0.page[Addr(was)]);
    FreeHead(s, first);
    GainedDir(s, s', d, vp, Flags(was), s0.page[Addr(was)]);
    forall vq: Vpn
      ensures if vq < vp + 1 then CopiedPage(s0, s', e, d, vq) else Pte(s', d, vq) == rest(vq)
    {
      if vq < vp {
        assert CopiedPage(s0, s, e, d, vq);
        var w := Pte(s0, e, vq);
        NewPageKept(s0, s, s', first, d, vq, Flags(w), s0.page[Addr(w)], vp, Flags(was), s0.page[Addr(was)]);
      }
    }
  }

  lemma FlagsLow(e: nat)
    ensures Flags(e) < 4096
  {
  }

  lemma GainedDir(s: Mem, s': Mem, d: Pn, vp: Vpn, f: nat, pg: Page)
    requires s.free != [] && s.role[s.free[0]] == Free && Gained(s, s', d, vp, f, pg) && s.role[d] == Dir
    ensures s'.role[d] == Dir
  {
    hide Mapped;
    assert GrewAt(Loaded(s, pg), s', d, d);
  }

  /** kfree of the page that could not be mapped. */
  lemma FreedGrew(s0: Mem, s: Mem, d: Pn, p: Pn)
    requires Grew(s0, s, d, p) && s0.role[p] == Free && p != d
    ensures Grew(s0, Freed(s, p), d, -1) && Freed(s, p).role[d] == s.role[d]
  {
    forall q: Pn
      ensures GrewAt(s0, Freed(s, p), d, q)
    {
      if q != p {
        assert GrewAt(s0, s, d, q);
      }
    }
  }

  // ---- bytes of an address space ----

  /** A present entry with the user bit. */
  predicate UserAt(s: Mem, d: Pn, vp: Vpn) {
    Present(Pte(s, d, vp)) && UserBit(Pte(s, d, vp))
  }

  function UserByte(s: Mem, d: Pn, va: nat): byte
    requires va < UINT
  {
    var e := Pte(s, d, va / 4096);
    if e == 0 || Addr(e) >= NPAGES then 0 else s.page[Addr(e)][va % 4096]
  }

  /** A byte of a page that is new in the space. */
  lemma NewByte(s: Mem, s': Mem, d: Pn, va: nat, f: nat, pg: Page)
    requires MapOk(s') && va < KERNBASE && NewPage(s, s', d, va / 4096, f, pg)
    ensures UserByte(s', d, va) == pg[va % 4096]
    ensures Present(f) && (UserAt(s', d, va / 4096) <==> UserBit(f))
  {
    hide DirsOk, TablesOk, EntriesOk, Pte, Present, UserBit, Flags, Addr;
    var e := Pte(s', d, va / 4096);
    assert UserOk(s', Addr(e));
    PteMeans(s', d, va / 4096);
    EntryOfParts(e);
  }

  function Patched(pg: Page, o: nat, src: seq<byte>): (r: Page)
    requires o + |src| <= 4096
    ensures forall i :: 0 <= i < 4096 ==> r[i] == if o <= i < o + |src| then src[i - o] else pg[i]
  {
    pg[..o] + src + pg[o + |src|..]
  }

  /** Nothing but user pages of `d` has changed, and there only bytes. */
  predicate OnlyBytes(s: Mem, s': Mem, d: Pn) {
    && s'.role == s.role && s'.free == s.free && s'.head == s.head
    && forall p: Pn :: !(s.role[p].User? && s.role[p].dir == d) ==> s'.page[p] == s.page[p]
  }

  /** The user half of `d` reads as before, with `src` written at `va`. */
  predicate Wrote(s: Mem, s': Mem, d: Pn, va: nat, src: seq<byte>) {
    && OnlyBytes(s, s', d)
    && forall w: nat :: w < KERNBASE ==>
         UserByte(s', d, w) == if va <= w < va + |src| then src[w - va] else UserByte(s, d, w)
  }

  lemma OnlyBytesOk(s: Mem, s': Mem, first: nat, d: Pn)
    requires Wf(s, first) && OnlyBytes(s, s', d)
    ensures Wf(s', first)
    ensures forall e: Pn, vp: Vpn :: s.role[e] == Dir ==> Pte(s', e, vp) == Pte(s, e, vp)
  {
    hide Pte, FreeOk, MapOk;
    assert SameMaps(s, s');
    MapKept(s, s');
    FreeKept(s, s');
    forall e: Pn, vp: Vpn | s.role[e] == Dir
      ensures Pte(s', e, vp) == Pte(s, e, vp)
    {
      SamePte(s, s', e, vp);
    }
  }

  /** Writes in one space never show in another. */
  lemma BytesStayHome(s: Mem, s': Mem, first: nat, d: Pn, e: Pn, w: nat)
    requires Wf(s, first) && OnlyBytes(s, s', d) && s.role[e] == Dir && e != d && w < KERNBASE
    ensures UserByte(s', e, w) == UserByte(s, e, w)
  {
    hide Pte, Wf, Addr, OnlyBytes;
    OnlyBytesOk(s, s', first, d);
    WfMap(s, first);
    var x := Pte(s, e, w / 4096);
    if x != 0 {
      PteMeans(s, e, w / 4096);
      BytesElsewhere(s, s', d, Addr(x));
    }
  }

  lemma BytesElsewhere(s: Mem, s': Mem, d: Pn, p: Pn)
    requires OnlyBytes(s, s', d) && !(s.role[p].User? && s.role[p].dir == d)
    ensures s'.page[p] == s.page[p]
  {
  }

  /** A chunk within one page. */
  lemma WroteChunk(s: Mem, first: nat, d: Pn, va: nat, chunk: seq<byte>)
    requires Wf(s, first) && s.role[d] == Dir && va % 4096 + |chunk| <= 4096 && va < KERNBASE
    requires Pte(s, d, va / 4096) != 0
    ensures Addr(Pte(s, d, va / 4096)) < NPAGES && s.role[Addr(Pte(s, d, va / 4096))] == User(d, va / 4096)
    ensures var p := Addr(Pte(s, d, va / 4096));
            Wrote(s, Stored(s, p, Patched(s.page[p], va % 4096, chunk)), d, va, chunk)
  {
    hide Pte, Wf, Addr, UserBit, Present;
    WfMap(s, first);
    PteMeans(s, d, va / 4096);
    var p := Addr(Pte(s, d, va / 4096));
    var s' := Stored(s, p, Patched(s.page[p], va % 4096, chunk));
    OnlyBytesOk(s, s', first, d);
    forall w: nat | w < KERNBASE
      ensures UserByte(s', d, w) == if va <= w < va + |chunk| then chunk[w - va] else UserByte(s, d, w)
    {
      SamePage(va, |chunk|, w);
      if Pte(s, d, w / 4096) != 0 {
        PteMeans(s, d, w / 4096);
      }
    }
  }

  lemma SamePage(va: nat, n: nat, w: nat)
    requires va % 4096 + n <= 4096
    ensures va <= w < va + n <==> w / 4096 == va / 4096 && va % 4096 <= w % 4096 < va % 4096 + n
    ensures va <= w < va + n ==> w - va == w % 4096 - va % 4096
  {
  }

  lemma WroteMore(s0: Mem, s: Mem, s': Mem, d: Pn, va: nat, src: seq<byte>, k: nat, m: nat)
    requires k + m <= |src| && Wrote(s0, s, d, va, src[..k]) && Wrote(s, s', d, va + k, src[k..k + m])
    ensures Wrote(s0, s', d, va, src[..k + m])
  {
    hide UserByte;
    assert src[..k + m] == src[..k] + src[k..k + m];
  }

  lemma WroteNothing(s: Mem, d: Pn, va: nat)
    ensures Wrote(s, s, d, va, [])
  {
    hide UserByte;
  }

  // ---- what the ledger says about the machine ----

  /** A page mapped for the user is mapped once, in one space, and is neither free nor a table nor a directory. */
  lemma OneOwner(s: Mem, first: nat, d: Pn, vp: Vpn, e: Pn, vq: Vpn, x: Slot)
    requires Wf(s, first) && s.role[d] == Dir && s.role[e] == Dir && vp < USERPAGES && vq < USERPAGES
    requires Pte(s, d, vp) != 0
    ensures var p := Addr(Pte(s, d, vp));
            && first <= p < NPAGES && p !in s.free && p != e
            && (HasTable(s, e, x) ==> p != Addr(Ent(s.page[e], x)))
            && (Pte(s, e, vq) != 0 && Addr(Pte(s, e, vq)) == p ==> d == e && vp == vq)
  {
    hide Pte, Ent, Addr, MapOk, UserBit, Present, Entry, LinkAt;
    WfMap(s, first);
    PteMeans(s, d, vp);
    if Pte(s, e, vq) != 0 {
      PteMeans(s, e, vq);
    }
    if HasTable(s, e, x) {
      TableAt(s, e, x);
    }
  }

  /** Tables are not shared either, between spaces or slots. */
  lemma OneTable(s: Mem, first: nat, d: Pn, x: Slot, e: Pn, y: Slot)
    requires Wf(s, first) && s.role[d] == Dir && s.role[e] == Dir && HasTable(s, d, x) && HasTable(s, e, y)
    requires Addr(Ent(s.page[d], x)) == Addr(Ent(s.page[e], y))
    ensures d == e && x == y
  {
    hide Pte, Ent, Addr, MapOk, UserBit, Present, Entry, FreeOk;
    WfMap(s, first);
    TableAt(s, d, x);
    TableAt(s, e, y);
  }

  /** *pte &= ~PTE_U */
  function WithoutUser(e: nat): nat {
    if UserBit(e) then e - 4 else e
  }

  lemma MinusFour(e: nat, m: nat)
    requires e / 4 == 2 * m + 1
    ensures e >= 4 && (e - 4) / 4 == 2 * m
  {
  }

  lemma WithoutUserBit(e: nat)
    ensures !UserBit(WithoutUser(e)) && Addr(WithoutUser(e)) == Addr(e)
    ensures Present(WithoutUser(e)) <==> Present(e)
  {
    if UserBit(e) {
      MinusFour(e, e / 4 / 2);
      EvenPlus(e / 4 / 2, 0);
      EvenPlus(2, e - 4);
      BelowFour(e);
    }
  }

  /** An entry with the user bit does not lose its address when the bit goes. */
  lemma BelowFour(e: nat)
    requires e / 4 % 2 == 1
    ensures e >= 4 && (e - 4) / 4096 == e / 4096
  {
    var a, f := e / 4096, e % 4096;
    QuarterPlus(a * 1024, f);
    EvenPlus(a * 512, f / 4);
    assert f >= 4;
  }

  lemma HideUser(s: Mem, first: nat, d: Pn, vp: Vpn, t: Pn, p: Pn)
    requires Wf(s, first) && s.role[d] == Dir && s.role[t] == Table(d, X(vp))
    requires UserBit(Pte(s, d, vp)) && p == Addr(Pte(s, d, vp))
    ensures var s' := PutPte(s, t, vp, WithoutUser(Pte(s, d, vp)), p, s.role[p]);
            Wf(s', first) && s'.role == s.role && forall e: Pn, vq: Vpn :: s.role[e] == Dir ==>
              Pte(s', e, vq) == if e == d && vq == vp then WithoutUser(Pte(s, d, vp)) else Pte(s, e, vq)
  {
    hide Pte, Ent, SetEnt, Addr, MapOk, FreeOk, KernelOk, UserBit, Present, Entry, X, Y, Vp, WithoutUser;
    var e := Pte(s, d, vp);
    UserBitNonzero(e);
    PteMeans(s, d, vp);
    VpOfParts(vp);
    TableHere(s, t, Y(vp));
    WithoutUserBit(e);
    WithoutUserLess(e);
    EntRange(s.page[t], Y(vp));
    WfPut(s, first, t, vp, WithoutUser(e), p, s.role[p]);
    forall f: Pn, vq: Vpn | s.role[f] == Dir
      ensures Pte(PutPte(s, t, vp, WithoutUser(e), p, s.role[p]), f, vq) ==
              if f == d && vq == vp then WithoutUser(e) else Pte(s, f, vq)
    {
      PutPteReads(s, t, vp, WithoutUser(e), p, s.role[p], f, vq);
    }
  }

  lemma UserBitNonzero(e: nat)
    ensures UserBit(e) ==> e != 0
  {
  }

  lemma WithoutUserLess(e: nat)
    ensures WithoutUser(e) <= e
  {
  }
}
