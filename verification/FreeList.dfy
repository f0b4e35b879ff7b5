/** The circular free list of the user heap (section 8.7 of The C Programming Language, 2nd ed.), as values.

    Addresses are byte addresses. `hdr` is the memory read as headers; only the headers of free and live blocks
    mean anything. `list` is the free list in address order, starting at the header `base`. */
module FreeList {
  const HDR := 8 // sizeof(Header)

  datatype Header = Header(ptr: nat, size: nat)

  type Headers = map<nat, Header>

  function Nx(hdr: Headers, a: nat): nat {
    if a in hdr then hdr[a].ptr else 0
  }

  function Sz(hdr: Headers, a: nat): nat {
    if a in hdr then hdr[a].size else 0
  }

  /** The address just after a block. */
  function End(hdr: Headers, a: nat): nat {
    a + HDR * Sz(hdr, a)
  }

  // ---- shape of the list ----

  predicate Linked(base: nat, hdr: Headers, list: seq<nat>) {
    && |list| > 0 && list[0] == base > 0 && Sz(hdr, base) == 0
    && (forall i :: 0 <= i < |list| ==> list[i] in hdr)
    && (forall i :: 0 <= i < |list| - 1 ==> Nx(hdr, list[i]) == list[i + 1])
    && Nx(hdr, list[|list| - 1]) == base
    && (forall i :: 1 <= i < |list| ==> Sz(hdr, list[i]) > 0 && base + HDR <= list[i])
  }

  /** Address order without overlap. */
  predicate Ordered(hdr: Headers, list: seq<nat>) {
    forall i, k :: 1 <= i < k < |list| ==> End(hdr, list[i]) <= list[k]
  }

  /** No two neighbours touch, except perhaps after positions `e` and `f`. */
  predicate Coalesced(hdr: Headers, list: seq<nat>, e: int, f: int) {
    forall i :: 1 <= i < |list| - 1 && i != e && i != f ==> End(hdr, list[i]) != list[i + 1]
  }

  predicate FreeOkBut(base: nat, hdr: Headers, list: seq<nat>, e: int, f: int) {
    Linked(base, hdr, list) && Ordered(hdr, list) && Coalesced(hdr, list, e, f)
  }

  predicate FreeOk(base: nat, hdr: Headers, list: seq<nat>) {
    FreeOkBut(base, hdr, list, -1, -1)
  }

  lemma Ascending(base: nat, hdr: Headers, list: seq<nat>, e: int, f: int, i: nat, k: nat)
    requires FreeOkBut(base, hdr, list, e, f) && i < k < |list|
    ensures list[i] < list[k] && (i > 0 ==> End(hdr, list[i]) <= list[k])
  {
  }

  // ---- blocks against the list ----

  predicate Apart(a: nat, n: nat, b: nat, m: nat) {
    a + HDR * n <= b || b + HDR * m <= a
  }

  predicate Clear(hdr: Headers, list: seq<nat>, a: nat, n: nat) {
    forall i :: 1 <= i < |list| ==> Apart(a, n, list[i], Sz(hdr, list[i]))
  }

  predicate Within(granted: set<nat>, a: nat, n: nat) {
    forall x: nat :: a <= x < a + HDR * n ==> x in granted
  }

  predicate AllWithin(granted: set<nat>, hdr: Headers, list: seq<nat>) {
    forall i :: 1 <= i < |list| ==> Within(granted, list[i], Sz(hdr, list[i]))
  }

  function Units(hdr: Headers, list: seq<nat>): nat {
    if list == [] then 0 else Sz(hdr, list[0]) + Units(hdr, list[1..])
  }

  lemma {:induction false} UnitsSplit(hdr: Headers, a: seq<nat>, b: seq<nat>)
    ensures Units(hdr, a + b) == Units(hdr, a) + Units(hdr, b)
  {
    if a == [] {
      assert a + b == b;
    } else {
      assert (a + b)[1..] == a[1..] + b;
      UnitsSplit(hdr, a[1..], b);
    }
  }

  lemma {:induction false} UnitsSame(hdr: Headers, hdr': Headers, list: seq<nat>)
    requires forall i :: 0 <= i < |list| ==> Sz(hdr', list[i]) == Sz(hdr, list[i])
    ensures Units(hdr', list) == Units(hdr, list)
  {
    if list != [] {
      UnitsSame(hdr, hdr', list[1..]);
    }
  }

  // ---- putting a block in ----

  /** The place for `b`: after position `j`. */
  predicate Place(list: seq<nat>, j: nat, b: nat) {
    j < |list| && list[j] < b && (j + 1 < |list| ==> b < list[j + 1])
  }

  function Added(list: seq<nat>, j: nat, b: nat): (r: seq<nat>)
    requires j < |list|
    ensures |r| == |list| + 1
  {
    list[..j + 1] + [b] + list[j + 1..]
  }

  function AddedHdr(hdr: Headers, list: seq<nat>, j: nat, b: nat): Headers
    requires j < |list|
  {
    hdr[b := Header(Nx(hdr, list[j]), Sz(hdr, b))][list[j] := Header(b, Sz(hdr, list[j]))]
  }

  lemma AddedAt(list: seq<nat>, j: nat, b: nat, i: nat)
    requires j < |list| && i <= |list|
    ensures Added(list, j, b)[i] == if i <= j then list[i] else if i == j + 1 then b else list[i - 1]
  {
  }

  /** Inserting changes the headers of `b` and of its predecessor only, and no size. */
  lemma AddedHeaders(base: nat, hdr: Headers, list: seq<nat>, j: nat, b: nat)
    requires FreeOk(base, hdr, list) && Place(list, j, b) && Sz(hdr, b) > 0
    ensures var h := AddedHdr(hdr, list, j, b);
            && (forall a :: Sz(h, a) == Sz(hdr, a))
            && (forall a :: a in hdr ==> a in h) && b in h
            && (forall a :: a != b && a != list[j] ==> Nx(h, a) == Nx(hdr, a))
            && Nx(h, b) == Nx(hdr, list[j]) && Nx(h, list[j]) == b
  {
  }

  lemma Elsewhere(base: nat, hdr: Headers, list: seq<nat>, j: nat, b: nat, i: nat)
    requires FreeOk(base, hdr, list) && Place(list, j, b) && i < |list| && i != j
    ensures list[i] != list[j] && list[i] != b
  {
    if i < j {
      Ascending(base, hdr, list, -1, -1, i, j);
    } else {
      Ascending(base, hdr, list, -1, -1, j, i);
      if i > j + 1 {
        Ascending(base, hdr, list, -1, -1, j + 1, i);
      }
    }
  }

  lemma AddLinked(base: nat, hdr: Headers, list: seq<nat>, j: nat, b: nat)
    requires FreeOk(base, hdr, list) && Place(list, j, b) && base + HDR <= b && Sz(hdr, b) > 0
    ensures Linked(base, AddedHdr(hdr, list, j, b), Added(list, j, b))
  {
    hide Added, AddedHdr, Ordered, Coalesced, Sz, Nx;
    var h, l := AddedHdr(hdr, list, j, b), Added(list, j, b);
    AddedHeaders(base, hdr, list, j, b);
    AddedAt(list, j, b, 0);
    forall i | 0 <= i < |l|
      ensures l[i] in h
      ensures i >= 1 ==> Sz(h, l[i]) > 0 && base + HDR <= l[i]
      ensures Nx(h, l[i]) == if i == |l| - 1 then base else l[i + 1]
    {
      AddedAt(list, j, b, i);
      if i < |list| {
        AddedAt(list, j, b, i + 1);
      }
      if i < j {
        Elsewhere(base, hdr, list, j, b, i);
      } else if i > j + 1 {
        Elsewhere(base, hdr, list, j, b, i - 1);
      }
    }
    AddedAt(list, j, b, |list|);
    if j + 1 < |list| {
      Elsewhere(base, hdr, list, j, b, |list| - 1);
    }
  }

  lemma AddCoalesced(base: nat, hdr: Headers, list: seq<nat>, j: nat, b: nat)
    requires FreeOk(base, hdr, list) && Place(list, j, b) && Sz(hdr, b) > 0
    ensures Coalesced(AddedHdr(hdr, list, j, b), Added(list, j, b), j, j + 1)
  {
    hide Added, AddedHdr, Ordered, Linked, Sz, Nx;
    var h, l := AddedHdr(hdr, list, j, b), Added(list, j, b);
    AddedHeaders(base, hdr, list, j, b);
    forall i | 1 <= i < |l| - 1 && i != j && i != j + 1
      ensures End(h, l[i]) != l[i + 1]
    {
      AddedAt(list, j, b, i);
      AddedAt(list, j, b, i + 1);
    }
  }

  lemma AddOk(base: nat, hdr: Headers, list: seq<nat>, j: nat, b: nat)
    requires FreeOk(base, hdr, list) && Place(list, j, b) && base + HDR <= b && Sz(hdr, b) > 0
    requires Clear(hdr, list, b, Sz(hdr, b))
    ensures FreeOkBut(base, AddedHdr(hdr, list, j, b), Added(list, j, b), j, j + 1)
  {
    hide Added, AddedHdr, Ordered, Linked, Coalesced, Sz, Clear;
    AddLinked(base, hdr, list, j, b);
    AddCoalesced(base, hdr, list, j, b);
    AddOrder(base, hdr, list, j, b);
  }

  lemma AddOrder(base: nat, hdr: Headers, list: seq<nat>, j: nat, b: nat)
    requires FreeOk(base, hdr, list) && Place(list, j, b) && base + HDR <= b && Sz(hdr, b) > 0
    requires Clear(hdr, list, b, Sz(hdr, b))
    ensures Ordered(AddedHdr(hdr, list, j, b), Added(list, j, b))
  {
    hide Added, AddedHdr, Linked, Coalesced, Sz;
    var h, l := AddedHdr(hdr, list, j, b), Added(list, j, b);
    AddedHeaders(base, hdr, list, j, b);
    forall i, k | 1 <= i < k < |l|
      ensures End(h, l[i]) <= l[k]
    {
      AddedAt(list, j, b, i);
      AddedAt(list, j, b, k);
      if i == j + 1 {
        if k > j + 2 {
          Ascending(base, hdr, list, -1, -1, j + 1, k - 1);
        }
        assert Apart(b, Sz(hdr, b), list[k - 1], Sz(hdr, list[k - 1]));
      } else if k == j + 1 {
        if i < j {
          Ascending(base, hdr, list, -1, -1, i, j);
        }
        assert Apart(b, Sz(hdr, b), list[i], Sz(hdr, list[i]));
      }
    }
  }

  // ---- merging neighbours ----

  function Merged(list: seq<nat>, i: nat): (r: seq<nat>)
    requires i + 1 < |list|
    ensures |r| == |list| - 1
  {
    list[..i + 1] + list[i + 2..]
  }

  function MergedHdr(hdr: Headers, list: seq<nat>, i: nat): Headers
    requires i + 1 < |list|
  {
    hdr[list[i] := Header(Nx(hdr, list[i + 1]), Sz(hdr, list[i]) + Sz(hdr, list[i + 1]))]
  }

  /** Block `i` takes over the block that starts where it ends. */
  predicate Touching(base: nat, hdr: Headers, list: seq<nat>, e: int, f: int, i: nat) {
    FreeOkBut(base, hdr, list, e, f) && 1 <= i && i + 1 < |list| && End(hdr, list[i]) == list[i + 1]
  }

  lemma MergedHeaders(base: nat, hdr: Headers, list: seq<nat>, e: int, f: int, i: nat)
    requires Touching(base, hdr, list, e, f, i)
    ensures var h := MergedHdr(hdr, list, i);
            && (forall a :: a != list[i] ==> Sz(h, a) == Sz(hdr, a) && Nx(h, a) == Nx(hdr, a))
            && (forall a :: a in hdr ==> a in h)
            && End(h, list[i]) == End(hdr, list[i + 1]) && Nx(h, list[i]) == Nx(hdr, list[i + 1])
            && Sz(h, list[i]) == Sz(hdr, list[i]) + Sz(hdr, list[i + 1])
    ensures forall k :: 0 <= k < |list| && k != i ==> list[k] != list[i]
    ensures forall k :: 0 <= k <= i ==> Merged(list, i)[k] == list[k]
    ensures forall k :: i < k < |list| - 1 ==> Merged(list, i)[k] == list[k + 1]
  {
    forall k | 0 <= k < |list| && k != i
      ensures list[k] != list[i]
    {
      if k < i {
        Ascending(base, hdr, list, e, f, k, i);
      } else {
        Ascending(base, hdr, list, e, f, i, k);
      }
    }
  }

  lemma MergeLinked(base: nat, hdr: Headers, list: seq<nat>, e: int, f: int, i: nat)
    requires Touching(base, hdr, list, e, f, i)
    ensures Linked(base, MergedHdr(hdr, list, i), Merged(list, i))
  {
    hide Merged, MergedHdr, Ordered, Coalesced, Sz, Nx;
    MergedHeaders(base, hdr, list, e, f, i);
    var h, l := MergedHdr(hdr, list, i), Merged(list, i);
    forall k | 0 <= k < |l|
      ensures l[k] in h
      ensures k >= 1 ==> Sz(h, l[k]) > 0 && base + HDR <= l[k]
      ensures Nx(h, l[k]) == if k == |l| - 1 then base else l[k + 1]
    {
    }
  }

  lemma MergeOrdered(base: nat, hdr: Headers, list: seq<nat>, e: int, f: int, i: nat)
    requires Touching(base, hdr, list, e, f, i)
    ensures Ordered(MergedHdr(hdr, list, i), Merged(list, i))
  {
    hide Merged, MergedHdr, Coalesced, Linked, Sz, Nx;
    MergedHeaders(base, hdr, list, e, f, i);
  }

  lemma MergeCoalesced(base: nat, hdr: Headers, list: seq<nat>, e: int, i: nat)
    requires Touching(base, hdr, list, e, i, i) && e < i
    ensures Coalesced(MergedHdr(hdr, list, i), Merged(list, i), e, -1)
  {
    hide Merged, MergedHdr, Linked, Ordered, Sz, Nx;
    MergedHeaders(base, hdr, list, e, i, i);
  }

  lemma Settled(base: nat, hdr: Headers, list: seq<nat>, e: int, f: int)
    requires FreeOkBut(base, hdr, list, e, f)
    requires f <= 0 || f + 1 >= |list| || End(hdr, list[f]) != list[f + 1]
    ensures FreeOkBut(base, hdr, list, e, -1) && (e <= 0 ==> FreeOkBut(base, hdr, list, -1, -1))
  {
    hide Linked, Ordered, Sz;
  }

  lemma Swapped(base: nat, hdr: Headers, list: seq<nat>, e: int, f: int)
    requires FreeOkBut(base, hdr, list, e, f)
    ensures FreeOkBut(base, hdr, list, f, e)
  {
  }

  lemma MergeOk(base: nat, hdr: Headers, list: seq<nat>, e: int, i: nat)
    requires Touching(base, hdr, list, e, i, i) && e < i
    ensures FreeOkBut(base, MergedHdr(hdr, list, i), Merged(list, i), e, -1)
  {
    hide Linked, Ordered, Coalesced, Merged, MergedHdr, Sz;
    MergeLinked(base, hdr, list, e, i, i);
    MergeOrdered(base, hdr, list, e, i, i);
    MergeCoalesced(base, hdr, list, e, i);
  }

  // ---- what inserting and merging do to the blocks ----

  /** The free blocks of (h, l) are exactly those of (hdr, list) and [b, b + n), as seen from any other block. */
  ghost predicate SameSpace(hdr: Headers, list: seq<nat>, b: nat, n: nat, h: Headers, l: seq<nat>) {
    && Units(h, l) == Units(hdr, list) + n
    && (forall c: nat, m: nat :: m > 0 && Clear(hdr, list, c, m) && Apart(c, m, b, n) ==> Clear(h, l, c, m))
    && (forall g: set<nat> :: AllWithin(g, hdr, list) && Within(g, b, n) ==> AllWithin(g, h, l))
  }

  lemma AddSpace(base: nat, hdr: Headers, list: seq<nat>, j: nat, b: nat)
    requires FreeOk(base, hdr, list) && Place(list, j, b) && Sz(hdr, b) > 0
    ensures SameSpace(hdr, list, b, Sz(hdr, b), AddedHdr(hdr, list, j, b), Added(list, j, b))
  {
    hide Linked, Ordered, Coalesced, AddedHdr, Sz, Within, Apart;
    var h, l := AddedHdr(hdr, list, j, b), Added(list, j, b);
    AddedHeaders(base, hdr, list, j, b);
    UnitsSame(hdr, h, l);
    UnitsSplit(hdr, list[..j + 1] + [b], list[j + 1..]);
    UnitsSplit(hdr, list[..j + 1], [b]);
    UnitsSplit(hdr, list[..j + 1], list[j + 1..]);
    assert list == list[..j + 1] + list[j + 1..];
    UnitsOne(hdr, b);
    forall i | 1 <= i < |l| && i != j + 1
      ensures exists k :: 1 <= k < |list| && list[k] == l[i]
    {
      AddedAt(list, j, b, i);
      assert l[i] == list[if i <= j then i else i - 1];
    }
  }

  lemma UnitsOne(hdr: Headers, b: nat)
    ensures Units(hdr, [b]) == Sz(hdr, b)
  {
    assert Units(hdr, [b]) == Sz(hdr, b) + Units(hdr, []);
  }

  lemma MergeSpace(base: nat, hdr: Headers, list: seq<nat>, e: int, f: int, i: nat)
    requires Touching(base, hdr, list, e, f, i)
    ensures SameSpace(hdr, list, 0, 0, MergedHdr(hdr, list, i), Merged(list, i))
  {
    hide Linked, Ordered, Coalesced, MergedHdr, Sz;
    var h, l := MergedHdr(hdr, list, i), Merged(list, i);
    MergedHeaders(base, hdr, list, e, f, i);
    MergeUnits(base, hdr, list, e, f, i);
    forall c: nat, m: nat | m > 0 && Clear(hdr, list, c, m)
      ensures Clear(h, l, c, m)
    {
      forall k | 1 <= k < |l|
        ensures Apart(c, m, l[k], Sz(h, l[k]))
      {
        assert Apart(c, m, list[i], Sz(hdr, list[i])) && Apart(c, m, list[i + 1], Sz(hdr, list[i + 1]));
      }
    }
    forall g: set<nat> | AllWithin(g, hdr, list)
      ensures AllWithin(g, h, l)
    {
      forall k | 1 <= k < |l|
        ensures Within(g, l[k], Sz(h, l[k]))
      {
        assert Within(g, list[i], Sz(hdr, list[i])) && Within(g, list[i + 1], Sz(hdr, list[i + 1]));
      }
    }
  }

  lemma MergeUnits(base: nat, hdr: Headers, list: seq<nat>, e: int, f: int, i: nat)
    requires Touching(base, hdr, list, e, f, i)
    ensures Units(MergedHdr(hdr, list, i), Merged(list, i)) == Units(hdr, list)
  {
    hide Linked, Ordered, Coalesced, MergedHdr, Sz, Units, End, Nx;
    var h := MergedHdr(hdr, list, i);
    MergedHeaders(base, hdr, list, e, f, i);
    var a, z := list[..i], list[i + 2..];
    assert Merged(list, i) == a + ([list[i]] + z);
    assert list == a + ([list[i]] + ([list[i + 1]] + z));
    UnitsSplit(h, a, [list[i]] + z);
    UnitsSplit(h, [list[i]], z);
    UnitsSplit(hdr, a, [list[i]] + ([list[i + 1]] + z));
    UnitsSplit(hdr, [list[i]], [list[i + 1]] + z);
    UnitsSplit(hdr, [list[i + 1]], z);
    UnitsOne(h, list[i]);
    UnitsOne(hdr, list[i]);
    UnitsOne(hdr, list[i + 1]);
    UnitsSame(hdr, h, a);
    UnitsSame(hdr, h, z);
  }

  // ---- the whole of free() ----

  /** The list with `b` put after position `j`, merged to the right and then to the left where they touch. */
  function InsertRight(hdr: Headers, list: seq<nat>, j: nat, b: nat): (Headers, seq<nat>)
    requires j < |list|
  {
    var h, l := AddedHdr(hdr, list, j, b), Added(list, j, b);
    if j + 1 < |list| && End(hdr, b) == list[j + 1] then (MergedHdr(h, l, j + 1), Merged(l, j + 1)) else (h, l)
  }

  function Insertion(hdr: Headers, list: seq<nat>, j: nat, b: nat): (Headers, seq<nat>)
    requires j < |list|
  {
    var (h, l) := InsertRight(hdr, list, j, b);
    if 1 <= j && End(hdr, list[j]) == b && j + 1 < |l| then (MergedHdr(h, l, j), Merged(l, j)) else (h, l)
  }

  predicate Insertable(base: nat, hdr: Headers, list: seq<nat>, j: nat, b: nat) {
    && FreeOk(base, hdr, list) && Place(list, j, b) && base + HDR <= b && Sz(hdr, b) > 0
    && Clear(hdr, list, b, Sz(hdr, b))
  }

  lemma RightOk(base: nat, hdr: Headers, list: seq<nat>, j: nat, b: nat)
    requires Insertable(base, hdr, list, j, b)
    ensures var (h, l) := InsertRight(hdr, list, j, b);
            && FreeOkBut(base, h, l, j, -1) && SameSpace(hdr, list, b, Sz(hdr, b), h, l)
            && j + 1 < |l| && l[..j + 1] == list[..j + 1] && l[j + 1] == b && Sz(h, b) >= Sz(hdr, b)
            && (forall a :: a != b ==> Sz(h, a) == Sz(hdr, a))
  {
    hide Linked, Ordered, Coalesced, AddedHdr, Added, MergedHdr, Merged, Sz, Nx, Within, Apart, SameSpace, Clear;
    var h, l := AddedHdr(hdr, list, j, b), Added(list, j, b);
    AddOk(base, hdr, list, j, b);
    AddSpace(base, hdr, list, j, b);
    AddedHeaders(base, hdr, list, j, b);
    AddedFront(list, j, b);
    if j + 1 < |list| {
      AddedAt(list, j, b, j + 2);
    }
    if j + 1 < |list| && End(hdr, b) == list[j + 1] {
      MergeOk(base, h, l, j, j + 1);
      MergeSpace(base, h, l, j, j + 1, j + 1);
      MergedHeaders(base, h, l, j, j + 1, j + 1);
      SpaceTrans(hdr, list, b, Sz(hdr, b), h, l, MergedHdr(h, l, j + 1), Merged(l, j + 1));
      MergedFront(l, j + 1, j + 1);
    } else {
      Settled(base, h, l, j, j + 1);
    }
  }

  lemma AddedFront(list: seq<nat>, j: nat, b: nat)
    requires j < |list|
    ensures Added(list, j, b)[..j + 1] == list[..j + 1] && Added(list, j, b)[j + 1] == b
  {
  }

  lemma MergedFront(list: seq<nat>, i: nat, k: nat)
    requires i + 1 < |list| && k <= i
    ensures Merged(list, i)[..k] == list[..k] && Merged(list, i)[i] == list[i]
  {
  }

  lemma SpaceTrans(hdr: Headers, list: seq<nat>, b: nat, n: nat, h: Headers, l: seq<nat>, h2: Headers, l2: seq<nat>)
    requires SameSpace(hdr, list, b, n, h, l) && SameSpace(h, l, 0, 0, h2, l2)
    ensures SameSpace(hdr, list, b, n, h2, l2)
  {
    hide Clear, AllWithin, Units;
  }

  lemma InsertionOk(base: nat, hdr: Headers, list: seq<nat>, j: nat, b: nat)
    requires Insertable(base, hdr, list, j, b)
    ensures var (h, l) := Insertion(hdr, list, j, b);
            && FreeOk(base, h, l) && SameSpace(hdr, list, b, Sz(hdr, b), h, l)
            && j < |l| && l[j] == list[j]
            && (forall a :: a != b && a !in list ==> Sz(h, a) == Sz(hdr, a))
            && exists x :: 1 <= x < |l| && Sz(h, l[x]) >= Sz(hdr, b)
  {
    hide Linked, Ordered, Coalesced, InsertRight, MergedHdr, Merged, Sz, Nx, Within, Apart, SameSpace, Clear;
    var (h, l) := InsertRight(hdr, list, j, b);
    RightOk(base, hdr, list, j, b);
    Swapped(base, h, l, j, -1);
    assert l[..j + 1][j] == l[j] && list[..j + 1][j] == list[j];
    SizeElse(base, hdr, list, j, b);
    if 1 <= j && End(hdr, list[j]) == b {
      MergeOk(base, h, l, -1, j);
      MergeSpace(base, h, l, j, -1, j);
      MergedHeaders(base, h, l, j, -1, j);
      SpaceTrans(hdr, list, b, Sz(hdr, b), h, l, MergedHdr(h, l, j), Merged(l, j));
      assert Merged(l, j)[j] == l[j];
      assert Sz(MergedHdr(h, l, j), Merged(l, j)[j]) >= Sz(hdr, b);
    } else {
      Settled(base, h, l, -1, j);
      assert Sz(h, l[j + 1]) >= Sz(hdr, b);
    }
  }

  /** The block before the place is not `b`. */
  lemma SizeElse(base: nat, hdr: Headers, list: seq<nat>, j: nat, b: nat)
    requires Insertable(base, hdr, list, j, b)
    ensures list[j] != b && list[j] in list
  {
  }

  /** The source's four assignments give the same headers. */
  lemma InsertionHeaders(base: nat, hdr: Headers, list: seq<nat>, j: nat, b: nat)
    requires Insertable(base, hdr, list, j, b) && b in hdr
    ensures var p := list[j];
            var next := Nx(hdr, p);
            var h1 := if b + HDR * Sz(hdr, b) == next
                      then hdr[b := Header(Nx(hdr, next), Sz(hdr, b) + Sz(hdr, next))]
                      else hdr[b := Header(next, Sz(hdr, b))];
            var h2 := if p + HDR * Sz(h1, p) == b
                      then h1[p := Header(Nx(h1, b), Sz(h1, p) + Sz(h1, b))]
                      else h1[p := Header(b, Sz(h1, p))];
            h2 == Insertion(hdr, list, j, b).0
  {
    hide Ordered, Coalesced, Within, Apart, SameSpace, Clear, Units, Merged, Added;
    RightOk(base, hdr, list, j, b);
    AddedFront(list, j, b);
    AddedAt(list, j, b, j);
    if j + 1 < |list| {
      AddedAt(list, j, b, j + 2);
    }
    var (h, l) := InsertRight(hdr, list, j, b);
    assert l[..j + 1][j] == l[j] && list[..j + 1][j] == list[j];
  }

  // ---- taking units out of a block ----

  /** Unlinking block `i` whole, or cutting `n` units off its end. The result names the block taken. */
  function Carved(hdr: Headers, list: seq<nat>, i: nat, n: nat): (Headers, seq<nat>, nat)
    requires 1 <= i < |list| && n <= Sz(hdr, list[i])
  {
    var p := list[i];
    if Sz(hdr, p) == n then
      (hdr[list[i - 1] := Header(Nx(hdr, p), Sz(hdr, list[i - 1]))], list[..i] + list[i + 1..], p)
    else
      var q := p + HDR * (Sz(hdr, p) - n);
      (hdr[p := Header(Nx(hdr, p), Sz(hdr, p) - n)][q := Header(Nx(hdr, q), n)], list, q)
  }

  predicate Carvable(base: nat, hdr: Headers, list: seq<nat>, i: nat, n: nat) {
    FreeOk(base, hdr, list) && 1 <= i < |list| && 0 < n <= Sz(hdr, list[i])
  }

  /** What is left is a free list, apart from the block taken and from everything that was apart before. */
  ghost predicate Took(hdr: Headers, list: seq<nat>, n: nat, h: Headers, l: seq<nat>, q: nat) {
    && Units(hdr, list) == Units(h, l) + n
    && Clear(h, l, q, n) && q in h && Sz(h, q) == n
    && (forall c: nat, m: nat :: m > 0 && Clear(hdr, list, c, m) ==> Clear(h, l, c, m) && Apart(c, m, q, n))
    && (forall g: set<nat> :: AllWithin(g, hdr, list) ==> AllWithin(g, h, l) && Within(g, q, n))
  }

  function Unlinked(list: seq<nat>, i: nat): (r: seq<nat>)
    requires i < |list|
    ensures |r| == |list| - 1
  {
    list[..i] + list[i + 1..]
  }

  lemma UnlinkHeaders(base: nat, hdr: Headers, list: seq<nat>, i: nat, n: nat)
    requires Carvable(base, hdr, list, i, n) && Sz(hdr, list[i]) == n
    ensures var (h, l, q) := Carved(hdr, list, i, n);
            && l == Unlinked(list, i) && q == list[i]
            && (forall a :: Sz(h, a) == Sz(hdr, a)) && (forall a :: a in hdr ==> a in h)
            && (forall a :: a != list[i - 1] ==> Nx(h, a) == Nx(hdr, a)) && Nx(h, list[i - 1]) == Nx(hdr, list[i])
    ensures forall k :: 0 <= k < |list| && k != i - 1 ==> list[k] != list[i - 1]
    ensures forall k :: 0 <= k < i ==> Unlinked(list, i)[k] == list[k]
    ensures forall k :: i <= k < |list| - 1 ==> Unlinked(list, i)[k] == list[k + 1]
  {
    forall k | 0 <= k < |list| && k != i - 1
      ensures list[k] != list[i - 1]
    {
      if k < i - 1 {
        Ascending(base, hdr, list, -1, -1, k, i - 1);
      } else {
        Ascending(base, hdr, list, -1, -1, i - 1, k);
      }
    }
  }

  lemma UnlinkLinked(base: nat, hdr: Headers, list: seq<nat>, i: nat, n: nat)
    requires Carvable(base, hdr, list, i, n) && Sz(hdr, list[i]) == n
    ensures var (h, l, q) := Carved(hdr, list, i, n); Linked(base, h, l)
  {
    hide Ordered, Coalesced, Carved, Unlinked, Sz, Nx;
    UnlinkHeaders(base, hdr, list, i, n);
    var (h, l, q) := Carved(hdr, list, i, n);
    forall k | 0 <= k < |l|
      ensures l[k] in h
      ensures k >= 1 ==> Sz(h, l[k]) > 0 && base + HDR <= l[k]
      ensures Nx(h, l[k]) == if k == |l| - 1 then base else l[k + 1]
    {
      assert l[k] == if k < i then list[k] else list[k + 1];
    }
    assert l[0] == list[0];
    LastLink(base, hdr, list, i, n);
  }

  lemma LastLink(base: nat, hdr: Headers, list: seq<nat>, i: nat, n: nat)
    requires Carvable(base, hdr, list, i, n) && Sz(hdr, list[i]) == n
    ensures var (h, l, q) := Carved(hdr, list, i, n); Nx(h, l[|l| - 1]) == base
  {
    hide Ordered, Coalesced, Carved, Unlinked, Sz, Nx;
    UnlinkHeaders(base, hdr, list, i, n);
    var (h, l, q) := Carved(hdr, list, i, n);
    if i == |list| - 1 {
      assert l[|l| - 1] == list[i - 1];
    } else {
      assert l[|l| - 1] == list[|list| - 1];
    }
  }

  lemma UnlinkOrdered(base: nat, hdr: Headers, list: seq<nat>, i: nat, n: nat)
    requires Carvable(base, hdr, list, i, n) && Sz(hdr, list[i]) == n
    ensures var (h, l, q) := Carved(hdr, list, i, n); Ordered(h, l) && Coalesced(h, l, -1, -1)
  {
    hide Linked, Carved, Unlinked, Nx;
    UnlinkHeaders(base, hdr, list, i, n);
    LinkedIn(base, hdr, list, i);
  }

  lemma UnlinkOk(base: nat, hdr: Headers, list: seq<nat>, i: nat, n: nat)
    requires Carvable(base, hdr, list, i, n) && Sz(hdr, list[i]) == n
    ensures var (h, l, q) := Carved(hdr, list, i, n); FreeOk(base, h, l)
  {
    hide Linked, Ordered, Coalesced, Carved, Unlinked, Nx, Sz;
    UnlinkLinked(base, hdr, list, i, n);
    UnlinkOrdered(base, hdr, list, i, n);
  }

  lemma UnlinkTook(base: nat, hdr: Headers, list: seq<nat>, i: nat, n: nat)
    requires Carvable(base, hdr, list, i, n) && Sz(hdr, list[i]) == n
    ensures var (h, l, q) := Carved(hdr, list, i, n); Took(hdr, list, n, h, l, q)
  {
    hide Linked, Ordered, Coalesced, Within, Sz, Nx, Carved, Unlinked, Units;
    var (h, l, q) := Carved(hdr, list, i, n);
    UnlinkHeaders(base, hdr, list, i, n);
    LinkedIn(base, hdr, list, i);
    UnlinkUnits(base, hdr, list, i, h);
    forall k | 1 <= k < |l|
      ensures Apart(q, n, l[k], Sz(h, l[k]))
    {
      if k < i {
        Ascending(base, hdr, list, -1, -1, k, i);
      } else {
        Ascending(base, hdr, list, -1, -1, i, k + 1);
      }
    }
    forall c: nat, m: nat | m > 0 && Clear(hdr, list, c, m)
      ensures Clear(h, l, c, m) && Apart(c, m, q, n)
    {
      assert Apart(c, m, list[i], Sz(hdr, list[i]));
    }
  }

  lemma LinkedIn(base: nat, hdr: Headers, list: seq<nat>, i: nat)
    requires Linked(base, hdr, list) && i < |list|
    ensures list[i] in hdr && (i > 0 ==> Sz(hdr, list[i]) > 0 && list[i] >= base + HDR)
  {
  }

  lemma UnlinkUnits(base: nat, hdr: Headers, list: seq<nat>, i: nat, h: Headers)
    requires i < |list| && forall a :: Sz(h, a) == Sz(hdr, a)
    ensures Units(hdr, list) == Units(h, Unlinked(list, i)) + Sz(hdr, list[i])
  {
    hide Sz, Units;
    var a, z := list[..i], list[i + 1..];
    assert list == a + ([list[i]] + z);
    UnitsSplit(hdr, a, [list[i]] + z);
    UnitsSplit(hdr, [list[i]], z);
    UnitsSplit(h, a, z);
    UnitsOne(hdr, list[i]);
    UnitsSame(hdr, h, a);
    UnitsSame(hdr, h, z);
  }

  /** Cutting the tail: the new header lies inside the block, so it is no list member. */
  lemma CutHeaders(base: nat, hdr: Headers, list: seq<nat>, i: nat, n: nat)
    requires Carvable(base, hdr, list, i, n) && Sz(hdr, list[i]) > n
    ensures var (h, l, q) := Carved(hdr, list, i, n);
            && l == list && q in h && Sz(h, q) == n && q + HDR * n == End(hdr, list[i]) && q == End(h, list[i])
            && Sz(h, list[i]) == Sz(hdr, list[i]) - n
            && (forall a :: a != q && a != list[i] ==> Sz(h, a) == Sz(hdr, a))
            && (forall a :: a != q ==> Nx(h, a) == Nx(hdr, a))
            && (forall a :: a in hdr ==> a in h)
    ensures forall k :: 0 <= k < |list| ==> list[k] != Carved(hdr, list, i, n).2 && (k != i ==> list[k] != list[i])
  {
    var q := Carved(hdr, list, i, n).2;
    forall k | 0 <= k < |list|
      ensures list[k] != q && (k != i ==> list[k] != list[i])
    {
      if k < i {
        Ascending(base, hdr, list, -1, -1, k, i);
      } else if k > i {
        Ascending(base, hdr, list, -1, -1, i, k);
      }
    }
  }

  lemma CutOk(base: nat, hdr: Headers, list: seq<nat>, i: nat, n: nat)
    requires Carvable(base, hdr, list, i, n) && Sz(hdr, list[i]) > n
    ensures var (h, l, q) := Carved(hdr, list, i, n); FreeOk(base, h, l)
  {
    hide Carved, Sz, Nx;
    CutHeaders(base, hdr, list, i, n);
    LinkedIn(base, hdr, list, i);
  }

  lemma CutTook(base: nat, hdr: Headers, list: seq<nat>, i: nat, n: nat)
    requires Carvable(base, hdr, list, i, n) && Sz(hdr, list[i]) > n
    ensures var (h, l, q) := Carved(hdr, list, i, n); Took(hdr, list, n, h, l, q)
  {
    hide Linked, Coalesced, Carved, Sz, Nx;
    var (h, l, q) := Carved(hdr, list, i, n);
    CutHeaders(base, hdr, list, i, n);
    CutUnits(hdr, list, i, n, h);
    forall k | 1 <= k < |l|
      ensures Apart(q, n, l[k], Sz(h, l[k]))
    {
      if k < i {
        Ascending(base, hdr, list, -1, -1, k, i);
      } else if k > i {
        Ascending(base, hdr, list, -1, -1, i, k);
      }
    }
    forall c: nat, m: nat | m > 0 && Clear(hdr, list, c, m)
      ensures Clear(h, l, c, m) && Apart(c, m, q, n)
    {
      assert Apart(c, m, list[i], Sz(hdr, list[i]));
      forall k | 1 <= k < |l|
        ensures Apart(c, m, l[k], Sz(h, l[k]))
      {
        assert Apart(c, m, list[k], Sz(hdr, list[k]));
      }
    }
    forall g: set<nat> | AllWithin(g, hdr, list)
      ensures AllWithin(g, h, l) && Within(g, q, n)
    {
      assert Within(g, list[i], Sz(hdr, list[i]));
      forall k | 1 <= k < |l|
        ensures Within(g, l[k], Sz(h, l[k]))
      {
        assert Within(g, list[k], Sz(hdr, list[k]));
      }
    }
  }

  lemma CutUnits(hdr: Headers, list: seq<nat>, i: nat, n: nat, h: Headers)
    requires i < |list| && n <= Sz(hdr, list[i]) && Sz(h, list[i]) == Sz(hdr, list[i]) - n
    requires forall k :: 0 <= k < |list| && k != i ==> Sz(h, list[k]) == Sz(hdr, list[k])
    ensures Units(hdr, list) == Units(h, list) + n
  {
    hide Sz, Units;
    var a, z := list[..i], list[i + 1..];
    assert list == a + ([list[i]] + z);
    UnitsSplit(hdr, a, [list[i]] + z);
    UnitsSplit(hdr, [list[i]], z);
    UnitsSplit(h, a, [list[i]] + z);
    UnitsSplit(h, [list[i]], z);
    UnitsOne(hdr, list[i]);
    UnitsOne(h, list[i]);
    UnitsSame(hdr, h, a);
    UnitsSame(hdr, h, z);
  }
}
