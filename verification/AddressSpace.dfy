/** What a process sees of its page table: for every user page, nothing or a page
    of bytes with permissions. The kernel code below works in place on physical
    memory and is proved to change exactly the pages it should, in whatever way
    the tree of page-table pages grows, and with the allocator failing anywhere. */
module AddressSpace {
  import opened Options
  import opened PageTable

  /** A mapped user page: permissions and contents. */
  datatype UPage = UPage(r: bool, w: bool, x: bool, u: bool, bytes: seq<Byte>)

  ghost predicate UserPx(px: Px) {
    px.Ok() && !SystemPx(px)
  }

  /** What address space `r` has at the user page `px`. */
  ghost function Sees(m: Mem, r: Ppn, px: Px): Option<UPage> {
    match Lookup(m, r, px)
    case None => None
    case Some(e) =>
      if e.ppn in m.pages && m.pages[e.ppn].Data? then
        Some(UPage(e.r, e.w, e.x, e.u, m.pages[e.ppn].bytes))
      else None
  }

  ghost function At(m: Mem, r: Ppn, v: nat): Option<UPage> {
    Sees(m, r, PxOf(v))
  }

  ghost predicate SameSees(m: Mem, n: Mem) {
    forall r: Ppn, px: Px :: Owned(m, r, Root) && UserPx(px) ==> Sees(n, r, px) == Sees(m, r, px)
  }

  /** Pages in hand. */
  ghost function Hands(m: Mem): set<Ppn> {
    set q | q in m.owner && m.owner[q] == Hand
  }

  /** Everything but the interior of the trees is as it was. */
  ghost predicate Keeps(m: Mem, n: Mem) {
    && MemInv(n)
    && SameLookups(m, n) && SameSees(m, n)
    && OwnersKept(m, n)
  }

  /** Free pages may have become page-table pages, nothing else. */
  ghost predicate OwnersKept(m: Mem, n: Mem) {
    && m.owner.Keys == n.owner.Keys
    && Hands(n) == Hands(m)
    && (forall q :: q in m.owner && !m.owner[q].Free? ==> n.owner[q] == m.owner[q])
    && (forall q :: q in m.owner && (n.owner[q].Root? || n.owner[q].Frame?) ==> m.owner[q] == n.owner[q])
    && SameContents(m, n)
  }

  /** A page that holds data: a user page, a trapframe, or a page in hand. */
  ghost predicate HoldsData(o: Owner) {
    o.User? || o.Frame? || o.Hand?
  }

  ghost predicate SameContents(m: Mem, n: Mem) {
    forall q :: q in m.owner && HoldsData(m.owner[q]) && q in m.pages ==> q in n.pages && n.pages[q] == m.pages[q]
  }

  /** User slots lead to user pages. */
  lemma UserLeaf(m: Mem, r: Ppn, px: Px)
    requires MemInv(m) && Owned(m, r, Root) && UserPx(px) && Lookup(m, r, px).Some?
    ensures var e := Lookup(m, r, px).value;
            && e.v && e.Leaf() && e.ppn in m.owner && m.owner[e.ppn].User?
            && m.owner[e.ppn].root == r && m.owner[e.ppn].px == px
            && e.ppn in m.pages && m.pages[e.ppn].Data? && |m.pages[e.ppn].bytes| == PGSIZE
  {
    LookupPath(m, r, px);
    var l := Entry(m, Entry(m, r, px.i2).ppn, px.i1).ppn;
    assert PageOk(m, l);
    assert PageOk(m, Entry(m, l, px.i0).ppn);
  }

  lemma SeesFrame(m: Mem, n: Mem)
    requires MemInv(m) && SameLookups(m, n) && SameContents(m, n)
    ensures SameSees(m, n)
  {
    forall r: Ppn, px: Px | Owned(m, r, Root) && UserPx(px)
      ensures Sees(n, r, px) == Sees(m, r, px)
    {
      if Lookup(m, r, px).Some? {
        UserLeaf(m, r, px);
      }
    }
  }

  lemma LookupsTrans(a: Mem, b: Mem, c: Mem)
    requires SameLookups(a, b) && SameLookups(b, c)
    ensures SameLookups(a, c)
  {
    forall r: Ppn, px: Px | Owned(a, r, Root) && px.Ok()
      ensures Owned(c, r, Root) && Lookup(c, r, px) == Lookup(a, r, px)
    {
      assert Owned(b, r, Root);
    }
  }

  /** Growing the tree by one page-table page: kalloc, memset, link. */
  lemma GrowKeeps(m: Mem, t: Ppn, i: nat)
    requires MemInv(m) && m.free != [] && IsTable(m, t) && i < NPTE && !Entry(m, t, i).v
    requires t in m.owner && Inner(m.owner[t]) && (m.owner[t].Root? ==> i < NTOP)
    ensures var q := m.free[0];
            && CanPutTable(Take(m), t, i, q)
            && Keeps(m, PutTable(Take(m), t, i, q))
            && Owned(PutTable(Take(m), t, i, q), q, ChildOwner(m, t, i))
  {
    var q := m.free[0];
    assert Owned(m, q, Free);
    TakeInv(m);
    var a := Take(m);
    PutTableInv(a, t, i, q);
    var n := PutTable(a, t, i, q);
    LookupsTrans(m, a, n);
    GrowOwners(m, t, i);
    SeesFrame(m, n);
  }

  lemma GrowOwners(m: Mem, t: Ppn, i: nat)
    requires m.free != [] && Owned(m, m.free[0], Free) && m.pages.Keys == m.owner.Keys
    requires IsTable(m, t) && i < NPTE && !Entry(m, t, i).v && t in m.owner && Inner(m.owner[t])
    requires m.owner[t].Root? ==> i < NTOP
    ensures var q := m.free[0];
            && CanPutTable(Take(m), t, i, q)
            && var n := PutTable(Take(m), t, i, q);
               && OwnersKept(m, n)
               && n.owner[q] == ChildOwner(m, t, i)
  {
  }

  lemma KeepsTrans(a: Mem, b: Mem, c: Mem)
    requires MemInv(a) && Keeps(a, b) && Keeps(b, c)
    ensures Keeps(a, c)
  {
    forall r: Ppn, px: Px | Owned(a, r, Root) && px.Ok()
      ensures Owned(c, r, Root) && Lookup(c, r, px) == Lookup(a, r, px)
      ensures UserPx(px) ==> Sees(c, r, px) == Sees(a, r, px)
    {
      assert Owned(b, r, Root);
    }
  }

  lemma KeepsSelf(m: Mem)
    requires MemInv(m)
    ensures Keeps(m, m)
  {
  }

  class Machine {
    var pages: map<Ppn, Page>
    var free: seq<Ppn>
    ghost var owner: map<Ppn, Owner>

    ghost function M(): Mem
      reads this
    {
      Mem(pages, free, owner)
    }

    /** kinit: freerange frees every page once. */
    constructor (npages: nat)
      ensures MemInv(M()) && |free| == npages
      ensures forall q: Ppn :: q in owner <==> q < npages
      ensures forall q :: q in owner ==> owner[q] == Free
    {
      pages := map[];
      free := [];
      owner := map[];
      new;
      for p: Ppn := 0 to npages
        invariant pages.Keys == owner.Keys && |free| == p
        invariant forall q: Ppn :: q in owner <==> q < p
        invariant forall q :: q in owner ==> owner[q] == Free && q in free
        invariant forall i :: 0 <= i < |free| ==> free[i] < p
        invariant forall i, j :: 0 <= i < j < |free| ==> free[i] != free[j]
      {
        pages := pages[p := Filled(1)];
        free := [p] + free;
        owner := owner[p := Free];
      }
    }

    /** kalloc. */
    method Kalloc() returns (p: Option<Ppn>)
      requires MemInv(M())
      modifies this
      ensures MemInv(M())
      ensures p == if old(free) == [] then None else Some(old(free)[0])
      ensures M() == if old(free) == [] then old(M()) else Take(old(M()))
    {
      if free == [] {
        return None;
      }
      TakeInv(M());
      p := Some(free[0]);
      pages := pages[free[0] := Filled(5)];
      owner := owner[free[0] := Hand];
      free := free[1..];
    }

    /** kfree. */
    method Kfree(p: Ppn)
      requires MemInv(M()) && Owned(M(), p, Hand)
      modifies this
      ensures MemInv(M()) && M() == Give(old(M()), p)
    {
      GiveInv(M(), p);
      pages := pages[p := Filled(1)];
      free := [p] + free;
      owner := owner[p := Free];
    }

    /** The part of walk that adds a page-table page. */
    method AddTable(t: Ppn, i: nat) returns (q: Option<Ppn>)
      requires MemInv(M()) && t in owner && Inner(owner[t]) && i < NPTE && (owner[t].Root? ==> i < NTOP)
      requires IsTable(M(), t) && !Entry(M(), t, i).v
      modifies this
      ensures q.Some? ==> Keeps(old(M()), M())
      ensures q.Some? ==> Owned(M(), q.value, ChildOwner(old(M()), t, i)) && Entry(M(), t, i) == Ptr(q.value)
      ensures q.None? ==> M() == old(M()) && free == []
      ensures |free| + 1 >= |old(free)|
    {
      ghost var m0 := M();
      q := Kalloc();
      if q.Some? {
        GrowKeeps(m0, t, i);
        PutTableEntries(M(), t, i, q.value);
        Hang(t, i, q.value);
      }
    }

    /** The page in hand becomes the empty table behind entry `i`. */
    method Hang(t: Ppn, i: nat, q: Ppn)
      requires CanPutTable(M(), t, i, q) && t in owner && Inner(owner[t])
      modifies this
      ensures M() == PutTable(old(M()), t, i, q)
    {
      ghost var o := ChildOwner(M(), t, i);
      pages := pages[t := Table(pages[t].ptes[i := Ptr(q)])][q := ZeroTable()];
      owner := owner[q := o];
    }

    /** One level of walk: the table behind entry `i` of `t`. */
    method Descend(t: Ppn, i: nat, alloc: bool) returns (q: Option<Ppn>)
      requires MemInv(M()) && t in owner && Inner(owner[t]) && i < NPTE && (owner[t].Root? ==> i < NTOP)
      modifies this
      ensures Keeps(old(M()), M())
      ensures !alloc ==> M() == old(M())
      ensures q.Some? ==> Owned(M(), q.value, ChildOwner(old(M()), t, i)) && Entry(M(), t, i) == Ptr(q.value)
      ensures q.None? ==> M() == old(M()) && !Entry(M(), t, i).v && (alloc ==> free == [])
      ensures |free| + 1 >= |old(free)|
    {
      KeepsSelf(M());
      assert PageOk(M(), t);
      var e := pages[t].ptes[i];
      assert Entry(M(), t, i) == e;
      if e.v {
        assert PageOk(M(), e.ppn);
        return Some(e.ppn);
      }
      if !alloc {
        return None;
      }
      q := AddTable(t, i);
    }

    /** walk: the low-level table that holds the entry for `px`, growing the tree
        when `alloc` is set. None: no such table, or out of memory. */
    method Walk(root: Ppn, px: Px, alloc: bool) returns (low: Option<Ppn>)
      requires MemInv(M()) && Owned(M(), root, Root) && px.Ok()
      modifies this
      ensures Keeps(old(M()), M())
      ensures !alloc ==> M() == old(M())
      ensures low.Some? ==>
                && low.value in owner && owner[low.value].Low? && owner[low.value].root == root
                && owner[low.value].i2 == px.i2 && owner[low.value].i1 == px.i1
      ensures low.None? ==> Lookup(M(), root, px) == None
      ensures low.None? && alloc ==> |old(free)| <= 1
      ensures |free| + 2 >= |old(free)|
    {
      KeepsSelf(M());
      var t := root;
      var level := 2;
      while level > 0
        invariant 0 <= level <= 2
        invariant Keeps(old(M()), M()) && (!alloc ==> M() == old(M()))
        invariant Reached(M(), root, px, level, t)
        invariant |free| + 2 - level >= |old(free)|
      {
        ghost var m0 := M();
        var i := if level == 2 then px.i2 else px.i1;
        var q := Descend(t, i, alloc);
        if q.None? {
          NotReached(M(), root, px, level, t);
          return None;
        }
        KeepsTrans(old(M()), m0, M());
        ReachedNext(m0, M(), root, px, level, t, q.value);
        t := q.value;
        level := level - 1;
      }
      low := Some(t);
    }

    /** One page of mappages. */
    method MapOne(root: Ppn, px: Px, e: Pte) returns (res: MapResult)
      requires MemInv(M()) && Owned(M(), root, Root) && px.Ok() && e.v && e.Leaf()
      requires SystemPx(px) || IsHandPage(M(), e.ppn)
      modifies this
      ensures res.Remap? <==> Lookup(old(M()), root, px).Some?
      ensures res.Done? ==> MapsTo(old(M()), M(), root, px, e)
      ensures !res.Done? ==> Keeps(old(M()), M())
      ensures res.OutOfMemory? ==> |old(free)| <= 1
      ensures |free| + 2 >= |old(free)|
    {
      var low := Walk(root, px, true);
      ghost var m0 := M();
      assert Owned(m0, root, Root);
      if low.None? {
        return OutOfMemory;
      }
      var l := low.value;
      LowPath(m0, l);
      LowLookup(m0, l, px.i0);
      if pages[l].ptes[px.i0].v {
        return Remap;
      }
      PutLeafInv(m0, l, px.i0, e);
      pages := pages[l := Table(pages[l].ptes[px.i0 := e])];
      if !SystemPx(px) {
        owner := owner[e.ppn := User(root, l, px)];
      }
      assert M() == PutLeaf(m0, l, px.i0, e);
      PutLeafMaps(old(M()), m0, l, px.i0, e);
      res := Done;
    }

    /** One page of uvmunmap: user pages are freed, the trampoline and trapframe
        entries are only cleared. */
    method UnmapOne(root: Ppn, px: Px)
      requires MemInv(M()) && Owned(M(), root, Root) && px.Ok()
      modifies this
      ensures Unmaps(old(M()), M(), root, px) && |free| >= |old(free)|
    {
      var low := Walk(root, px, false);
      ghost var m := M();
      if low.None? {
        UnmapsNothing(m, root, px);
        return;
      }
      var l := low.value;
      LowPath(m, l);
      LowLookup(m, l, px.i0);
      var e := pages[l].ptes[px.i0];
      assert Entry(m, l, px.i0) == e;
      if !e.v {
        UnmapsNothing(m, root, px);
        return;
      }
      ClearLeafInv(m, l, px.i0);
      pages := pages[l := Table(pages[l].ptes[px.i0 := NOPTE])];
      if SystemPx(px) {
        ClearSystem(m, root, l, px, e);
        assert M() == ClearLeaf(m, l, px.i0);
      } else {
        ClearUser(m, root, l, px, e);
        owner := owner[e.ppn := Hand];
        assert M() == ClearLeaf(m, l, px.i0);
        Kfree(e.ppn);
      }
    }
  }

  /** `n` is `m` without the translation of `px` in `root`; the page behind a user
      slot is free again and nothing else has a new owner. */
  ghost predicate Unmaps(m: Mem, n: Mem, root: Ppn, px: Px) {
    && MemInv(n)
    && LookupsExcept(m, n, root, px, None)
    && OwnersUnmapped(m, n, root, px)
  }

  ghost predicate OwnersUnmapped(m: Mem, n: Mem, root: Ppn, px: Px) {
    && m.owner.Keys == n.owner.Keys
    && (forall q :: q in m.owner ==>
          n.owner[q] == if m.owner[q].User? && m.owner[q].root == root && m.owner[q].px == px then Free else m.owner[q])
    && (forall q :: q in n.owner && HoldsData(n.owner[q]) && q in m.pages ==> q in n.pages && n.pages[q] == m.pages[q])
  }

  /** A user page is reached through exactly one slot. */
  lemma UserAt(m: Mem, q: Ppn)
    requires MemInv(m) && q in m.owner && m.owner[q].User?
    ensures var o := m.owner[q];
            && Owned(m, o.root, Root) && UserPx(o.px)
            && Lookup(m, o.root, o.px).Some? && Lookup(m, o.root, o.px).value.ppn == q
  {
    assert PageOk(m, q);
    LowPath(m, m.owner[q].low);
    LowLookup(m, m.owner[q].low, m.owner[q].px.i0);
  }

  lemma UnmapsNothing(m: Mem, root: Ppn, px: Px)
    requires MemInv(m) && Owned(m, root, Root) && px.Ok() && Lookup(m, root, px) == None
    ensures Unmaps(m, m, root, px)
  {
    forall q | q in m.owner
      ensures !(m.owner[q].User? && m.owner[q].root == root && m.owner[q].px == px)
    {
      if m.owner[q].User? {
        UserAt(m, q);
      }
    }
  }

  ghost predicate SlotIs(m: Mem, root: Ppn, l: Ppn, px: Px, e: Pte) {
    && px.Ok() && l in m.owner && m.owner[l].Low? && m.owner[l].root == root
    && SlotPx(m, l, px.i0) == px && Entry(m, l, px.i0) == e && e.v
  }

  lemma OnlyBehindSlot(m: Mem, root: Ppn, l: Ppn, px: Px, e: Pte)
    requires MemInv(m) && SlotIs(m, root, l, px, e)
    ensures CanClearLeaf(m, l, px.i0)
    ensures !SystemPx(px) ==> Owned(m, e.ppn, User(root, l, px))
    ensures forall q :: q in m.owner && m.owner[q].User? && m.owner[q].root == root && m.owner[q].px == px
              ==> q == e.ppn && !SystemPx(px)
  {
    assert PageOk(m, l);
    forall q | q in m.owner && m.owner[q].User? && m.owner[q].root == root && m.owner[q].px == px
      ensures q == e.ppn && !SystemPx(px)
    {
      UserAt(m, q);
      LowLookup(m, l, px.i0);
    }
  }

  lemma ClearSystem(m: Mem, root: Ppn, l: Ppn, px: Px, e: Pte)
    requires MemInv(m) && SlotIs(m, root, l, px, e) && SystemPx(px)
    ensures CanClearLeaf(m, l, px.i0)
    ensures Unmaps(m, ClearLeaf(m, l, px.i0), root, px)
  {
    OnlyBehindSlot(m, root, l, px, e);
    ClearLeafInv(m, l, px.i0);
  }

  lemma ClearUser(m: Mem, root: Ppn, l: Ppn, px: Px, e: Pte)
    requires MemInv(m) && SlotIs(m, root, l, px, e) && !SystemPx(px)
    ensures CanClearLeaf(m, l, px.i0)
    ensures Owned(ClearLeaf(m, l, px.i0), e.ppn, Hand)
    ensures Unmaps(m, Give(ClearLeaf(m, l, px.i0), e.ppn), root, px)
  {
    OnlyBehindSlot(m, root, l, px, e);
    ClearLeafInv(m, l, px.i0);
    var a := ClearLeaf(m, l, px.i0);
    GiveInv(a, e.ppn);
    ExceptThenSame(m, a, Give(a, e.ppn), root, px, None);
    ClearUserOwners(m, root, l, px, e);
  }

  lemma ClearUserOwners(m: Mem, root: Ppn, l: Ppn, px: Px, e: Pte)
    requires SlotIs(m, root, l, px, e) && !SystemPx(px) && CanClearLeaf(m, l, px.i0)
             && Owned(m, e.ppn, User(root, l, px))
    requires forall q :: q in m.owner && m.owner[q].User? && m.owner[q].root == root && m.owner[q].px == px ==>
               q == e.ppn
    ensures OwnersUnmapped(m, Give(ClearLeaf(m, l, px.i0), e.ppn), root, px)
  {
  }

  lemma ExceptThenSame(a: Mem, b: Mem, c: Mem, r0: Ppn, px0: Px, e: Option<Pte>)
    requires LookupsExcept(a, b, r0, px0, e) && SameLookups(b, c)
    ensures LookupsExcept(a, c, r0, px0, e)
  {
    forall r: Ppn, px: Px | Owned(a, r, Root) && px.Ok()
      ensures Owned(c, r, Root) && Lookup(c, r, px) == if r == r0 && px == px0 then e else Lookup(a, r, px)
    {
      assert Owned(b, r, Root);
    }
  }

  datatype MapResult = Done | OutOfMemory | Remap

  /** A page in hand that holds data. */
  ghost predicate IsHandPage(m: Mem, q: Ppn) {
    Owned(m, q, Hand) && q in m.pages && m.pages[q].Data? && |m.pages[q].bytes| == PGSIZE
  }

  /** `n` is `m` with the one new translation of `px` to `e`. */
  ghost predicate MapsTo(m: Mem, n: Mem, root: Ppn, px: Px, e: Pte) {
    && MemInv(n)
    && LookupsExcept(m, n, root, px, Some(e))
    && OwnersMapped(m, n, px, e.ppn)
  }

  ghost predicate OwnersMapped(m: Mem, n: Mem, px: Px, p: Ppn) {
    && m.owner.Keys == n.owner.Keys
    && Hands(n) == (if SystemPx(px) then Hands(m) else Hands(m) - {p})
    && (forall q :: q in m.owner && !m.owner[q].Free? && (q != p || SystemPx(px)) ==> n.owner[q] == m.owner[q])
    && (forall q :: q in m.owner && (n.owner[q].Root? || n.owner[q].Frame?) ==> m.owner[q] == n.owner[q])
    && SameContents(m, n)
  }

  lemma PutLeafMaps(m: Mem, m0: Mem, l: Ppn, i: nat, e: Pte)
    requires MemInv(m0) && SameLookups(m, m0) && OwnersKept(m, m0) && CanPutLeaf(m0, l, i, e) && i < NPTE
    ensures MapsTo(m, PutLeaf(m0, l, i, e), m0.owner[l].root, SlotPx(m0, l, i), e)
  {
    PutLeafInv(m0, l, i, e);
    PutLeafOwners(m, m0, l, i, e);
    ExceptTrans(m, m0, PutLeaf(m0, l, i, e), m0.owner[l].root, SlotPx(m0, l, i), Some(e));
  }

  lemma ExceptTrans(a: Mem, b: Mem, c: Mem, r0: Ppn, px0: Px, e: Option<Pte>)
    requires SameLookups(a, b) && LookupsExcept(b, c, r0, px0, e)
    ensures LookupsExcept(a, c, r0, px0, e)
  {
    forall r: Ppn, px: Px | Owned(a, r, Root) && px.Ok()
      ensures Owned(c, r, Root) && Lookup(c, r, px) == if r == r0 && px == px0 then e else Lookup(a, r, px)
    {
      assert Owned(b, r, Root);
    }
  }

  lemma PutLeafOwners(m: Mem, m0: Mem, l: Ppn, i: nat, e: Pte)
    requires OwnersKept(m, m0) && CanPutLeaf(m0, l, i, e)
    ensures OwnersMapped(m, PutLeaf(m0, l, i, e), SlotPx(m0, l, i), e.ppn)
  {
    var n := PutLeaf(m0, l, i, e);
    var px := SlotPx(m0, l, i);
    assert Hands(n) == if SystemPx(px) then Hands(m0) else Hands(m0) - {e.ppn};
  }

  /** `t` is the table of the given level on the path to `px`. */
  ghost predicate Reached(m: Mem, root: Ppn, px: Px, level: nat, t: Ppn) {
    if level == 2 then t == root && Owned(m, root, Root)
    else if level == 1 then Owned(m, t, Mid(root, px.i2))
    else t in m.owner && m.owner[t].Low? && m.owner[t].root == root && m.owner[t].i2 == px.i2 && m.owner[t].i1 == px.i1
  }

  lemma ReachedNext(m: Mem, n: Mem, root: Ppn, px: Px, level: nat, t: Ppn, q: Ppn)
    requires 1 <= level <= 2 && Reached(m, root, px, level, t) && t in m.owner && Inner(m.owner[t])
    requires Owned(n, q, ChildOwner(m, t, if level == 2 then px.i2 else px.i1))
    ensures Reached(n, root, px, level - 1, q)
  {
  }

  lemma NotReached(m: Mem, root: Ppn, px: Px, level: nat, t: Ppn)
    requires MemInv(m) && px.Ok() && 1 <= level <= 2 && Reached(m, root, px, level, t)
    requires !Entry(m, t, if level == 2 then px.i2 else px.i1).v
    ensures Lookup(m, root, px) == None
  {
    if level == 1 {
      assert PageOk(m, t);
    }
  }
}
