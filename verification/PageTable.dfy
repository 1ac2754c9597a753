/** Sv39 page tables in physical pages (section 4.4 of The RISC-V Instruction Set
    Manual, Volume II, version 20211203), as xv6/kernel/vm.c builds them, together
    with the page allocator of kalloc.c.

    Every physical page has one owner. The primitives below are the memory updates
    that the kernel code performs; each keeps the ownership invariant and changes
    exactly the translations it says. */
module PageTable {
  import opened Options

  const NPTE: nat := 512
  /** Root entries in use: MAXVA is 2^38. */
  const NTOP: nat := 256
  const PGSIZE: nat := 4096

  type Ppn = nat
  type Byte = b: nat | b < 256

  datatype Pte = Pte(v: bool, r: bool, w: bool, x: bool, u: bool, ppn: Ppn) {
    /** An entry with none of R, W, X points to the next level. */
    predicate Leaf() {
      r || w || x
    }
  }

  const NOPTE := Pte(false, false, false, false, false, 0)

  function Ptr(q: Ppn): (e: Pte) {
    Pte(true, false, false, false, false, q)
  }

  datatype Page = Table(ptes: seq<Pte>) | Data(bytes: seq<Byte>)

  function ZeroTable(): (p: Page) {
    Table(seq(NPTE, _ => NOPTE))
  }

  function ZeroBytes(): (b: seq<Byte>)
    ensures |b| == PGSIZE
  {
    seq(PGSIZE, _ => 0)
  }

  /** The three indices of a virtual page number. */
  datatype Px = Px(i2: nat, i1: nat, i0: nat) {
    predicate Ok() {
      i2 < NTOP && i1 < NPTE && i0 < NPTE
    }
  }

  function PxOf(vpn: nat): (px: Px)
  {
    Px(vpn / 262144, vpn / 512 % 512, vpn % 512)
  }

  const MAXVPN: nat := 0x400_0000
  const TRAMPOLINE: nat := MAXVPN - 1
  const TRAPFRAME: nat := MAXVPN - 2

  /** The slots of the trampoline and the trapframe. */
  predicate SystemPx(px: Px) {
    px.i2 == 255 && px.i1 == 511 && px.i0 >= 510
  }

  lemma PxOk(vpn: nat)
    requires vpn < MAXVPN
    ensures PxOf(vpn).Ok()
    ensures SystemPx(PxOf(vpn)) <==> vpn >= TRAPFRAME
  {
  }

  lemma PxInjective(v: nat, w: nat)
    requires PxOf(v) == PxOf(w)
    ensures v == w
  {
    PxSum(v);
    PxSum(w);
  }

  lemma PxSum(v: nat)
    ensures var px := PxOf(v); v == px.i2 * 262144 + px.i1 * 512 + px.i0
  {
    var a := v / 512;
    assert v == a * 512 + v % 512;
    assert a == a / 512 * 512 + a % 512;
    assert v / 262144 == a / 512 by {
      assert v == a / 512 * 262144 + (a % 512 * 512 + v % 512);
      assert 0 <= a % 512 * 512 + v % 512 < 262144;
    }
  }

  /** Who a physical page belongs to. `Hand`: allocated and not placed yet.
      `Frame`: some process's trapframe. `Root`, `Mid`, `Low`: a page-table page of
      the tree with that root, reached through the given indices. `User`: mapped at
      `px` in that address space by an entry of the page `low`. */
  datatype Owner =
    | Free
    | Hand
    | Frame
    | Root
    | Mid(root: Ppn, i2: nat)
    | Low(root: Ppn, mid: Ppn, i2: nat, i1: nat)
    | User(root: Ppn, low: Ppn, px: Px)

  /** Physical memory: contents and owners of all allocatable pages, and the free
      list of kmem. */
  datatype Mem = Mem(pages: map<Ppn, Page>, free: seq<Ppn>, owner: map<Ppn, Owner>)

  /** Entry `i` of page `q`; invalid when `q` is not a page-table page. */
  function Entry(m: Mem, q: Ppn, i: nat): (e: Pte) {
    if q in m.pages && m.pages[q].Table? && i < |m.pages[q].ptes| then m.pages[q].ptes[i] else NOPTE
  }

  /** What the hardware finds for a virtual page in the tree with root `r`. */
  function Lookup(m: Mem, r: Ppn, px: Px): (e: Option<Pte>) {
    var e2 := Entry(m, r, px.i2);
    if !e2.v then None
    else
      var e1 := Entry(m, e2.ppn, px.i1);
      if !e1.v then None
      else
        var e0 := Entry(m, e1.ppn, px.i0);
        if e0.v then Some(e0) else None
  }

  // ---------------------------------------------------------------------------
  // Ownership invariant
  // ---------------------------------------------------------------------------

  ghost predicate IsTable(m: Mem, q: Ppn) {
    q in m.pages && m.pages[q].Table? && |m.pages[q].ptes| == NPTE
  }

  ghost predicate Owned(m: Mem, q: Ppn, o: Owner) {
    q in m.owner && m.owner[q] == o
  }

  /** Every valid entry of a level-2 table points to the level-1 table that is
      owned through it, and so on; a page is owned through the entry that points
      to it. The trampoline and trapframe slots own nothing: the trampoline is
      kernel text, and a trapframe belongs to its process. */
  ghost predicate PageOk(m: Mem, q: Ppn)
    requires q in m.owner
  {
    match m.owner[q]
    case Free => true
    case Hand => true
    case Frame => true
    case Root =>
      && IsTable(m, q)
      && forall i :: 0 <= i < NPTE && Entry(m, q, i).v ==>
           !Entry(m, q, i).Leaf() && Owned(m, Entry(m, q, i).ppn, Mid(q, i))
    case Mid(r, i2) =>
      && IsTable(m, q) && i2 < NTOP
      && Owned(m, r, Root) && Entry(m, r, i2) == Ptr(q)
      && forall i :: 0 <= i < NPTE && Entry(m, q, i).v ==>
           !Entry(m, q, i).Leaf() && Owned(m, Entry(m, q, i).ppn, Low(r, q, i2, i))
    case Low(r, mid, i2, i1) =>
      && IsTable(m, q) && i2 < NTOP && i1 < NPTE
      && Owned(m, mid, Mid(r, i2)) && Entry(m, mid, i1) == Ptr(q)
      && forall i :: 0 <= i < NPTE && Entry(m, q, i).v ==>
           && Entry(m, q, i).Leaf()
           && (SystemPx(Px(i2, i1, i)) || Owned(m, Entry(m, q, i).ppn, User(r, q, Px(i2, i1, i))))
    case User(r, low, px) =>
      && q in m.pages && m.pages[q].Data? && |m.pages[q].bytes| == PGSIZE && px.Ok() && !SystemPx(px)
      && low in m.owner && m.owner[low].Low? && m.owner[low].root == r
      && m.owner[low].i2 == px.i2 && m.owner[low].i1 == px.i1
      && Entry(m, low, px.i0).v && Entry(m, low, px.i0).ppn == q
  }

  ghost predicate FreeListOk(m: Mem) {
    && (forall i, j :: 0 <= i < j < |m.free| ==> m.free[i] != m.free[j])
    && (forall i :: 0 <= i < |m.free| ==> Owned(m, m.free[i], Free))
    && (forall q :: q in m.owner && m.owner[q] == Free ==> q in m.free)
  }

  ghost predicate MemInv(m: Mem) {
    && m.pages.Keys == m.owner.Keys
    && FreeListOk(m)
    && forall q {:trigger PageOk(m, q)} :: q in m.owner ==> PageOk(m, q)
  }

  // ---------------------------------------------------------------------------
  // Primitive updates
  // ---------------------------------------------------------------------------

  function Filled(b: Byte): (p: Page) {
    Data(seq(PGSIZE, _ => b))
  }

  /** kalloc on a non-empty free list; the page is filled with junk. */
  function Take(m: Mem): (r: Mem)
    requires m.free != []
  {
    var p := m.free[0];
    Mem(m.pages[p := Filled(5)], m.free[1..], m.owner[p := Hand])
  }

  /** kfree. */
  function Give(m: Mem, p: Ppn): (r: Mem) {
    Mem(m.pages[p := Filled(1)], [p] + m.free, m.owner[p := Free])
  }

  function SetEntry(m: Mem, q: Ppn, i: nat, e: Pte): (pages: map<Ppn, Page>)
    requires q in m.pages && m.pages[q].Table? && i < |m.pages[q].ptes|
  {
    m.pages[q := Table(m.pages[q].ptes[i := e])]
  }

  predicate Inner(o: Owner) {
    o.Root? || o.Mid?
  }

  /** The owner of the page-table page behind entry `i` of the table `t`. */
  function ChildOwner(m: Mem, t: Ppn, i: nat): (o: Owner)
    requires t in m.owner && Inner(m.owner[t])
  {
    match m.owner[t]
    case Root => Mid(t, i)
    case Mid(r, i2) => Low(r, t, i2, i)
  }

  predicate CanPutTable(m: Mem, t: Ppn, i: nat, q: Ppn) {
    && t in m.pages && m.pages[t].Table? && i < |m.pages[t].ptes| && !m.pages[t].ptes[i].v
    && t in m.owner && Inner(m.owner[t]) && q in m.owner && m.owner[q] == Hand && q != t
    && (m.owner[t].Root? ==> i < NTOP)
  }

  /** Zero the page `q` and hang it into entry `i` of the table `t`. */
  function PutTable(m: Mem, t: Ppn, i: nat, q: Ppn): (r: Mem)
    requires CanPutTable(m, t, i, q)
  {
    m.(pages := SetEntry(m, t, i, Ptr(q))[q := ZeroTable()],
       owner := m.owner[q := ChildOwner(m, t, i)])
  }

  /** The virtual page that entry `i` of the low table `l` maps. */
  function SlotPx(m: Mem, l: Ppn, i: nat): (px: Px)
    requires l in m.owner && m.owner[l].Low?
  {
    Px(m.owner[l].i2, m.owner[l].i1, i)
  }

  predicate CanPutLeaf(m: Mem, l: Ppn, i: nat, e: Pte) {
    && l in m.pages && m.pages[l].Table? && i < |m.pages[l].ptes| && !m.pages[l].ptes[i].v
    && l in m.owner && m.owner[l].Low? && e.v && e.Leaf()
    && (SystemPx(SlotPx(m, l, i))
        || (e.ppn in m.owner && m.owner[e.ppn] == Hand && e.ppn in m.pages
            && m.pages[e.ppn].Data? && |m.pages[e.ppn].bytes| == PGSIZE))
  }

  /** Write a leaf entry; in a user slot the page in hand becomes a user page. */
  function PutLeaf(m: Mem, l: Ppn, i: nat, e: Pte): (r: Mem)
    requires CanPutLeaf(m, l, i, e)
  {
    var px := SlotPx(m, l, i);
    m.(pages := SetEntry(m, l, i, e),
       owner := if SystemPx(px) then m.owner else m.owner[e.ppn := User(m.owner[l].root, l, px)])
  }

  predicate CanClearLeaf(m: Mem, l: Ppn, i: nat) {
    && l in m.pages && m.pages[l].Table? && i < |m.pages[l].ptes| && m.pages[l].ptes[i].v
    && l in m.owner && m.owner[l].Low?
  }

  /** Clear a leaf entry; the page behind a user slot is in hand again. */
  function ClearLeaf(m: Mem, l: Ppn, i: nat): (r: Mem)
    requires CanClearLeaf(m, l, i)
  {
    m.(pages := SetEntry(m, l, i, NOPTE),
       owner := if SystemPx(SlotPx(m, l, i)) then m.owner else m.owner[m.pages[l].ptes[i].ppn := Hand])
  }

  predicate CanClearTable(m: Mem, t: Ppn, i: nat) {
    && t in m.pages && m.pages[t].Table? && i < |m.pages[t].ptes| && m.pages[t].ptes[i].v
    && t in m.owner && Inner(m.owner[t])
    && forall k :: 0 <= k < NPTE ==> !Entry(m, m.pages[t].ptes[i].ppn, k).v
  }

  /** Clear the entry of an empty page-table page, which is in hand afterwards. */
  function ClearTable(m: Mem, t: Ppn, i: nat): (r: Mem)
    requires CanClearTable(m, t, i)
  {
    m.(pages := SetEntry(m, t, i, NOPTE), owner := m.owner[m.pages[t].ptes[i].ppn := Hand])
  }

  // ---------------------------------------------------------------------------
  // The primitives keep the invariant
  // ---------------------------------------------------------------------------

  /** `n` differs from `m` only at page `p`, which no entry and no owner of `m`
      refers to. */
  ghost predicate OnlyAt(m: Mem, n: Mem, p: Ppn) {
    && (forall q, i :: q != p ==> Entry(n, q, i) == Entry(m, q, i))
    && (forall q :: q != p && q in m.pages ==> q in n.pages && n.pages[q] == m.pages[q])
    && (forall q :: q != p && q in m.owner ==> q in n.owner && n.owner[q] == m.owner[q])
  }

  ghost predicate Loose(o: Owner) {
    o.Free? || o.Hand? || o.Frame?
  }

  /** A loose page is no table, no user page and no trapframe, so changing it
      disturbs nobody. */
  lemma LooseFrame(m: Mem, n: Mem, p: Ppn, q: Ppn)
    requires OnlyAt(m, n, p) && m.pages.Keys == m.owner.Keys == n.pages.Keys == n.owner.Keys
    requires p in m.owner && Loose(m.owner[p]) && Loose(n.owner[p])
    requires q in m.owner && PageOk(m, q)
    ensures PageOk(n, q)
  {
    if q != p {
      assert forall x, o :: !Loose(o) && Owned(m, x, o) ==> Owned(n, x, o);
      assert forall i :: Entry(n, q, i) == Entry(m, q, i);
    }
  }

  lemma LooseLookup(m: Mem, n: Mem, p: Ppn, r: Ppn, px: Px)
    requires OnlyAt(m, n, p) && MemInv(m) && p in m.owner && Loose(m.owner[p])
    requires Owned(m, r, Root) && px.Ok()
    ensures Lookup(n, r, px) == Lookup(m, r, px)
  {
    assert PageOk(m, r);
    var e2 := Entry(m, r, px.i2);
    if e2.v {
      assert PageOk(m, e2.ppn);
    }
  }

  ghost predicate SameLookups(m: Mem, n: Mem) {
    forall r: Ppn, px: Px :: Owned(m, r, Root) && px.Ok() ==> Owned(n, r, Root) && Lookup(n, r, px) == Lookup(m, r, px)
  }

  lemma LooseStep(m: Mem, n: Mem, p: Ppn)
    requires MemInv(m) && OnlyAt(m, n, p) && n.pages.Keys == n.owner.Keys == m.owner.Keys
    requires p in m.owner && Loose(m.owner[p]) && Loose(n.owner[p]) && FreeListOk(n)
    ensures MemInv(n) && SameLookups(m, n)
  {
    forall q | q in n.owner
      ensures PageOk(n, q)
    {
      LooseFrame(m, n, p, q);
    }
    LooseLookups(m, n, p);
  }

  lemma LooseLookups(m: Mem, n: Mem, p: Ppn)
    requires MemInv(m) && OnlyAt(m, n, p) && p in m.owner && Loose(m.owner[p]) && m.owner.Keys == n.owner.Keys
    ensures SameLookups(m, n)
  {
    forall r: Ppn, px: Px | Owned(m, r, Root) && px.Ok()
      ensures Owned(n, r, Root) && Lookup(n, r, px) == Lookup(m, r, px)
    {
      LooseLookup(m, n, p, r, px);
    }
  }

  lemma TakeInv(m: Mem)
    requires MemInv(m) && m.free != []
    ensures MemInv(Take(m)) && SameLookups(m, Take(m))
  {
    assert Owned(m, m.free[0], Free);
    assert FreeListOk(Take(m));
    LooseStep(m, Take(m), m.free[0]);
  }

  lemma GiveFreeList(m: Mem, p: Ppn)
    requires FreeListOk(m) && Owned(m, p, Hand)
    ensures FreeListOk(Give(m, p))
  {
    var n := Give(m, p);
    assert forall i :: 0 <= i < |m.free| ==> m.free[i] != p;
    assert forall i :: 0 < i < |n.free| ==> n.free[i] == m.free[i - 1];
    forall q | q in n.owner && n.owner[q] == Free
      ensures q in n.free
    {
      if q != p {
        assert q in m.free;
      } else {
        assert n.free[0] == p;
      }
    }
  }

  lemma GiveInv(m: Mem, p: Ppn)
    requires MemInv(m) && Owned(m, p, Hand)
    ensures MemInv(Give(m, p)) && SameLookups(m, Give(m, p))
  {
    GiveFreeList(m, p);
    LooseStep(m, Give(m, p), p);
  }

  // ---------------------------------------------------------------------------
  // Hanging tables and leaves into the tree
  // ---------------------------------------------------------------------------

  lemma PutTableInv(m: Mem, t: Ppn, i: nat, q: Ppn)
    requires MemInv(m) && CanPutTable(m, t, i, q)
    ensures MemInv(PutTable(m, t, i, q)) && SameLookups(m, PutTable(m, t, i, q))
  {
    PutTableFree(m, t, i, q);
    PutTablePages(m, t, i, q);
    PutTableLookups(m, t, i, q);
  }

  lemma PutTableFree(m: Mem, t: Ppn, i: nat, q: Ppn)
    requires m.pages.Keys == m.owner.Keys && FreeListOk(m) && CanPutTable(m, t, i, q)
    ensures var n := PutTable(m, t, i, q); n.pages.Keys == n.owner.Keys == m.owner.Keys && FreeListOk(n)
  {
  }

  lemma PutTablePages(m: Mem, t: Ppn, i: nat, q: Ppn)
    requires MemInv(m) && CanPutTable(m, t, i, q)
    ensures var n := PutTable(m, t, i, q); forall x {:trigger PageOk(n, x)} :: x in n.owner ==> PageOk(n, x)
  {
    var n := PutTable(m, t, i, q);
    assert n.owner.Keys == m.owner.Keys;
    forall x | x in n.owner
      ensures PageOk(n, x)
    {
      PutTablePage(m, t, i, q, x);
    }
  }

  lemma PutTableLookups(m: Mem, t: Ppn, i: nat, q: Ppn)
    requires MemInv(m) && CanPutTable(m, t, i, q)
    ensures SameLookups(m, PutTable(m, t, i, q))
  {
    var n := PutTable(m, t, i, q);
    forall r: Ppn, px: Px | Owned(m, r, Root) && px.Ok()
      ensures Owned(n, r, Root) && Lookup(n, r, px) == Lookup(m, r, px)
    {
      PutTableLookup(m, t, i, q, r, px);
    }
  }

  lemma PutTableEntries(m: Mem, t: Ppn, i: nat, q: Ppn)
    requires CanPutTable(m, t, i, q)
    ensures var n := PutTable(m, t, i, q);
            && (forall x, k :: x != t && x != q ==> Entry(n, x, k) == Entry(m, x, k))
            && (forall k :: k != i ==> Entry(n, t, k) == Entry(m, t, k))
            && Entry(n, t, i) == Ptr(q)
            && (forall k :: !Entry(n, q, k).v)
            && (forall x, o :: o != Hand && Owned(m, x, o) ==> Owned(n, x, o))
  {
  }

  lemma PutTablePage(m: Mem, t: Ppn, i: nat, q: Ppn, x: Ppn)
    requires MemInv(m) && CanPutTable(m, t, i, q) && x in m.owner
    ensures PageOk(PutTable(m, t, i, q), x)
  {
    var n := PutTable(m, t, i, q);
    PutTableEntries(m, t, i, q);
    assert PageOk(m, x) && PageOk(m, t);
  }

  lemma PutTableLookup(m: Mem, t: Ppn, i: nat, q: Ppn, r: Ppn, px: Px)
    requires MemInv(m) && CanPutTable(m, t, i, q) && Owned(m, r, Root) && px.Ok()
    ensures Lookup(PutTable(m, t, i, q), r, px) == Lookup(m, r, px)
  {
    PutTableEntries(m, t, i, q);
    assert PageOk(m, r);
    var e2 := Entry(m, r, px.i2);
    if e2.v {
      assert PageOk(m, e2.ppn);
    }
  }

  /** The low table that a lookup reaches is the one owned through its indices. */
  lemma LookupPath(m: Mem, r: Ppn, px: Px)
    requires MemInv(m) && Owned(m, r, Root) && px.Ok()
    ensures var e2 := Entry(m, r, px.i2);
            e2.v ==> && Owned(m, e2.ppn, Mid(r, px.i2))
                     && var e1 := Entry(m, e2.ppn, px.i1);
                        e1.v ==> Owned(m, e1.ppn, Low(r, e2.ppn, px.i2, px.i1))
  {
    assert PageOk(m, r);
    var e2 := Entry(m, r, px.i2);
    if e2.v {
      assert PageOk(m, e2.ppn);
    }
  }

  lemma LowPath(m: Mem, l: Ppn)
    requires MemInv(m) && l in m.owner && m.owner[l].Low?
    ensures var o := m.owner[l];
            && Owned(m, o.root, Root) && o.i2 < NTOP && o.i1 < NPTE && IsTable(m, l)
            && Entry(m, o.root, o.i2) == Ptr(o.mid) && Entry(m, o.mid, o.i1) == Ptr(l)
  {
    assert PageOk(m, l);
    assert PageOk(m, m.owner[l].mid);
  }

  lemma LowLookup(m: Mem, l: Ppn, i: nat)
    requires MemInv(m) && l in m.owner && m.owner[l].Low? && i < NPTE
    ensures var o := m.owner[l];
            Lookup(m, o.root, Px(o.i2, o.i1, i)) == if Entry(m, l, i).v then Some(Entry(m, l, i)) else None
  {
    LowPath(m, l);
  }

  /** `n` has the translations of `m`, except that address space `r` translates
      `px` to `e`. */
  ghost predicate LookupsExcept(m: Mem, n: Mem, r0: Ppn, px0: Px, e: Option<Pte>) {
    forall r: Ppn, px: Px :: Owned(m, r, Root) && px.Ok() ==>
      Owned(n, r, Root) && Lookup(n, r, px) == if r == r0 && px == px0 then e else Lookup(m, r, px)
  }

  ghost predicate EntriesExcept(m: Mem, n: Mem, l: Ppn, i: nat) {
    && (forall x, k :: x != l ==> Entry(n, x, k) == Entry(m, x, k))
    && (forall k :: k != i ==> Entry(n, l, k) == Entry(m, l, k))
  }

  lemma LeafLookups(m: Mem, n: Mem, l: Ppn, i: nat)
    requires MemInv(m) && l in m.owner && m.owner[l].Low? && i < NPTE
    requires EntriesExcept(m, n, l, i)
    requires forall r :: Owned(m, r, Root) ==> Owned(n, r, Root)
    ensures var o := m.owner[l];
            LookupsExcept(m, n, o.root, Px(o.i2, o.i1, i), if Entry(n, l, i).v then Some(Entry(n, l, i)) else None)
  {
    var o := m.owner[l];
    LowPath(m, l);
    forall r: Ppn, px: Px | Owned(m, r, Root) && px.Ok()
      ensures Lookup(n, r, px) == if r == o.root && px == Px(o.i2, o.i1, i)
                                  then (if Entry(n, l, i).v then Some(Entry(n, l, i)) else None)
                                  else Lookup(m, r, px)
    {
      LookupPath(m, r, px);
      assert Entry(n, r, px.i2) == Entry(m, r, px.i2);
    }
  }

  lemma PutLeafInv(m: Mem, l: Ppn, i: nat, e: Pte)
    requires MemInv(m) && CanPutLeaf(m, l, i, e)
    ensures MemInv(PutLeaf(m, l, i, e))
    ensures var o := m.owner[l];
            LookupsExcept(m, PutLeaf(m, l, i, e), o.root, SlotPx(m, l, i), Some(e))
  {
    var n := PutLeaf(m, l, i, e);
    assert PageOk(m, l);
    assert FreeListOk(n);
    assert EntriesExcept(m, n, l, i);
    LeafLookups(m, n, l, i);
    forall x | x in n.owner
      ensures PageOk(n, x)
    {
      PutLeafPage(m, l, i, e, x);
    }
  }

  lemma PutLeafPage(m: Mem, l: Ppn, i: nat, e: Pte, x: Ppn)
    requires MemInv(m) && CanPutLeaf(m, l, i, e) && x in m.owner
    ensures PageOk(PutLeaf(m, l, i, e), x)
  {
    var n := PutLeaf(m, l, i, e);
    assert EntriesExcept(m, n, l, i) && Entry(n, l, i) == e;
    KeepOwners(m, n, e.ppn);
    assert PageOk(m, x);
    assert PageOk(m, l);
    if x == l {
      LowStays(m, n, l, i);
    } else if x != e.ppn || SystemPx(SlotPx(m, l, i)) {
      OtherStays(m, n, l, i, if SystemPx(SlotPx(m, l, i)) then l else e.ppn, x);
    }
  }

  /** Only the owner of `p` may differ. */
  ghost predicate OwnersExcept(m: Mem, n: Mem, p: Ppn) {
    m.owner.Keys == n.owner.Keys && forall y :: y in m.owner && y != p ==> n.owner[y] == m.owner[y]
  }

  lemma KeepOwners(m: Mem, n: Mem, p: Ppn)
    requires OwnersExcept(m, n, p)
    ensures forall y, o :: y != p && Owned(m, y, o) ==> Owned(n, y, o)
  {
  }

  /** The changed low table itself. */
  lemma LowStays(m: Mem, n: Mem, l: Ppn, i: nat)
    requires MemInv(m) && l in m.owner && m.owner[l].Low? && l in n.owner && n.owner[l] == m.owner[l]
    requires EntriesExcept(m, n, l, i) && IsTable(n, l) && i < NPTE
    requires forall y, o: Owner :: Owned(m, y, o) && (o.Mid? || (o.User? && !(o.low == l && o.px.i0 == i))) ==>
               Owned(n, y, o)
    requires m.owner.Keys == n.owner.Keys
    requires var o := m.owner[l];
             var e := Entry(n, l, i);
             e.v ==> e.Leaf() && (SystemPx(Px(o.i2, o.i1, i)) || Owned(n, e.ppn, User(o.root, l, Px(o.i2, o.i1, i))))
    ensures PageOk(n, l)
  {
    assert PageOk(m, l);
    var o := m.owner[l];
    assert o.mid != l;
    assert Entry(n, o.mid, o.i1) == Entry(m, o.mid, o.i1);
    forall k | 0 <= k < NPTE && Entry(n, l, k).v
      ensures Entry(n, l, k).Leaf()
      ensures SystemPx(Px(o.i2, o.i1, k)) || Owned(n, Entry(n, l, k).ppn, User(o.root, l, Px(o.i2, o.i1, k)))
    {
      if k != i {
        assert Entry(n, l, k) == Entry(m, l, k);
      }
    }
  }

  /** Pages other than the changed low table and the page behind its entry. */
  lemma OtherStays(m: Mem, n: Mem, l: Ppn, i: nat, p: Ppn, x: Ppn)
    requires MemInv(m) && l in m.owner && m.owner[l].Low? && m.pages.Keys == n.pages.Keys
    requires EntriesExcept(m, n, l, i) && OwnersExcept(m, n, p)
    requires x in m.owner && x != l && x != p && n.pages[x] == m.pages[x]
    requires n.owner[l] == m.owner[l]
    requires p in m.owner && n.owner[p] != m.owner[p] ==> m.owner[p].Hand? || m.owner[p].User?
    requires p in m.owner && m.owner[p].User? && n.owner[p] != m.owner[p] ==>
               m.owner[p].low == l && m.owner[p].px.i0 == i
    requires m.owner[x].User? && m.owner[x].low == l ==> m.owner[x].px.i0 != i
    ensures PageOk(n, x)
  {
    KeepOwners(m, n, p);
    assert PageOk(m, x);
    assert forall k :: Entry(n, x, k) == Entry(m, x, k);
    match m.owner[x]
    case Free =>
    case Hand =>
    case Frame =>
    case Root => assert forall k :: 0 <= k < NPTE && Entry(m, x, k).v ==> Owned(n, Entry(m, x, k).ppn, Mid(x, k));
    case Mid(r, i2) =>
      assert Entry(n, r, i2) == Entry(m, r, i2);
      assert forall k :: 0 <= k < NPTE && Entry(m, x, k).v ==> Owned(n, Entry(m, x, k).ppn, Low(r, x, i2, k));
    case Low(r, mid, i2, i1) =>
      assert Entry(n, mid, i1) == Entry(m, mid, i1);
    case User(r, low, px) =>
      assert Entry(n, low, px.i0) == Entry(m, low, px.i0);
  }

  lemma ClearLeafInv(m: Mem, l: Ppn, i: nat)
    requires MemInv(m) && CanClearLeaf(m, l, i)
    ensures MemInv(ClearLeaf(m, l, i))
    ensures var o := m.owner[l];
            LookupsExcept(m, ClearLeaf(m, l, i), o.root, SlotPx(m, l, i), None)
  {
    var n := ClearLeaf(m, l, i);
    assert PageOk(m, l);
    assert FreeListOk(n);
    assert EntriesExcept(m, n, l, i) && !Entry(n, l, i).v;
    LeafLookups(m, n, l, i);
    forall x | x in n.owner
      ensures PageOk(n, x)
    {
      ClearLeafPage(m, l, i, x);
    }
  }

  lemma ClearLeafPage(m: Mem, l: Ppn, i: nat, x: Ppn)
    requires MemInv(m) && CanClearLeaf(m, l, i) && x in m.owner
    ensures PageOk(ClearLeaf(m, l, i), x)
  {
    var n := ClearLeaf(m, l, i);
    var p := m.pages[l].ptes[i].ppn;
    assert PageOk(m, l);
    assert Entry(m, l, i).ppn == p;
    assert EntriesExcept(m, n, l, i) && !Entry(n, l, i).v;
    KeepOwners(m, n, p);
    if x == l {
      LowStays(m, n, l, i);
    } else if x != p || SystemPx(SlotPx(m, l, i)) {
      assert PageOk(m, x);
      OtherStays(m, n, l, i, if SystemPx(SlotPx(m, l, i)) then l else p, x);
    }
  }

  // ---------------------------------------------------------------------------
  // Taking tables out of the tree, roots, trapframes and contents
  // ---------------------------------------------------------------------------

  lemma ClearTableEntries(m: Mem, t: Ppn, i: nat)
    requires MemInv(m) && CanClearTable(m, t, i)
    ensures var n := ClearTable(m, t, i);
            var q := m.pages[t].ptes[i].ppn;
            && i < NPTE && IsTable(m, t) && Owned(m, q, ChildOwner(m, t, i)) && q != t
            && EntriesExcept(m, n, t, i) && !Entry(n, t, i).v
            && OwnersExcept(m, n, q)
            && (forall k :: !Entry(m, q, k).v)
  {
    assert PageOk(m, t);
    var q := m.pages[t].ptes[i].ppn;
    assert Entry(m, t, i).v;
    assert PageOk(m, q);
  }

  lemma ClearTablePage(m: Mem, t: Ppn, i: nat, x: Ppn)
    requires MemInv(m) && CanClearTable(m, t, i) && x in m.owner
    ensures PageOk(ClearTable(m, t, i), x)
  {
    ClearTableEntries(m, t, i);
    var n := ClearTable(m, t, i);
    var q := m.pages[t].ptes[i].ppn;
    KeepOwners(m, n, q);
    assert PageOk(m, x);
    assert PageOk(m, t);
    if x != q && x != t {
      assert forall k :: Entry(n, x, k) == Entry(m, x, k);
      match m.owner[x]
      case Free =>
      case Hand =>
      case Frame =>
      case Root => assert forall k :: 0 <= k < NPTE && Entry(m, x, k).v ==> Entry(m, x, k).ppn != q;
      case Mid(r, i2) =>
        assert Entry(n, r, i2) == Entry(m, r, i2);
        assert forall k :: 0 <= k < NPTE && Entry(m, x, k).v ==> Entry(m, x, k).ppn != q;
      case Low(r, mid, i2, i1) =>
        assert Entry(n, mid, i1) == Entry(m, mid, i1);
      case User(r, low, px) =>
        assert Entry(n, low, px.i0) == Entry(m, low, px.i0);
    }
  }

  lemma ClearTableInv(m: Mem, t: Ppn, i: nat)
    requires MemInv(m) && CanClearTable(m, t, i)
    ensures MemInv(ClearTable(m, t, i)) && SameLookups(m, ClearTable(m, t, i))
  {
    var n := ClearTable(m, t, i);
    ClearTableEntries(m, t, i);
    assert FreeListOk(n);
    forall x | x in n.owner
      ensures PageOk(n, x)
    {
      ClearTablePage(m, t, i, x);
    }
    forall r: Ppn, px: Px | Owned(m, r, Root) && px.Ok()
      ensures Owned(n, r, Root) && Lookup(n, r, px) == Lookup(m, r, px)
    {
      LookupPath(m, r, px);
    }
  }

  /** uvmcreate after its kalloc: an empty tree. */
  function MakeRoot(m: Mem, q: Ppn): (n: Mem) {
    m.(pages := m.pages[q := ZeroTable()], owner := m.owner[q := Root])
  }

  lemma MakeRootInv(m: Mem, q: Ppn)
    requires MemInv(m) && Owned(m, q, Hand)
    ensures MemInv(MakeRoot(m, q)) && SameLookups(m, MakeRoot(m, q))
    ensures forall px :: Lookup(MakeRoot(m, q), q, px) == None
  {
    var n := MakeRoot(m, q);
    assert OnlyAt(m, n, q);
    KeepOwners(m, n, q);
    assert forall k :: !Entry(n, q, k).v;
    forall x | x in n.owner
      ensures PageOk(n, x)
    {
      if x != q {
        assert PageOk(m, x);
        assert forall k :: Entry(n, x, k) == Entry(m, x, k);
      }
    }
    LooseLookups(m, n, q);
  }

  /** The root of an empty tree is in hand again. */
  function DropRoot(m: Mem, q: Ppn): (n: Mem) {
    m.(owner := m.owner[q := Hand])
  }

  lemma DropRootInv(m: Mem, q: Ppn)
    requires MemInv(m) && Owned(m, q, Root) && forall k :: 0 <= k < NPTE ==> !Entry(m, q, k).v
    ensures MemInv(DropRoot(m, q))
    ensures forall r: Ppn, px: Px :: Owned(m, r, Root) && r != q && px.Ok() ==>
              Owned(DropRoot(m, q), r, Root) && Lookup(DropRoot(m, q), r, px) == Lookup(m, r, px)
  {
    DropRootFree(m, q);
    DropRootPages(m, q);
    DropRootLookups(m, q);
  }

  lemma DropRootPages(m: Mem, q: Ppn)
    requires MemInv(m) && Owned(m, q, Root) && forall k :: 0 <= k < NPTE ==> !Entry(m, q, k).v
    ensures var n := DropRoot(m, q); forall x {:trigger PageOk(n, x)} :: x in n.owner ==> PageOk(n, x)
  {
    var n := DropRoot(m, q);
    forall x | x in n.owner
      ensures PageOk(n, x)
    {
      DropRootPage(m, q, x);
    }
  }

  lemma DropRootLookups(m: Mem, q: Ppn)
    ensures forall r: Ppn, px: Px :: Owned(m, r, Root) && r != q && px.Ok() ==>
              Owned(DropRoot(m, q), r, Root) && Lookup(DropRoot(m, q), r, px) == Lookup(m, r, px)
  {
    var n := DropRoot(m, q);
    assert forall y, k :: Entry(n, y, k) == Entry(m, y, k);
    forall r: Ppn, px: Px | Owned(m, r, Root) && r != q && px.Ok()
      ensures Owned(n, r, Root) && Lookup(n, r, px) == Lookup(m, r, px)
    {
      SameEntriesLookup(m, n, r, px);
    }
  }

  lemma DropRootFree(m: Mem, q: Ppn)
    requires FreeListOk(m) && Owned(m, q, Root)
    ensures FreeListOk(DropRoot(m, q))
  {
  }

  lemma DropRootPage(m: Mem, q: Ppn, x: Ppn)
    requires MemInv(m) && Owned(m, q, Root) && (forall k :: 0 <= k < NPTE ==> !Entry(m, q, k).v) && x in m.owner
    ensures PageOk(DropRoot(m, q), x)
  {
    var n := DropRoot(m, q);
    assert PageOk(m, x);
    assert forall y, k :: Entry(n, y, k) == Entry(m, y, k);
    KeepOwners(m, n, q);
  }

  lemma SameEntriesLookup(m: Mem, n: Mem, r: Ppn, px: Px)
    requires forall y, k :: Entry(n, y, k) == Entry(m, y, k)
    ensures Lookup(n, r, px) == Lookup(m, r, px)
  {
  }

  /** A page in hand becomes a trapframe, or a trapframe a page in hand. */
  function SetLoose(m: Mem, q: Ppn, o: Owner): (n: Mem) {
    m.(owner := m.owner[q := o])
  }

  lemma SetLooseInv(m: Mem, q: Ppn, o: Owner)
    requires MemInv(m) && q in m.owner && m.owner[q] in {Hand, Frame} && o in {Hand, Frame}
    ensures MemInv(SetLoose(m, q, o)) && SameLookups(m, SetLoose(m, q, o))
  {
    LooseStep(m, SetLoose(m, q, o), q);
  }

  /** New contents for a page that is no table. */
  function SetBytes(m: Mem, q: Ppn, b: seq<Byte>): (n: Mem) {
    m.(pages := m.pages[q := Data(b)])
  }

  lemma SetBytesPage(m: Mem, q: Ppn, b: seq<Byte>, x: Ppn)
    requires MemInv(m) && q in m.owner && (m.owner[q].User? || m.owner[q].Hand?) && |b| == PGSIZE
    requires m.pages[q].Data? && x in m.owner
    ensures PageOk(SetBytes(m, q, b), x)
  {
    var n := SetBytes(m, q, b);
    assert PageOk(m, x);
    assert forall y, k :: Entry(n, y, k) == Entry(m, y, k);
    assert forall y, o :: Owned(n, y, o) == Owned(m, y, o);
  }

  lemma SetBytesInv(m: Mem, q: Ppn, b: seq<Byte>)
    requires MemInv(m) && q in m.owner && (m.owner[q].User? || m.owner[q].Hand?) && |b| == PGSIZE
    requires m.pages[q].Data?
    ensures MemInv(SetBytes(m, q, b)) && SameLookups(m, SetBytes(m, q, b))
  {
    var n := SetBytes(m, q, b);
    forall x | x in n.owner
      ensures PageOk(n, x)
    {
      SetBytesPage(m, q, b, x);
    }
    SetBytesLookups(m, q, b);
  }

  lemma SetBytesLookups(m: Mem, q: Ppn, b: seq<Byte>)
    requires q in m.pages && m.pages[q].Data? && FreeListOk(m)
    ensures SameLookups(m, SetBytes(m, q, b)) && FreeListOk(SetBytes(m, q, b))
  {
    var n := SetBytes(m, q, b);
    assert forall y, k :: Entry(n, y, k) == Entry(m, y, k);
    forall r: Ppn, px: Px | Owned(m, r, Root) && px.Ok()
      ensures Owned(n, r, Root) && Lookup(n, r, px) == Lookup(m, r, px)
    {
      SameEntriesLookup(m, n, r, px);
    }
    assert forall y, o :: Owned(n, y, o) == Owned(m, y, o);
  }
}
