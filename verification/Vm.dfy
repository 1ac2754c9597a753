/** The user-memory operations of xv6/kernel/vm.c, and the parts of proc.c and
    sysproc.c that drive them, on virtual page numbers. */
module Vm {
  import opened Options
  import opened PageTable
  import opened AddressSpace

  function VpnOf(px: Px): (v: nat) {
    px.i2 * 262144 + px.i1 * 512 + px.i0
  }

  lemma VpnOfPxOf(v: nat)
    ensures VpnOf(PxOf(v)) == v
  {
  }

  lemma PxOfVpnOf(px: Px)
    requires px.Ok()
    ensures PxOf(VpnOf(px)) == px
  {
    var v := VpnOf(px);
    var u := px.i2 * 512 + px.i1;
    DivMod(v, u, px.i0);
    DivMod(u, px.i2, px.i1);
    assert v / 262144 == v / 512 / 512;
  }

  lemma DivMod(v: nat, q: nat, r: nat)
    requires v == q * 512 + r && r < 512
    ensures v / 512 == q && v % 512 == r
  {
  }

  lemma UserVpn(v: nat)
    requires v < TRAPFRAME
    ensures UserPx(PxOf(v))
  {
    PxOk(v);
  }

  /** The same page-table roots and the same trapframes. */
  ghost predicate SameRoots(m: Mem, n: Mem) {
    && m.owner.Keys == n.owner.Keys
    && forall r :: r in m.owner ==>
         (m.owner[r].Root? <==> n.owner[r].Root?) && (m.owner[r].Frame? <==> n.owner[r].Frame?)
  }

  ghost predicate SameSystem(m: Mem, n: Mem) {
    forall r: Ppn, px: Px :: Owned(m, r, Root) && px.Ok() && SystemPx(px) ==> Lookup(n, r, px) == Lookup(m, r, px)
  }

  // ---------------------------------------------------------------------------
  // One page
  // ---------------------------------------------------------------------------

  lemma SeesSame(m: Mem, n: Mem, r: Ppn, px: Px)
    requires MemInv(m) && Owned(m, r, Root) && UserPx(px) && Lookup(n, r, px) == Lookup(m, r, px)
    requires Lookup(m, r, px).Some? ==>
               var q := Lookup(m, r, px).value.ppn; q in n.pages && q in m.pages && n.pages[q] == m.pages[q]
    ensures Sees(n, r, px) == Sees(m, r, px)
  {
  }

  lemma AtUnmapped(m: Mem, n: Mem, root: Ppn, v: nat)
    requires MemInv(m) && Owned(m, root, Root) && v < TRAPFRAME && Unmaps(m, n, root, PxOf(v))
    ensures forall r, w: nat :: Owned(m, r, Root) && w < TRAPFRAME ==>
              At(n, r, w) == if r == root && w == v then None else At(m, r, w)
    ensures SameRoots(m, n) && SameSystem(m, n)
  {
    forall r, w: nat | Owned(m, r, Root) && w < TRAPFRAME
      ensures At(n, r, w) == if r == root && w == v then None else At(m, r, w)
    {
      UserVpn(w);
      if r == root && PxOf(w) == PxOf(v) {
        PxInjective(v, w);
      } else {
        if Lookup(m, r, PxOf(w)).Some? {
          UserLeaf(m, r, PxOf(w));
        }
        SeesSame(m, n, r, PxOf(w));
      }
    }
    UserVpn(v);
  }

  lemma AtMapped(m: Mem, n: Mem, root: Ppn, v: nat, e: Pte)
    requires MemInv(m) && Owned(m, root, Root) && v < TRAPFRAME && IsHandPage(m, e.ppn)
             && MapsTo(m, n, root, PxOf(v), e)
    ensures forall r, w: nat :: Owned(m, r, Root) && w < TRAPFRAME ==>
              At(n, r, w) == if r == root && w == v
                             then Some(UPage(e.r, e.w, e.x, e.u, m.pages[e.ppn].bytes)) else At(m, r, w)
    ensures SameRoots(m, n) && SameSystem(m, n)
  {
    forall r, w: nat | Owned(m, r, Root) && w < TRAPFRAME
      ensures At(n, r, w) == if r == root && w == v
                             then Some(UPage(e.r, e.w, e.x, e.u, m.pages[e.ppn].bytes)) else At(m, r, w)
    {
      UserVpn(w);
      if r == root && PxOf(w) == PxOf(v) {
        PxInjective(v, w);
      } else {
        if Lookup(m, r, PxOf(w)).Some? {
          UserLeaf(m, r, PxOf(w));
        }
        SeesSame(m, n, r, PxOf(w));
      }
    }
    UserVpn(v);
  }

  lemma AtKept(m: Mem, n: Mem)
    requires MemInv(m) && Keeps(m, n)
    ensures forall r, w: nat :: Owned(m, r, Root) && w < TRAPFRAME ==> At(n, r, w) == At(m, r, w)
    ensures SameRoots(m, n) && SameSystem(m, n)
  {
    forall r, w: nat | Owned(m, r, Root) && w < TRAPFRAME
      ensures At(n, r, w) == At(m, r, w)
    {
      UserVpn(w);
    }
  }

  // ---------------------------------------------------------------------------
  // Ranges
  // ---------------------------------------------------------------------------

  /** All translations and contents are as before; interior page-table pages may
      have been added. */
  ghost predicate SameAt(m: Mem, n: Mem) {
    && MemInv(n) && SameRoots(m, n) && SameSystem(m, n) && Hands(n) == Hands(m)
    && forall r, w: nat :: Owned(m, r, Root) && w < TRAPFRAME ==> At(n, r, w) == At(m, r, w)
  }

  /** As before, except that `root` has nothing at lo .. hi - 1. */
  ghost predicate UnmapsRange(m: Mem, n: Mem, root: Ppn, lo: nat, hi: nat) {
    && MemInv(n) && SameRoots(m, n) && SameSystem(m, n)
    && (forall r, w: nat :: Owned(m, r, Root) && w < TRAPFRAME ==>
          At(n, r, w) == if r == root && lo <= w < hi then None else At(m, r, w))
    && OwnersRange(m, n, root, lo, hi)
  }

  ghost predicate InRange(o: Owner, root: Ppn, lo: nat, hi: nat) {
    o.User? && o.root == root && lo <= VpnOf(o.px) < hi
  }

  /** Exactly the pages that `root` had there are free again. */
  ghost predicate OwnersRange(m: Mem, n: Mem, root: Ppn, lo: nat, hi: nat) {
    && m.owner.Keys == n.owner.Keys
    && forall q :: q in m.owner ==>
         n.owner[q] == if InRange(m.owner[q], root, lo, hi) then Free else m.owner[q]
  }

  /** As before, except that `root` has page `z` at lo .. hi - 1. */
  ghost predicate Fills(m: Mem, n: Mem, root: Ppn, lo: nat, hi: nat, z: UPage) {
    && MemInv(n) && SameRoots(m, n) && SameSystem(m, n) && Hands(n) == Hands(m)
    && forall r, w: nat :: Owned(m, r, Root) && w < TRAPFRAME ==>
         At(n, r, w) == if r == root && lo <= w < hi then Some(z) else At(m, r, w)
  }

  lemma VpnIs(px: Px, k: nat)
    requires px.Ok()
    ensures px == PxOf(k) <==> VpnOf(px) == k
  {
    VpnOfPxOf(k);
    PxOfVpnOf(px);
  }

  lemma OwnersNext(m: Mem, a: Mem, n: Mem, root: Ppn, lo: nat, k: nat)
    requires MemInv(m) && lo <= k
    requires OwnersRange(m, a, root, lo, k) && OwnersUnmapped(a, n, root, PxOf(k))
    ensures OwnersRange(m, n, root, lo, k + 1)
  {
    forall q | q in m.owner
      ensures n.owner[q] == if InRange(m.owner[q], root, lo, k + 1) then Free else m.owner[q]
    {
      if m.owner[q].User? {
        UserAt(m, q);
        VpnIs(m.owner[q].px, k);
      }
    }
  }

  lemma UnmapsNext(m: Mem, a: Mem, n: Mem, root: Ppn, lo: nat, k: nat)
    requires MemInv(m) && Owned(m, root, Root) && lo <= k < TRAPFRAME
    requires UnmapsRange(m, a, root, lo, k) && Unmaps(a, n, root, PxOf(k))
    ensures UnmapsRange(m, n, root, lo, k + 1)
  {
    AtUnmapped(a, n, root, k);
    OwnersNext(m, a, n, root, lo, k);
    SystemTrans(m, a, n);
    forall r, w: nat | Owned(m, r, Root) && w < TRAPFRAME
      ensures At(n, r, w) == if r == root && lo <= w < k + 1 then None else At(m, r, w)
    {
      assert Owned(a, r, Root);
    }
  }

  lemma SystemTrans(m: Mem, a: Mem, n: Mem)
    requires SameRoots(m, a) && SameRoots(a, n) && SameSystem(m, a) && SameSystem(a, n)
    ensures SameRoots(m, n) && SameSystem(m, n)
  {
    forall r: Ppn, px: Px | Owned(m, r, Root) && px.Ok() && SystemPx(px)
      ensures Lookup(n, r, px) == Lookup(m, r, px)
    {
      assert Owned(a, r, Root);
    }
  }

  lemma HandsKept(m: Mem, n: Mem, root: Ppn, lo: nat, hi: nat)
    requires OwnersRange(m, n, root, lo, hi)
    ensures Hands(n) == Hands(m)
  {
  }

  /** uvmunmap with do_free: exactly the range is unmapped and freed. Missing
      mappings and missing tables are skipped. */
  method Uvmunmap(k: Machine, root: Ppn, v: nat, npages: nat)
    requires MemInv(k.M()) && Owned(k.M(), root, Root) && v + npages <= TRAPFRAME
    modifies k
    ensures UnmapsRange(old(k.M()), k.M(), root, v, v + npages) && Hands(k.M()) == old(Hands(k.M()))
    ensures |k.free| >= |old(k.free)|
  {
    ghost var m := k.M();
    for a := v to v + npages
      invariant UnmapsRange(m, k.M(), root, v, a) && |k.free| >= |old(k.free)|
    {
      ghost var b := k.M();
      PxOk(a);
      k.UnmapOne(root, PxOf(a));
      UnmapsNext(m, b, k.M(), root, v, a);
    }
    HandsKept(m, k.M(), root, v, v + npages);
  }

  // ---------------------------------------------------------------------------
  // A new page
  // ---------------------------------------------------------------------------

  ghost predicate AtAll(m: Mem, n: Mem) {
    && SameRoots(m, n) && SameSystem(m, n)
    && forall r, w: nat :: Owned(m, r, Root) && w < TRAPFRAME ==> At(n, r, w) == At(m, r, w)
  }

  lemma AtAllTrans(a: Mem, b: Mem, c: Mem)
    requires AtAll(a, b) && AtAll(b, c)
    ensures AtAll(a, c)
  {
    SystemTrans(a, b, c);
    forall r, w: nat | Owned(a, r, Root) && w < TRAPFRAME
      ensures At(c, r, w) == At(a, r, w)
    {
      assert Owned(b, r, Root);
    }
  }

  lemma LooseAt(m: Mem, n: Mem)
    requires MemInv(m) && SameLookups(m, n) && SameRoots(m, n)
    requires forall q :: q in m.owner && m.owner[q].User? ==> q in n.pages && q in m.pages && n.pages[q] == m.pages[q]
    ensures AtAll(m, n)
  {
    forall r, w: nat | Owned(m, r, Root) && w < TRAPFRAME
      ensures At(n, r, w) == At(m, r, w)
    {
      UserVpn(w);
      if Lookup(m, r, PxOf(w)).Some? {
        UserLeaf(m, r, PxOf(w));
      }
      SeesSame(m, n, r, PxOf(w));
    }
  }

  lemma TakeAt(m: Mem)
    requires MemInv(m) && m.free != []
    ensures MemInv(Take(m)) && AtAll(m, Take(m)) && IsHandPage(Take(m), m.free[0])
    ensures m.free[0] !in Hands(m) && Hands(Take(m)) == Hands(m) + {m.free[0]}
  {
    assert Owned(m, m.free[0], Free);
    TakeInv(m);
    LooseAt(m, Take(m));
  }

  lemma GiveAt(m: Mem, p: Ppn)
    requires MemInv(m) && Owned(m, p, Hand)
    ensures MemInv(Give(m, p)) && AtAll(m, Give(m, p)) && Hands(Give(m, p)) == Hands(m) - {p}
  {
    GiveInv(m, p);
    LooseAt(m, Give(m, p));
  }

  lemma FillHandAt(m: Mem, p: Ppn, b: seq<Byte>)
    requires MemInv(m) && IsHandPage(m, p) && |b| == PGSIZE
    ensures var n := SetBytes(m, p, b);
            MemInv(n) && AtAll(m, n) && IsHandPage(n, p) && n.pages[p].bytes == b && Hands(n) == Hands(m)
  {
    SetBytesInv(m, p, b);
    LooseAt(m, SetBytes(m, p, b));
  }

  /** kalloc, then memset or memmove. */
  method NewPage(k: Machine, bytes: seq<Byte>) returns (p: Option<Ppn>)
    requires MemInv(k.M()) && |bytes| == PGSIZE
    modifies k
    ensures p.None? ==> k.M() == old(k.M()) && k.free == []
    ensures p.Some? ==> |k.free| + 1 == |old(k.free)|
    ensures p.Some? ==>
              && MemInv(k.M()) && AtAll(old(k.M()), k.M())
              && IsHandPage(k.M(), p.value) && k.pages[p.value].bytes == bytes
              && p.value !in old(Hands(k.M())) && Hands(k.M()) == old(Hands(k.M())) + {p.value}
  {
    ghost var m := k.M();
    p := k.Kalloc();
    if p.Some? {
      TakeAt(m);
      ghost var a := k.M();
      FillHandAt(a, p.value, bytes);
      k.pages := k.pages[p.value := Data(bytes)];
      assert k.M() == SetBytes(a, p.value, bytes);
      AtAllTrans(m, a, k.M());
    }
  }

  /** As before, except that the page in hand `p` now appears as `z` at `v`. */
  ghost predicate Placed(m: Mem, n: Mem, root: Ppn, v: nat, p: Ppn, z: UPage) {
    && SameRoots(m, n) && SameSystem(m, n) && Hands(n) == Hands(m) - {p}
    && forall r, w: nat :: Owned(m, r, Root) && w < TRAPFRAME ==>
         At(n, r, w) == if r == root && w == v then Some(z) else At(m, r, w)
  }

  /** mappages of one page in hand. */
  method MapPage(k: Machine, root: Ppn, v: nat, p: Ppn, z: UPage) returns (ok: bool)
    requires MemInv(k.M()) && Owned(k.M(), root, Root) && v < TRAPFRAME
    requires (z.r || z.w || z.x) && IsHandPage(k.M(), p) && k.pages[p].bytes == z.bytes
    requires At(k.M(), root, v) == None
    modifies k
    ensures MemInv(k.M())
    ensures ok ==> Placed(old(k.M()), k.M(), root, v, p, z)
    ensures !ok ==> AtAll(old(k.M()), k.M()) && Hands(k.M()) == old(Hands(k.M())) && |old(k.free)| <= 1
    ensures |k.free| + 2 >= |old(k.free)|
  {
    ghost var b := k.M();
    PxOk(v);
    NothingThere(b, root, v);
    var e := Pte(true, z.r, z.w, z.x, z.u, p);
    var res := k.MapOne(root, PxOf(v), e);
    ok := res.Done?;
    if ok {
      AtMapped(b, k.M(), root, v, e);
    } else {
      AtKept(b, k.M());
    }
  }

  /** The body that uvmalloc, vmfault and uvmcopy share: kalloc, fill the page,
      mappages, and kfree when a page-table page is missing. */
  method PlacePage(k: Machine, root: Ppn, v: nat, z: UPage) returns (ok: bool)
    requires MemInv(k.M()) && Owned(k.M(), root, Root) && v < TRAPFRAME
    requires |z.bytes| == PGSIZE && (z.r || z.w || z.x)
    requires At(k.M(), root, v) == None
    modifies k
    ensures ok ==> Fills(old(k.M()), k.M(), root, v, v + 1, z) && |k.free| + 3 >= |old(k.free)|
    ensures !ok ==> SameAt(old(k.M()), k.M()) && |old(k.free)| <= 2
  {
    ghost var m := k.M();
    var p := NewPage(k, z.bytes);
    if p.None? {
      return false;
    }
    ghost var b := k.M();
    ok := MapPage(k, root, v, p.value, z);
    if ok {
      PlacedFills(m, b, k.M(), root, v, p.value, z);
    } else {
      PlacedUndone(m, b, k.M(), p.value);
      k.Kfree(p.value);
    }
  }

  lemma PlacedUndone(m: Mem, b: Mem, c: Mem, p: Ppn)
    requires AtAll(m, b) && AtAll(b, c) && MemInv(c)
    requires Hands(c) == Hands(b) == Hands(m) + {p} && p !in Hands(m)
    ensures Owned(c, p, Hand) && SameAt(m, Give(c, p))
  {
    assert p in Hands(c);
    AtAllTrans(m, b, c);
    GiveAt(c, p);
    AtAllTrans(m, c, Give(c, p));
  }

  lemma NothingThere(m: Mem, root: Ppn, v: nat)
    requires MemInv(m) && Owned(m, root, Root) && v < TRAPFRAME && At(m, root, v) == None
    ensures Lookup(m, root, PxOf(v)) == None
  {
    UserVpn(v);
    if Lookup(m, root, PxOf(v)).Some? {
      UserLeaf(m, root, PxOf(v));
    }
  }

  lemma PlacedFills(m: Mem, b: Mem, n: Mem, root: Ppn, v: nat, p: Ppn, z: UPage)
    requires AtAll(m, b) && MemInv(n) && Placed(b, n, root, v, p, z)
    requires Hands(b) == Hands(m) + {p} && p !in Hands(m)
    ensures Fills(m, n, root, v, v + 1, z)
  {
    SystemTrans(m, b, n);
    forall r, w: nat | Owned(m, r, Root) && w < TRAPFRAME
      ensures At(n, r, w) == if r == root && v <= w < v + 1 then Some(z) else At(m, r, w)
    {
      assert Owned(b, r, Root);
    }
  }

  // ---------------------------------------------------------------------------
  // Physical memory as address spaces
  // ---------------------------------------------------------------------------

  type Space = map<nat, UPage>

  /** What the page tables and the allocator amount to: the user pages of every
      address space, the trampoline and trapframe entries of every address space,
      the pages in hand, the trapframes, and all allocatable pages. */
  datatype View = View(
    spaces: map<Ppn, Space>,
    system: map<Ppn, (Option<Pte>, Option<Pte>)>,
    hands: set<Ppn>,
    frames: set<Ppn>,
    all: set<Ppn>)

  ghost function Roots(m: Mem): set<Ppn> {
    set r | r in m.owner && m.owner[r].Root?
  }

  ghost function Frames(m: Mem): set<Ppn> {
    set q | q in m.owner && m.owner[q].Frame?
  }

  ghost function SpaceOf(m: Mem, r: Ppn): Space {
    map v: nat | v < TRAPFRAME && At(m, r, v).Some? :: At(m, r, v).value
  }

  ghost function SystemOf(m: Mem, r: Ppn): (Option<Pte>, Option<Pte>) {
    (Lookup(m, r, PxOf(TRAMPOLINE)), Lookup(m, r, PxOf(TRAPFRAME)))
  }

  ghost function ViewOf(m: Mem): View {
    View(map r | r in Roots(m) :: SpaceOf(m, r), map r | r in Roots(m) :: SystemOf(m, r), Hands(m), Frames(m),
        m.owner.Keys)
  }

  ghost function WithSpace(a: View, root: Ppn, s: Space): View {
    a.(spaces := a.spaces[root := s])
  }

  ghost function Put(s: Space, v: nat, z: UPage): Space {
    s[v := z]
  }

  ghost function Without(s: Space, lo: nat, hi: nat): Space {
    map w | w in s && !(lo <= w < hi) :: s[w]
  }

  lemma ViewSame(m: Mem, n: Mem)
    requires SameAt(m, n)
    ensures ViewOf(n) == ViewOf(m)
  {
    SystemSame(m, n);
    SpacesSame(m, n);
    assert Frames(n) == Frames(m);
  }

  lemma SpacesSame(m: Mem, n: Mem)
    requires SameAt(m, n)
    ensures ViewOf(n).spaces == ViewOf(m).spaces
  {
    assert Roots(n) == Roots(m);
    forall r | r in Roots(m)
      ensures SpaceOf(n, r) == SpaceOf(m, r)
    {
      assert Owned(m, r, Root);
      SpaceSame(m, n, r);
    }
  }

  lemma SystemSame(m: Mem, n: Mem)
    requires SameRoots(m, n) && SameSystem(m, n)
    ensures ViewOf(n).system == ViewOf(m).system
  {
    PxOk(TRAMPOLINE);
    PxOk(TRAPFRAME);
    assert Roots(n) == Roots(m);
    forall r | r in Roots(m)
      ensures SystemOf(n, r) == SystemOf(m, r)
    {
      assert Owned(m, r, Root);
    }
  }

  /** `root` has the space `s`, every other address space is as before. */
  ghost predicate SpacesBut(m: Mem, n: Mem, root: Ppn, s: Space) {
    && SpaceOf(n, root) == s
    && forall r :: r in Roots(m) && r != root ==> SpaceOf(n, r) == SpaceOf(m, r)
  }

  lemma ViewChanged(m: Mem, n: Mem, root: Ppn, s: Space)
    requires SameRoots(m, n) && SameSystem(m, n) && root in Roots(m) && Hands(n) == Hands(m)
    requires SpacesBut(m, n, root, s)
    ensures root in ViewOf(m).spaces
    ensures ViewOf(n) == WithSpace(ViewOf(m), root, s)
  {
    SystemSame(m, n);
    assert Roots(n) == Roots(m) && Frames(n) == Frames(m);
    assert ViewOf(n).spaces == ViewOf(m).spaces[root := s];
  }

  lemma SpaceSame(m: Mem, n: Mem, r: Ppn)
    requires forall w: nat :: w < TRAPFRAME ==> At(n, r, w) == At(m, r, w)
    ensures SpaceOf(n, r) == SpaceOf(m, r)
  {
  }

  lemma SpaceFilled(m: Mem, n: Mem, r: Ppn, v: nat, z: UPage)
    requires v < TRAPFRAME
    requires forall w: nat :: w < TRAPFRAME ==> At(n, r, w) == if w == v then Some(z) else At(m, r, w)
    ensures SpaceOf(n, r) == Put(SpaceOf(m, r), v, z)
  {
  }

  lemma SpaceUnmapped(m: Mem, n: Mem, r: Ppn, lo: nat, hi: nat)
    requires forall w: nat :: w < TRAPFRAME ==> At(n, r, w) == if lo <= w < hi then None else At(m, r, w)
    ensures SpaceOf(n, r) == Without(SpaceOf(m, r), lo, hi)
  {
  }

  lemma ViewFilled(m: Mem, n: Mem, root: Ppn, v: nat, z: UPage)
    requires Fills(m, n, root, v, v + 1, z) && Owned(m, root, Root) && v < TRAPFRAME
    ensures root in ViewOf(m).spaces
    ensures ViewOf(n) == WithSpace(ViewOf(m), root, Put(ViewOf(m).spaces[root], v, z))
  {
    SpaceFilled(m, n, root, v, z);
    forall r | r in Roots(m) && r != root
      ensures SpaceOf(n, r) == SpaceOf(m, r)
    {
      assert Owned(m, r, Root);
      SpaceSame(m, n, r);
    }
    ViewChanged(m, n, root, Put(SpaceOf(m, root), v, z));
  }

  lemma ViewUnmapped(m: Mem, n: Mem, root: Ppn, lo: nat, hi: nat)
    requires UnmapsRange(m, n, root, lo, hi) && Owned(m, root, Root)
    ensures root in ViewOf(m).spaces
    ensures ViewOf(n) == WithSpace(ViewOf(m), root, Without(ViewOf(m).spaces[root], lo, hi))
  {
    HandsKept(m, n, root, lo, hi);
    SpaceUnmapped(m, n, root, lo, hi);
    forall r | r in Roots(m) && r != root
      ensures SpaceOf(n, r) == SpaceOf(m, r)
    {
      assert Owned(m, r, Root);
      SpaceSame(m, n, r);
    }
    ViewChanged(m, n, root, Without(SpaceOf(m, root), lo, hi));
  }
}
