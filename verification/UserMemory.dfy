/** The user-memory operations of xv6/kernel/vm.c, kernel/proc.c and
    kernel/sysproc.c, each by its effect on the address spaces: what every process
    sees, what is in hand, and what is left alone when memory runs out halfway. */
module UserMemory {
  import opened Options
  import opened PageTable
  import opened AddressSpace
  import opened Vm

  // ---------------------------------------------------------------------------
  // Representation
  // ---------------------------------------------------------------------------

  ghost predicate IsRoot(m: Mem, r: Ppn) {
    r in m.owner && m.owner[r].Root?
  }

  /** `s` is what address space `r` has below the trapframe. */
  ghost predicate SpaceRep(m: Mem, r: Ppn, s: Space) {
    && (forall v: nat {:trigger At(m, r, v)} :: v < TRAPFRAME ==> At(m, r, v) == if v in s then Some(s[v]) else None)
    && (forall v :: v in s ==> v < TRAPFRAME)
  }

  ghost predicate RootRep(m: Mem, a: View, r: Ppn) {
    && (IsRoot(m, r) <==> r in a.spaces) && (IsRoot(m, r) <==> r in a.system)
    && (IsRoot(m, r) ==> SpaceRep(m, r, a.spaces[r]) && a.system[r] == SystemOf(m, r))
  }

  /** Physical memory `m` is in order and amounts to the view `a`. */
  ghost predicate Rep(m: Mem, a: View) {
    && MemInv(m)
    && a.hands == Hands(m) && a.frames == Frames(m) && a.all == m.owner.Keys
    && forall r: Ppn {:trigger RootRep(m, a, r)} :: RootRep(m, a, r)
  }

  lemma SpaceRepIs(m: Mem, r: Ppn, s: Space)
    ensures SpaceRep(m, r, s) <==> s == SpaceOf(m, r)
  {
    if SpaceRep(m, r, s) {
      forall v: nat
        ensures v in s <==> v in SpaceOf(m, r)
        ensures v in s ==> s[v] == SpaceOf(m, r)[v]
      {
        assert v < TRAPFRAME ==> At(m, r, v) == if v in s then Some(s[v]) else None;
      }
      assert s == SpaceOf(m, r);
    }
  }

  lemma RepIs(m: Mem, a: View)
    ensures Rep(m, a) <==> MemInv(m) && a == ViewOf(m)
  {
    if Rep(m, a) { RepSpaces(m, a); }
    if MemInv(m) && a == ViewOf(m) { ViewRep(m); }
  }

  lemma RootRepIs(m: Mem, a: View, r: Ppn)
    requires IsRoot(m, r)
    ensures RootRep(m, a, r) <==>
            r in a.spaces && r in a.system && a.spaces[r] == SpaceOf(m, r) && a.system[r] == SystemOf(m, r)
  {
    if r in a.spaces { SpaceRepIs(m, r, a.spaces[r]); }
  }

  lemma RepSpaces(m: Mem, a: View)
    requires Rep(m, a)
    ensures a.spaces == ViewOf(m).spaces && a.system == ViewOf(m).system
  {
    forall r: Ppn
      ensures r in a.spaces <==> r in Roots(m)
      ensures r in a.system <==> r in Roots(m)
      ensures r in Roots(m) ==> a.spaces[r] == SpaceOf(m, r) && a.system[r] == SystemOf(m, r)
    {
      assert RootRep(m, a, r);
      if r in Roots(m) { RootRepIs(m, a, r); }
    }
  }

  lemma ViewRep(m: Mem)
    requires MemInv(m)
    ensures Rep(m, ViewOf(m))
  {
    var a := ViewOf(m);
    forall r: Ppn
      ensures RootRep(m, a, r)
    {
      assert r in a.spaces <==> r in Roots(m);
      if r in Roots(m) { RootRepIs(m, a, r); }
    }
  }

  // ---------------------------------------------------------------------------
  // One page at a time
  // ---------------------------------------------------------------------------

  ghost predicate GoodPage(z: UPage) {
    |z.bytes| == PGSIZE && (z.r || z.w || z.x)
  }

  lemma RepRoot(m: Mem, a: View, r: Ppn)
    requires Rep(m, a) && r in a.spaces
    ensures MemInv(m) && Owned(m, r, Root) && a == ViewOf(m) && r in a.system
  {
    RepIs(m, a);
    assert RootRep(m, a, r);
  }

  lemma RepAt(m: Mem, a: View, r: Ppn, v: nat)
    requires Rep(m, a) && r in a.spaces && v < TRAPFRAME
    ensures At(m, r, v) == if v in a.spaces[r] then Some(a.spaces[r][v]) else None
  {
    assert RootRep(m, a, r);
  }

  /** kalloc, fill, mappages; with three free pages it cannot fail. */
  method Place(k: Machine, root: Ppn, v: nat, z: UPage, ghost a: View) returns (ok: bool)
    requires Rep(k.M(), a) && GoodPage(z) && v < TRAPFRAME && root in a.spaces && v !in a.spaces[root]
    modifies k
    ensures ok ==> Rep(k.M(), WithSpace(a, root, Put(a.spaces[root], v, z))) && |k.free| + 3 >= |old(k.free)|
    ensures !ok ==> Rep(k.M(), a) && |old(k.free)| <= 2
  {
    ghost var m := k.M();
    RepRoot(m, a, root);
    RepAt(m, a, root, v);
    ok := PlacePage(k, root, v, z);
    if ok {
      ViewFilled(m, k.M(), root, v, z);
      RepIs(k.M(), WithSpace(a, root, Put(a.spaces[root], v, z)));
    } else {
      ViewSame(m, k.M());
      RepIs(k.M(), a);
    }
  }

  /** uvmunmap with do_free. */
  method Unmap(k: Machine, root: Ppn, lo: nat, hi: nat, ghost a: View)
    requires Rep(k.M(), a) && root in a.spaces && lo <= hi <= TRAPFRAME
    modifies k
    ensures Rep(k.M(), WithSpace(a, root, Without(a.spaces[root], lo, hi))) && |k.free| >= |old(k.free)|
  {
    ghost var m := k.M();
    RepRoot(m, a, root);
    Uvmunmap(k, root, lo, hi - lo);
    ViewUnmapped(m, k.M(), root, lo, hi);
    RepIs(k.M(), WithSpace(a, root, Without(a.spaces[root], lo, hi)));
  }

  /** walkaddr and ismapped: what is mapped at `v`. */
  method Mapped(k: Machine, root: Ppn, v: nat, ghost a: View) returns (z: Option<UPage>)
    requires Rep(k.M(), a) && root in a.spaces && v < TRAPFRAME
    modifies k
    ensures k.M() == old(k.M())
    ensures z == if v in a.spaces[root] then Some(a.spaces[root][v]) else None
    ensures z.Some? ==> GoodPage(z.value)
  {
    RepRoot(k.M(), a, root);
    RepAt(k.M(), a, root, v);
    UserVpn(v);
    var px := PxOf(v);
    var low := k.Walk(root, px, false);
    if low.None? {
      return None;
    }
    LowPath(k.M(), low.value);
    LowLookup(k.M(), low.value, px.i0);
    var e := k.pages[low.value].ptes[px.i0];
    if !e.v {
      return None;
    }
    UserLeaf(k.M(), root, px);
    z := Some(UPage(e.r, e.w, e.x, e.u, k.pages[e.ppn].bytes));
  }

  // ---------------------------------------------------------------------------
  // uvmalloc, uvmdealloc, vmfault
  // ---------------------------------------------------------------------------

  /** PGROUNDUP(sz) / PGSIZE. */
  function Pages(sz: nat): (n: nat) {
    (sz + PGSIZE - 1) / PGSIZE
  }

  lemma PagesMonotone(a: nat, b: nat)
    requires a <= b
    ensures Pages(a) <= Pages(b)
  {
  }

  lemma BelowPages(va: nat, sz: nat)
    requires va < sz
    ensures va / PGSIZE < Pages(sz)
  {
  }

  function ZeroPage(w: bool, x: bool): (z: UPage) {
    UPage(true, w, x, true, ZeroBytes())
  }

  /** `s` with `z` at lo .. hi - 1. */
  ghost function WithRun(s: Space, lo: nat, hi: nat, z: UPage): Space
    decreases hi
  {
    if hi <= lo then s else Put(WithRun(s, lo, hi - 1, z), hi - 1, z)
  }

  lemma {:induction false} WithRunAt(s: Space, lo: nat, hi: nat, z: UPage)
    ensures forall w: nat :: w in WithRun(s, lo, hi, z) <==> w in s || lo <= w < hi
    ensures forall w: nat :: w in WithRun(s, lo, hi, z) ==> WithRun(s, lo, hi, z)[w] == if lo <= w < hi then z else s[w]
    decreases hi
  {
    if hi > lo {
      WithRunAt(s, lo, hi - 1, z);
    }
  }

  ghost predicate Nothing(s: Space, lo: nat, hi: nat) {
    forall w: nat :: lo <= w < hi ==> w !in s
  }

  lemma WithRunUndone(s: Space, lo: nat, hi: nat, z: UPage)
    requires Nothing(s, lo, hi)
    ensures Without(WithRun(s, lo, hi, z), lo, hi) == s
  {
    WithRunAt(s, lo, hi, z);
  }

  lemma SpaceTwice(a: View, root: Ppn, s: Space, t: Space)
    ensures WithSpace(WithSpace(a, root, s), root, t) == WithSpace(a, root, t)
    ensures root in a.spaces && a.spaces[root] == t ==> WithSpace(a, root, t) == a
  {
  }

  /** The view when uvmalloc has placed lo .. v - 1. */
  ghost function Grown(a: View, root: Ppn, lo: nat, v: nat, z: UPage): View
    requires root in a.spaces
  {
    WithSpace(a, root, WithRun(a.spaces[root], lo, v, z))
  }

  /** The error path of uvmalloc: uvmdealloc of what was added. */
  method Ungrow(k: Machine, root: Ppn, lo: nat, hi: nat, ghost z: UPage, ghost a: View)
    requires root in a.spaces && Rep(k.M(), Grown(a, root, lo, hi, z)) && lo <= hi <= TRAPFRAME
    requires Nothing(a.spaces[root], lo, hi)
    modifies k
    ensures Rep(k.M(), a)
  {
    Unmap(k, root, lo, hi, Grown(a, root, lo, hi, z));
    WithRunUndone(a.spaces[root], lo, hi, z);
    SpaceTwice(a, root, WithRun(a.spaces[root], lo, hi, z), a.spaces[root]);
  }

  /** One round of the loop of uvmalloc. */
  method GrowOne(k: Machine, root: Ppn, lo: nat, v: nat, z: UPage, ghost a: View) returns (ok: bool)
    requires root in a.spaces && Rep(k.M(), Grown(a, root, lo, v, z)) && GoodPage(z) && lo <= v < TRAPFRAME
    requires v !in a.spaces[root]
    modifies k
    ensures ok ==> Rep(k.M(), Grown(a, root, lo, v + 1, z)) && |k.free| + 3 >= |old(k.free)|
    ensures !ok ==> Rep(k.M(), Grown(a, root, lo, v, z)) && |old(k.free)| <= 2
  {
    WithRunAt(a.spaces[root], lo, v, z);
    SpaceTwice(a, root, WithRun(a.spaces[root], lo, v, z), WithRun(a.spaces[root], lo, v + 1, z));
    ok := Place(k, root, v, z, Grown(a, root, lo, v, z));
  }

  /** The loop of uvmalloc: all of the new pages or, when memory runs out, none. */
  method Grow(k: Machine, root: Ppn, lo: nat, hi: nat, z: UPage, ghost a: View) returns (ok: bool)
    requires Rep(k.M(), a) && GoodPage(z) && lo <= hi <= TRAPFRAME && root in a.spaces
             && Nothing(a.spaces[root], lo, hi)
    modifies k
    ensures ok ==> Rep(k.M(), Grown(a, root, lo, hi, z)) && |k.free| + 3 * (hi - lo) >= |old(k.free)|
    ensures !ok ==> Rep(k.M(), a) && |old(k.free)| < 3 * (hi - lo)
  {
    SpaceTwice(a, root, a.spaces[root], a.spaces[root]);
    for v := lo to hi
      invariant Rep(k.M(), Grown(a, root, lo, v, z))
      invariant |k.free| + 3 * (v - lo) >= |old(k.free)|
    {
      ok := GrowOne(k, root, lo, v, z, a);
      if !ok {
        Ungrow(k, root, lo, v, z, a);
        return;
      }
    }
    ok := true;
  }

  /** uvmalloc. Returns the new size, or nothing when memory runs out. */
  method Uvmalloc(k: Machine, root: Ppn, oldsz: nat, newsz: nat, xw: bool, xx: bool, ghost a: View)
    returns (sz: Option<nat>)
    requires Rep(k.M(), a) && Pages(newsz) <= TRAPFRAME
    requires root in a.spaces && Nothing(a.spaces[root], Pages(oldsz), Pages(newsz))
    modifies k
    ensures newsz < oldsz ==> sz == Some(oldsz) && Rep(k.M(), a)
    ensures newsz >= oldsz && sz.Some? ==>
              && sz.value == newsz && Rep(k.M(), Grown(a, root, Pages(oldsz), Pages(newsz), ZeroPage(xw, xx)))
              && |k.free| + 3 * (Pages(newsz) - Pages(oldsz)) >= |old(k.free)|
    ensures sz.None? ==> Rep(k.M(), a) && |old(k.free)| < 3 * (Pages(newsz) - Pages(oldsz))
  {
    if newsz < oldsz {
      return Some(oldsz);
    }
    PagesMonotone(oldsz, newsz);
    var ok := Grow(k, root, Pages(oldsz), Pages(newsz), ZeroPage(xw, xx), a);
    sz := if ok then Some(newsz) else None;
  }

  /** uvmdealloc. */
  method Uvmdealloc(k: Machine, root: Ppn, oldsz: nat, newsz: nat, ghost a: View) returns (sz: nat)
    requires Rep(k.M(), a) && root in a.spaces && Pages(oldsz) <= TRAPFRAME
    modifies k
    ensures sz == if newsz < oldsz then newsz else oldsz
    ensures Rep(k.M(), WithSpace(a, root, Without(a.spaces[root], Pages(sz), Pages(oldsz))))
            && |k.free| >= |old(k.free)|
  {
    sz := if newsz < oldsz then newsz else oldsz;
    PagesMonotone(sz, oldsz);
    if Pages(sz) < Pages(oldsz) {
      Unmap(k, root, Pages(sz), Pages(oldsz), a);
    } else {
      assert Without(a.spaces[root], Pages(sz), Pages(oldsz)) == a.spaces[root];
      SpaceTwice(a, root, a.spaces[root], a.spaces[root]);
    }
  }

  /** vmfault, for a process of size `sz`: the faulting page gets zeroes unless the
      address is beyond the end or the page is mapped. */
  method Vmfault(k: Machine, root: Ppn, sz: nat, va: nat, ghost a: View) returns (ok: bool)
    requires Rep(k.M(), a) && root in a.spaces && Pages(sz) <= TRAPFRAME
    modifies k
    ensures ok ==> va < sz && va / PGSIZE !in a.spaces[root]
    ensures ok ==> Rep(k.M(), WithSpace(a, root, Put(a.spaces[root], va / PGSIZE, ZeroPage(true, false))))
    ensures !ok ==> Rep(k.M(), a) && (va < sz && va / PGSIZE !in a.spaces[root] ==> |old(k.free)| <= 2)
    ensures ok || va >= sz || va / PGSIZE in a.spaces[root] ==> |k.free| + 3 >= |old(k.free)|
  {
    if va >= sz {
      return false;
    }
    BelowPages(va, sz);
    var z := Mapped(k, root, va / PGSIZE, a);
    if z.Some? {
      return false;
    }
    ok := Place(k, root, va / PGSIZE, ZeroPage(true, false), a);
  }

  // ---------------------------------------------------------------------------
  // fork
  // ---------------------------------------------------------------------------

  /** The part of `s` below page `n`. */
  ghost function Below(s: Space, n: nat): Space {
    map w | w in s && w < n :: s[w]
  }

  /** The child has copies of the parent's pages below `n`. */
  ghost function Copied(a: View, parent: Ppn, child: Ppn, n: nat): View
    requires parent in a.spaces
  {
    WithSpace(a, child, Below(a.spaces[parent], n))
  }

  lemma CopiedNone(a: View, parent: Ppn, child: Ppn)
    requires parent in a.spaces && child in a.spaces && a.spaces[child] == map[]
    ensures Copied(a, parent, child, 0) == a
  {
    assert Below(a.spaces[parent], 0) == map[];
    SpaceTwice(a, child, map[], map[]);
  }

  /** The error path of uvmcopy. */
  method Uncopy(k: Machine, parent: Ppn, child: Ppn, v: nat, ghost a: View)
    requires parent in a.spaces && child in a.spaces && a.spaces[child] == map[] && v <= TRAPFRAME
    requires Rep(k.M(), Copied(a, parent, child, v))
    modifies k
    ensures Rep(k.M(), a)
  {
    Unmap(k, child, 0, v, Copied(a, parent, child, v));
    ghost var s := Below(a.spaces[parent], v);
    assert Without(s, 0, v) == map[];
    SpaceTwice(a, child, s, map[]);
    SpaceTwice(a, child, map[], map[]);
  }

  /** One round of the loop of uvmcopy: an unmapped page of the parent is skipped. */
  method CopyOne(k: Machine, parent: Ppn, child: Ppn, v: nat, ghost a: View) returns (ok: bool)
    requires parent in a.spaces && child in a.spaces && parent != child && v < TRAPFRAME
    requires Rep(k.M(), Copied(a, parent, child, v))
    modifies k
    ensures ok ==> Rep(k.M(), Copied(a, parent, child, v + 1)) && |k.free| + 3 >= |old(k.free)|
    ensures !ok ==> Rep(k.M(), Copied(a, parent, child, v)) && |old(k.free)| <= 2
  {
    ghost var s := Below(a.spaces[parent], v);
    var z := Mapped(k, parent, v, Copied(a, parent, child, v));
    if z.None? {
      assert Below(a.spaces[parent], v + 1) == s;
      return true;
    }
    assert Below(a.spaces[parent], v + 1) == Put(s, v, z.value);
    SpaceTwice(a, child, s, Put(s, v, z.value));
    ok := Place(k, child, v, z.value, Copied(a, parent, child, v));
  }

  /** uvmcopy into an empty address space: an equal copy, or nothing. */
  method Uvmcopy(k: Machine, parent: Ppn, child: Ppn, sz: nat, ghost a: View) returns (ok: bool)
    requires Rep(k.M(), a) && Pages(sz) <= TRAPFRAME && parent != child
    requires parent in a.spaces && child in a.spaces && a.spaces[child] == map[]
    modifies k
    ensures ok ==> Rep(k.M(), Copied(a, parent, child, Pages(sz))) && |k.free| + 3 * Pages(sz) >= |old(k.free)|
    ensures !ok ==> Rep(k.M(), a) && |old(k.free)| < 3 * Pages(sz)
  {
    CopiedNone(a, parent, child);
    for v := 0 to Pages(sz)
      invariant Rep(k.M(), Copied(a, parent, child, v))
      invariant |k.free| + 3 * v >= |old(k.free)|
    {
      ok := CopyOne(k, parent, child, v, a);
      if !ok {
        Uncopy(k, parent, child, v, a);
        return;
      }
    }
    ok := true;
  }

  // ---------------------------------------------------------------------------
  // Stores
  // ---------------------------------------------------------------------------

  ghost function WithBytes(z: UPage, b: seq<Byte>): UPage {
    z.(bytes := b)
  }

  /** Only the slot that owns the page sees its new contents. */
  lemma PokedAt(m: Mem, root: Ppn, v: nat, b: seq<Byte>, r: Ppn, w: nat)
    requires MemInv(m) && Owned(m, root, Root) && Owned(m, r, Root) && v < TRAPFRAME && w < TRAPFRAME
    requires Lookup(m, root, PxOf(v)).Some?
    ensures var q := Lookup(m, root, PxOf(v)).value.ppn;
            && At(m, root, v).Some?
            && At(SetBytes(m, q, b), r, w) ==
                 if r == root && w == v then Some(WithBytes(At(m, root, v).value, b)) else At(m, r, w)
  {
    UserVpn(v);
    UserVpn(w);
    UserLeaf(m, root, PxOf(v));
    var q := Lookup(m, root, PxOf(v)).value.ppn;
    var n := SetBytes(m, q, b);
    assert forall y, k :: Entry(n, y, k) == Entry(m, y, k);
    SameEntriesLookup(m, n, r, PxOf(w));
    if Lookup(m, r, PxOf(w)).Some? {
      UserLeaf(m, r, PxOf(w));
      if Lookup(m, r, PxOf(w)).value.ppn == q {
        PxInjective(v, w);
      }
    }
  }

  lemma Poked(m: Mem, a: View, root: Ppn, v: nat, b: seq<Byte>)
    requires Rep(m, a) && root in a.spaces && v in a.spaces[root] && |b| == PGSIZE
    requires v < TRAPFRAME && Lookup(m, root, PxOf(v)).Some?
    ensures Rep(SetBytes(m, Lookup(m, root, PxOf(v)).value.ppn, b),
                WithSpace(a, root, Put(a.spaces[root], v, WithBytes(a.spaces[root][v], b))))
  {
    RepRoot(m, a, root);
    UserVpn(v);
    UserLeaf(m, root, PxOf(v));
    var q := Lookup(m, root, PxOf(v)).value.ppn;
    var n := SetBytes(m, q, b);
    var c := WithSpace(a, root, Put(a.spaces[root], v, WithBytes(a.spaces[root][v], b)));
    SetBytesInv(m, q, b);
    assert Hands(n) == Hands(m) && Frames(n) == Frames(m);
    forall r: Ppn
      ensures RootRep(n, c, r)
    {
      assert RootRep(m, a, r);
      PokedRoot(m, a, root, v, b, r);
    }
  }

  lemma PokedRoot(m: Mem, a: View, root: Ppn, v: nat, b: seq<Byte>, r: Ppn)
    requires Rep(m, a) && root in a.spaces && v in a.spaces[root] && RootRep(m, a, r)
    requires v < TRAPFRAME && Lookup(m, root, PxOf(v)).Some? && Owned(m, root, Root)
    requires SameLookups(m, SetBytes(m, Lookup(m, root, PxOf(v)).value.ppn, b))
    ensures RootRep(SetBytes(m, Lookup(m, root, PxOf(v)).value.ppn, b),
                    WithSpace(a, root, Put(a.spaces[root], v, WithBytes(a.spaces[root][v], b))), r)
  {
    if IsRoot(m, r) {
      assert Owned(m, r, Root);
      PxOk(TRAMPOLINE);
      PxOk(TRAPFRAME);
      RepAt(m, a, root, v);
      var n := SetBytes(m, Lookup(m, root, PxOf(v)).value.ppn, b);
      var s := WithSpace(a, root, Put(a.spaces[root], v, WithBytes(a.spaces[root][v], b))).spaces[r];
      forall w: nat | w < TRAPFRAME
        ensures At(n, r, w) == if w in s then Some(s[w]) else None
      {
        PokedAt(m, root, v, b, r, w);
        RepAt(m, a, r, w);
      }
    }
  }

  /** memmove into a mapped user page, or a user store. */
  method Poke(k: Machine, root: Ppn, v: nat, b: seq<Byte>, ghost a: View)
    requires Rep(k.M(), a) && root in a.spaces && v in a.spaces[root] && v < TRAPFRAME && |b| == PGSIZE
    modifies k
    ensures Rep(k.M(), WithSpace(a, root, Put(a.spaces[root], v, WithBytes(a.spaces[root][v], b))))
    ensures k.free == old(k.free)
  {
    ghost var m := k.M();
    RepRoot(m, a, root);
    RepAt(m, a, root, v);
    UserVpn(v);
    var px := PxOf(v);
    assert Lookup(m, root, px).Some?;
    var low := k.Walk(root, px, false);
    LowPath(m, low.value);
    LowLookup(m, low.value, px.i0);
    var e := k.pages[low.value].ptes[px.i0];
    Poked(m, a, root, v, b);
    k.pages := k.pages[e.ppn := Data(b)];
    assert k.M() == SetBytes(m, e.ppn, b);
  }
}
