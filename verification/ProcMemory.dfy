/** Memory over the life of processes (xv6/kernel/proc.c, kernel/vm.c): building
    and freeing whole page tables, and no page lost or given out twice. */
module ProcMemory {
  import opened Options
  import opened PageTable
  import opened AddressSpace
  import opened Vm
  import opened FreeWalk
  import opened UserMemory

  // ---------------------------------------------------------------------------
  // Freeing a page table
  // ---------------------------------------------------------------------------

  ghost function Removed(a: View, root: Ppn): View {
    a.(spaces := a.spaces - {root}, system := a.system - {root})
  }

  lemma VpnBound(px: Px)
    requires px.Ok() && !SystemPx(px)
    ensures VpnOf(px) < TRAPFRAME
  {
  }

  lemma SystemSlots(px: Px)
    requires px.Ok() && SystemPx(px)
    ensures px == PxOf(TRAMPOLINE) || px == PxOf(TRAPFRAME)
  {
  }

  /** An address space without pages translates nothing. */
  lemma NoTranslations(m: Mem, a: View, root: Ppn, px: Px)
    requires Rep(m, a) && root in a.spaces && a.spaces[root] == map[] && root in a.system
             && a.system[root] == (None, None)
    requires px.Ok()
    ensures Lookup(m, root, px) == None
  {
    RepRoot(m, a, root);
    if SystemPx(px) {
      SystemSlots(px);
      assert RootRep(m, a, root);
    } else {
      VpnBound(px);
      PxOfVpnOf(px);
      RepAt(m, a, root, VpnOf(px));
      NothingThere(m, root, VpnOf(px));
    }
  }

  lemma EmptyTree(m: Mem, a: View, root: Ppn)
    requires Rep(m, a) && root in a.spaces && a.spaces[root] == map[] && root in a.system
             && a.system[root] == (None, None)
    ensures IsLevel(m, root, 2) && NoLeaves(m, root)
  {
    RepRoot(m, a, root);
    forall l, i: nat | l in m.owner && m.owner[l].Low? && (l == root || Under(m.owner[l], root, NPTE)) && i < NPTE
      ensures !Entry(m, l, i).v
    {
      EmptyLow(m, a, root, l, i);
    }
  }

  lemma EmptyLow(m: Mem, a: View, root: Ppn, l: Ppn, i: nat)
    requires Rep(m, a) && root in a.spaces && a.spaces[root] == map[] && root in a.system
             && a.system[root] == (None, None)
    requires l in m.owner && m.owner[l].Low? && Under(m.owner[l], root, NPTE) && i < NPTE
    ensures !Entry(m, l, i).v
  {
    RepRoot(m, a, root);
    assert PageOk(m, l);
    LowPath(m, l);
    LowLookup(m, l, i);
    NoTranslations(m, a, root, Px(m.owner[l].i2, m.owner[l].i1, i));
  }

  lemma EmptiedSame(m: Mem, n: Mem, root: Ppn)
    requires MemInv(m) && Owned(m, root, Root) && Emptied(m, n, root, NPTE)
    ensures SameAt(m, n)
  {
    assert SameRoots(m, n);
    LooseAt(m, n);
    assert Hands(n) == Hands(m);
  }

  lemma RootDropped(m: Mem, a: View, root: Ppn)
    requires Rep(m, a) && root in a.spaces && forall k :: 0 <= k < NPTE ==> !Entry(m, root, k).v
    ensures MemInv(DropRoot(m, root)) && Owned(DropRoot(m, root), root, Hand)
    ensures Rep(Give(DropRoot(m, root), root), Removed(a, root))
  {
    RepRoot(m, a, root);
    DropRootInv(m, root);
    GiveAt(DropRoot(m, root), root);
    DroppedSets(m, root);
    forall r: Ppn
      ensures RootRep(Give(DropRoot(m, root), root), Removed(a, root), r)
    {
      assert RootRep(m, a, r);
      RootDroppedAt(m, a, root, r);
    }
  }

  lemma DroppedSets(m: Mem, root: Ppn)
    requires Owned(m, root, Root)
    ensures var n := Give(DropRoot(m, root), root);
            Hands(n) == Hands(m) && Frames(n) == Frames(m) && n.owner.Keys == m.owner.Keys
  {
  }

  lemma RootDroppedAt(m: Mem, a: View, root: Ppn, r: Ppn)
    requires MemInv(m) && RootRep(m, a, r) && AtAll(DropRoot(m, root), Give(DropRoot(m, root), root)) && root in m.owner
    ensures RootRep(Give(DropRoot(m, root), root), Removed(a, root), r)
  {
    var d := DropRoot(m, root);
    var n := Give(d, root);
    if r != root && IsRoot(m, r) {
      assert Owned(d, r, Root);
      assert forall y, k :: Entry(d, y, k) == Entry(m, y, k);
      SameEntriesLookup(m, d, r, PxOf(TRAMPOLINE));
      SameEntriesLookup(m, d, r, PxOf(TRAPFRAME));
      PxOk(TRAMPOLINE);
      PxOk(TRAPFRAME);
      assert SystemOf(n, r) == SystemOf(m, r);
      forall v: nat | v < TRAPFRAME
        ensures At(n, r, v) == At(m, r, v)
      {
        SameEntriesLookup(m, d, r, PxOf(v));
        assert At(n, r, v) == At(d, r, v);
      }
    }
  }

  /** freewalk on an address space that has no translations left: the tree is gone
      and nothing else changed. */
  method Freewalk(k: Machine, root: Ppn, ghost a: View)
    requires Rep(k.M(), a) && root in a.spaces && a.spaces[root] == map[] && root in a.system
             && a.system[root] == (None, None)
    modifies k
    ensures Rep(k.M(), Removed(a, root)) && |k.free| >= |old(k.free)|
  {
    ghost var m := k.M();
    EmptyTree(m, a, root);
    RepRoot(m, a, root);
    EmptyTable(k, root, 2);
    ghost var n := k.M();
    EmptiedSame(m, n, root);
    ViewSame(m, n);
    RepIs(n, a);
    RootDropped(n, a, root);
    k.owner := k.owner[root := Hand];
    assert k.M() == DropRoot(n, root);
    k.Kfree(root);
  }

  ghost predicate Bounded(s: Space, n: nat) {
    forall v :: v in s ==> v < n
  }

  /** uvmfree. */
  method Uvmfree(k: Machine, root: Ppn, sz: nat, ghost a: View)
    requires Rep(k.M(), a) && root in a.spaces && Bounded(a.spaces[root], Pages(sz)) && Pages(sz) <= TRAPFRAME
    requires root in a.system && a.system[root] == (None, None)
    modifies k
    ensures Rep(k.M(), Removed(a, root)) && |k.free| >= |old(k.free)|
  {
    ghost var b := WithSpace(a, root, map[]);
    assert Removed(b, root) == Removed(a, root);
    if sz > 0 {
      Unmap(k, root, 0, Pages(sz), a);
      assert Without(a.spaces[root], 0, Pages(sz)) == map[];
    } else {
      assert a.spaces[root] == map[];
      SpaceTwice(a, root, map[], map[]);
    }
    Freewalk(k, root, b);
  }

  // ---------------------------------------------------------------------------
  // Building a page table
  // ---------------------------------------------------------------------------

  ghost function Added(a: View, root: Ppn, sys: (Option<Pte>, Option<Pte>)): View {
    a.(spaces := a.spaces[root := map[]], system := a.system[root := sys])
  }

  ghost function WithSystem(a: View, root: Ppn, slot: nat, e: Option<Pte>): View
    requires root in a.system
  {
    var (t, f) := a.system[root];
    a.(system := a.system[root := if slot == TRAMPOLINE then (e, f) else (t, e)])
  }

  lemma RootMadeAt(m: Mem, a: View, q: Ppn, r: Ppn)
    requires MemInv(m) && RootRep(m, a, r) && Owned(m, q, Hand) && MemInv(MakeRoot(m, q))
             && SameLookups(m, MakeRoot(m, q))
    requires forall px :: Lookup(MakeRoot(m, q), q, px) == None
    ensures RootRep(MakeRoot(m, q), Added(a, q, (None, None)), r)
  {
    var n := MakeRoot(m, q);
    if r == q {
      assert SpaceRep(n, q, map[]);
    } else if IsRoot(m, r) {
      assert Owned(m, r, Root);
      PxOk(TRAMPOLINE);
      PxOk(TRAPFRAME);
      forall v: nat | v < TRAPFRAME
        ensures At(n, r, v) == At(m, r, v)
      {
        UserVpn(v);
        if Lookup(m, r, PxOf(v)).Some? {
          UserLeaf(m, r, PxOf(v));
        }
        SeesSame(m, n, r, PxOf(v));
      }
    }
  }

  lemma RootMade(m: Mem, a: View, q: Ppn)
    requires Rep(m, a) && q in a.hands
    ensures q !in a.spaces
    ensures Rep(MakeRoot(m, q), Added(a, q, (None, None)).(hands := a.hands - {q}))
  {
    MakeRootInv(m, q);
    assert RootRep(m, a, q);
    var n := MakeRoot(m, q);
    assert Hands(n) == Hands(m) - {q} && Frames(n) == Frames(m);
    forall r: Ppn
      ensures RootRep(n, Added(a, q, (None, None)).(hands := a.hands - {q}), r)
    {
      assert RootRep(m, a, r);
      RootMadeAt(m, a, q, r);
      assert RootRep(n, Added(a, q, (None, None)), r);
    }
  }

  lemma RepTake(m: Mem, a: View)
    requires Rep(m, a) && m.free != []
    ensures m.free[0] !in a.hands && m.free[0] !in a.frames && m.free[0] !in a.spaces
    ensures Rep(Take(m), a.(hands := a.hands + {m.free[0]}))
  {
    RepIs(m, a);
    assert Owned(m, m.free[0], Free);
    assert RootRep(m, a, m.free[0]);
    TakeAt(m);
    ViewHands(m, Take(m), a.hands + {m.free[0]});
    RepIs(Take(m), a.(hands := a.hands + {m.free[0]}));
  }

  lemma RepGive(m: Mem, a: View, p: Ppn)
    requires Rep(m, a) && p in a.hands
    ensures Owned(m, p, Hand) && Rep(Give(m, p), a.(hands := a.hands - {p}))
  {
    RepIs(m, a);
    GiveAt(m, p);
    ViewHands(m, Give(m, p), a.hands - {p});
    RepIs(Give(m, p), a.(hands := a.hands - {p}));
  }

  lemma ViewHands(m: Mem, n: Mem, h: set<Ppn>)
    requires AtAll(m, n) && Hands(n) == h
    ensures ViewOf(n) == ViewOf(m).(hands := h)
  {
    SystemSame(m, n);
    assert Roots(n) == Roots(m) && Frames(n) == Frames(m);
    forall r | r in Roots(m)
      ensures SpaceOf(n, r) == SpaceOf(m, r)
    {
      assert Owned(m, r, Root);
      SpaceSame(m, n, r);
    }
    assert ViewOf(n).spaces == ViewOf(m).spaces;
  }

  /** uvmcreate. */
  method Uvmcreate(k: Machine, ghost a: View) returns (root: Option<Ppn>)
    requires Rep(k.M(), a)
    modifies k
    ensures root.Some? ==> root.value !in a.spaces && Rep(k.M(), Added(a, root.value, (None, None)))
    ensures root.None? ==> Rep(k.M(), a) && old(k.free) == []
    ensures |k.free| + 1 >= |old(k.free)|
  {
    ghost var m := k.M();
    root := k.Kalloc();
    if root.Some? {
      RepTake(m, a);
      ghost var b := a.(hands := a.hands + {root.value});
      RootMade(Take(m), b, root.value);
      k.pages := k.pages[root.value := ZeroTable()];
      k.owner := k.owner[root.value := Root];
      assert k.M() == MakeRoot(Take(m), root.value);
      assert Added(b, root.value, (None, None)).(hands := b.hands - {root.value}) == Added(a, root.value, (None, None));
    }
  }

  /** One system slot of `root` translates to `e`; everything else is as before. */
  ghost predicate SystemChange(m: Mem, n: Mem, root: Ppn, slot: nat, e: Option<Pte>) {
    && MemInv(n) && (slot == TRAMPOLINE || slot == TRAPFRAME) && LookupsExcept(m, n, root, PxOf(slot), e)
    && SameRoots(m, n) && Hands(n) == Hands(m)
    && forall q :: q in m.owner && m.owner[q].User? && q in m.pages ==> q in n.pages && n.pages[q] == m.pages[q]
  }

  lemma SystemChangedAt(m: Mem, n: Mem, a: View, root: Ppn, slot: nat, e: Option<Pte>, r: Ppn)
    requires MemInv(m) && RootRep(m, a, r) && SystemChange(m, n, root, slot, e) && root in a.system
    ensures RootRep(n, WithSystem(a, root, slot, e), r)
  {
    PxOk(TRAMPOLINE);
    PxOk(TRAPFRAME);
    if IsRoot(m, r) {
      assert Owned(m, r, Root);
      forall v: nat | v < TRAPFRAME
        ensures At(n, r, v) == At(m, r, v)
      {
        SystemUserSame(m, n, root, slot, e, r, v);
      }
    }
  }

  lemma SystemUserSame(m: Mem, n: Mem, root: Ppn, slot: nat, e: Option<Pte>, r: Ppn, v: nat)
    requires MemInv(m) && SystemChange(m, n, root, slot, e) && Owned(m, r, Root) && v < TRAPFRAME
    ensures At(n, r, v) == At(m, r, v)
  {
    PxOk(TRAMPOLINE);
    PxOk(TRAPFRAME);
    UserVpn(v);
    if Lookup(m, r, PxOf(v)).Some? {
      UserLeaf(m, r, PxOf(v));
    }
    SeesSame(m, n, r, PxOf(v));
  }

  lemma SystemChanged(m: Mem, n: Mem, a: View, root: Ppn, slot: nat, e: Option<Pte>)
    requires Rep(m, a) && SystemChange(m, n, root, slot, e) && root in a.system
    ensures Rep(n, WithSystem(a, root, slot, e))
  {
    assert Frames(n) == Frames(m);
    forall r: Ppn
      ensures RootRep(n, WithSystem(a, root, slot, e), r)
    {
      assert RootRep(m, a, r);
      SystemChangedAt(m, n, a, root, slot, e, r);
    }
  }

  lemma MappedSystem(m: Mem, n: Mem, root: Ppn, slot: nat, e: Pte)
    requires (slot == TRAMPOLINE || slot == TRAPFRAME) && MapsTo(m, n, root, PxOf(slot), e)
    ensures SystemChange(m, n, root, slot, Some(e))
  {
    PxOk(slot);
  }

  lemma UnmappedSystem(m: Mem, n: Mem, root: Ppn, slot: nat)
    requires MemInv(m) && (slot == TRAMPOLINE || slot == TRAPFRAME) && Unmaps(m, n, root, PxOf(slot))
    ensures SystemChange(m, n, root, slot, None)
  {
    PxOk(slot);
    forall q | q in m.owner
      ensures n.owner[q] == m.owner[q]
    {
      assert PageOk(m, q);
    }
    assert Hands(n) == Hands(m);
  }

  /** mappages of the trampoline or the trapframe. */
  method MapSystem(k: Machine, root: Ppn, slot: nat, e: Pte, ghost a: View) returns (ok: bool)
    requires Rep(k.M(), a) && root in a.spaces && root in a.system && e.v && e.Leaf()
    requires (slot == TRAMPOLINE && a.system[root].0 == None) || (slot == TRAPFRAME && a.system[root].1 == None)
    modifies k
    ensures ok ==> Rep(k.M(), WithSystem(a, root, slot, Some(e)))
    ensures !ok ==> Rep(k.M(), a) && |old(k.free)| <= 1
    ensures |k.free| + 2 >= |old(k.free)|
  {
    ghost var m := k.M();
    RepRoot(m, a, root);
    PxOk(slot);
    var res := k.MapOne(root, PxOf(slot), e);
    assert RootRep(m, a, root);
    ok := res.Done?;
    if ok {
      MappedSystem(m, k.M(), root, slot, e);
      SystemChanged(m, k.M(), a, root, slot, Some(e));
    } else {
      AtKept(m, k.M());
      ViewSame(m, k.M());
      RepIs(k.M(), a);
    }
  }

  /** uvmunmap of the trampoline or the trapframe, without do_free. */
  method UnmapSystem(k: Machine, root: Ppn, slot: nat, ghost a: View)
    requires Rep(k.M(), a) && root in a.spaces && root in a.system && (slot == TRAMPOLINE || slot == TRAPFRAME)
    modifies k
    ensures Rep(k.M(), WithSystem(a, root, slot, None)) && |k.free| >= |old(k.free)|
  {
    ghost var m := k.M();
    RepRoot(m, a, root);
    PxOk(slot);
    k.UnmapOne(root, PxOf(slot));
    UnmappedSystem(m, k.M(), root, slot);
    SystemChanged(m, k.M(), a, root, slot, None);
  }

  function TrampolinePte(tramp: Ppn): (e: Pte) {
    Pte(true, true, false, true, false, tramp)
  }

  function TrapframePte(frame: Ppn): (e: Pte) {
    Pte(true, true, true, false, false, frame)
  }

  ghost function SystemPair(tramp: Ppn, frame: Ppn): (Option<Pte>, Option<Pte>) {
    (Some(TrampolinePte(tramp)), Some(TrapframePte(frame)))
  }

  lemma AddedRemoved(a: View, root: Ppn, sys: (Option<Pte>, Option<Pte>))
    requires root !in a.spaces && root !in a.system
    ensures Removed(Added(a, root, sys), root) == a
  {
    assert Removed(Added(a, root, sys), root).spaces == a.spaces;
    assert Removed(Added(a, root, sys), root).system == a.system;
  }

  lemma SameRootsInView(m: Mem, a: View, r: Ppn)
    requires Rep(m, a)
    ensures r in a.spaces <==> r in a.system
  {
    assert RootRep(m, a, r);
  }

  /** proc_pagetable: trampoline and trapframe mapped, or nothing at all. */
  method ProcPagetable(k: Machine, tramp: Ppn, frame: Ppn, ghost a: View) returns (root: Option<Ppn>)
    requires Rep(k.M(), a)
    modifies k
    ensures root.Some? ==> root.value !in a.spaces && Rep(k.M(), Added(a, root.value, SystemPair(tramp, frame)))
    ensures root.None? ==> Rep(k.M(), a) && |old(k.free)| <= 4
    ensures root.Some? ==> |k.free| + 5 >= |old(k.free)|
  {
    root := Uvmcreate(k, a);
    if root.None? {
      return;
    }
    var r := root.value;
    SameRootsInView(old(k.M()), a, r);
    ghost var b := Added(a, r, (None, None));
    var ok := MapSystem(k, r, TRAMPOLINE, TrampolinePte(tramp), b);
    if !ok {
      Uvmfree(k, r, 0, b);
      AddedRemoved(a, r, (None, None));
      return None;
    }
    ghost var c := Added(a, r, (Some(TrampolinePte(tramp)), None));
    assert WithSystem(b, r, TRAMPOLINE, Some(TrampolinePte(tramp))) == c;
    ok := MapSystem(k, r, TRAPFRAME, TrapframePte(frame), c);
    if !ok {
      UnmapSystem(k, r, TRAMPOLINE, c);
      assert WithSystem(c, r, TRAMPOLINE, None) == b;
      Uvmfree(k, r, 0, b);
      AddedRemoved(a, r, (None, None));
      return None;
    }
    assert WithSystem(c, r, TRAPFRAME, Some(TrapframePte(frame))) == Added(a, r, SystemPair(tramp, frame));
  }

  /** proc_freepagetable: the whole address space is gone. */
  method ProcFreepagetable(k: Machine, root: Ppn, sz: nat, ghost a: View)
    requires Rep(k.M(), a) && root in a.spaces && Bounded(a.spaces[root], Pages(sz)) && Pages(sz) <= TRAPFRAME
    modifies k
    ensures Rep(k.M(), Removed(a, root)) && |k.free| >= |old(k.free)|
  {
    SameRootsInView(k.M(), a, root);
    UnmapSystem(k, root, TRAMPOLINE, a);
    ghost var b := WithSystem(a, root, TRAMPOLINE, None);
    UnmapSystem(k, root, TRAPFRAME, b);
    ghost var c := WithSystem(b, root, TRAPFRAME, None);
    Uvmfree(k, root, sz, c);
    assert Removed(c, root).system == Removed(a, root).system;
  }
}
