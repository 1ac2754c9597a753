/** mappages of xv6/kernel/vm.c over a range: consecutive physical pages at consecutive
    user pages. */
module MapRange {
  import opened Options
  import opened PageTable
  import opened AddressSpace
  import opened Vm

  /** What `px` translates to once the first `j` pages at `v` map `pa` and its successors. */
  ghost function Ranged(m: Mem, root: Ppn, v: nat, j: nat, pa: Ppn, e: Pte, r: Ppn, px: Px): Option<Pte> {
    if r == root && v <= VpnOf(px) < v + j then Some(e.(ppn := pa + (VpnOf(px) - v))) else Lookup(m, r, px)
  }

  ghost predicate MapsRange(m: Mem, n: Mem, root: Ppn, v: nat, j: nat, pa: Ppn, e: Pte) {
    && MemInv(n)
    && forall r: Ppn, px: Px {:trigger Lookup(n, r, px)} :: Owned(m, r, Root) && px.Ok() ==>
         Owned(n, r, Root) && Lookup(n, r, px) == Ranged(m, root, v, j, pa, e, r, px)
  }

  ghost predicate HandRange(m: Mem, lo: nat, hi: nat) {
    forall q: Ppn {:trigger IsHandPage(m, q)} :: lo <= q < hi ==> IsHandPage(m, q)
  }

  lemma RangedHere(m: Mem, b: Mem, root: Ppn, v: nat, j: nat, pa: Ppn, e: Pte, r: Ppn, px: Px)
    requires MapsRange(m, b, root, v, j, pa, e) && Owned(m, r, Root) && px.Ok()
    ensures Owned(b, r, Root) && Lookup(b, r, px) == Ranged(m, root, v, j, pa, e, r, px)
  {
  }

  lemma NextPage(m: Mem, b: Mem, n: Mem, root: Ppn, v: nat, j: nat, pa: Ppn, e: Pte)
    requires MapsRange(m, b, root, v, j, pa, e) && Owned(m, root, Root) && v + j < TRAPFRAME
    requires MemInv(n) && LookupsExcept(b, n, root, PxOf(v + j), Some(e.(ppn := pa + j)))
    ensures MapsRange(m, n, root, v, j + 1, pa, e)
  {
    forall r: Ppn, px: Px | Owned(m, r, Root) && px.Ok()
      ensures Owned(n, r, Root) && Lookup(n, r, px) == Ranged(m, root, v, j + 1, pa, e, r, px)
    {
      RangedHere(m, b, root, v, j, pa, e, r, px);
      VpnIs(px, v + j);
    }
  }

  lemma SamePage(m: Mem, b: Mem, n: Mem, root: Ppn, v: nat, j: nat, pa: Ppn, e: Pte)
    requires MapsRange(m, b, root, v, j, pa, e) && MemInv(n) && SameLookups(b, n)
    ensures MapsRange(m, n, root, v, j, pa, e)
  {
    forall r: Ppn, px: Px | Owned(m, r, Root) && px.Ok()
      ensures Owned(n, r, Root) && Lookup(n, r, px) == Ranged(m, root, v, j, pa, e, r, px)
    {
      RangedHere(m, b, root, v, j, pa, e, r, px);
    }
  }

  lemma StillInHand(b: Mem, n: Mem, px: Px, p: Ppn, hi: nat)
    requires HandRange(b, p, hi) && OwnersMapped(b, n, px, p)
    ensures HandRange(n, p + 1, hi)
  {
    forall q: Ppn | p + 1 <= q < hi
      ensures IsHandPage(n, q)
    {
      assert IsHandPage(b, q);
    }
  }

  /** The first `j` pages at `v` have no translation. */
  ghost predicate Unmapped(m: Mem, root: Ppn, v: nat, j: nat) {
    forall w: nat {:trigger PxOf(w)} :: v <= w < v + j ==> Lookup(m, root, PxOf(w)).None?
  }

  /** The state of the loop of mappages after `j` pages. */
  ghost predicate Mapping(m: Mem, b: Mem, root: Ppn, v: nat, j: nat, n: nat, pa: Ppn, e: Pte) {
    && j <= n && MapsRange(m, b, root, v, j, pa, e) && HandRange(b, pa + j, pa + n) && Unmapped(m, root, v, j)
  }

  lemma RoundDone(m: Mem, b: Mem, c: Mem, root: Ppn, v: nat, j: nat, n: nat, pa: Ppn, e: Pte)
    requires Mapping(m, b, root, v, j, n, pa, e) && j < n && Owned(m, root, Root) && v + n <= TRAPFRAME
    requires MapsTo(b, c, root, PxOf(v + j), e.(ppn := pa + j)) && Lookup(m, root, PxOf(v + j)).None?
    ensures Mapping(m, c, root, v, j + 1, n, pa, e)
  {
    NextPage(m, b, c, root, v, j, pa, e);
    StillInHand(b, c, PxOf(v + j), pa + j, pa + n);
  }

  lemma RoundFailed(m: Mem, b: Mem, c: Mem, root: Ppn, v: nat, j: nat, n: nat, pa: Ppn, e: Pte)
    requires Mapping(m, b, root, v, j, n, pa, e) && Keeps(b, c)
    ensures Mapping(m, c, root, v, j, n, pa, e)
  {
    SamePage(m, b, c, root, v, j, pa, e);
    KeepsHands(b, c, pa + j, pa + n);
  }

  /** One round of mappages. */
  method MapNext(k: Machine, root: Ppn, v: nat, j: nat, n: nat, pa: Ppn, e: Pte, ghost m: Mem) returns (res: MapResult)
    requires MemInv(k.M()) && Owned(m, root, Root) && j < n && v + n <= TRAPFRAME && e.v && e.Leaf()
    requires Mapping(m, k.M(), root, v, j, n, pa, e)
    modifies k
    ensures res.Done? ==> Mapping(m, k.M(), root, v, j + 1, n, pa, e)
    ensures !res.Done? ==> Mapping(m, k.M(), root, v, j, n, pa, e)
    ensures res.Remap? <==> Lookup(m, root, PxOf(v + j)).Some?
    ensures res.OutOfMemory? ==> |old(k.free)| <= 1
    ensures |k.free| + 2 >= |old(k.free)|
  {
    ghost var b := k.M();
    var px := PxOf(v + j);
    SlotHere(m, b, root, v, j, pa, e);
    assert IsHandPage(b, pa + j);
    res := k.MapOne(root, px, e.(ppn := pa + j));
    if res.Done? {
      RoundDone(m, b, k.M(), root, v, j, n, pa, e);
    } else {
      RoundFailed(m, b, k.M(), root, v, j, n, pa, e);
    }
  }

  /** mappages of `n` pages. It panics with `Remap` exactly at the first page that is
      mapped already, and stops where a page-table page is missing; the `done` pages before
      that are mapped, and no other translation of any address space changes. */
  method Mappages(k: Machine, root: Ppn, v: nat, n: nat, pa: Ppn, e: Pte) returns (res: MapResult, done: nat)
    requires MemInv(k.M()) && Owned(k.M(), root, Root) && 0 < n && v + n <= TRAPFRAME && e.v && e.Leaf()
    requires HandRange(k.M(), pa, pa + n)
    modifies k
    ensures Mapping(old(k.M()), k.M(), root, v, done, n, pa, e)
    ensures res.Done? <==> done == n
    ensures res.Remap? ==> Lookup(old(k.M()), root, PxOf(v + done)).Some?
    ensures res.OutOfMemory? ==> Lookup(old(k.M()), root, PxOf(v + done)).None? && |old(k.free)| <= 2 * done + 1
  {
    ghost var m := k.M();
    done := 0;
    while true
      invariant done < n && MemInv(k.M()) && Mapping(m, k.M(), root, v, done, n, pa, e)
      invariant |k.free| + 2 * done >= |old(k.free)|
      decreases n - done
    {
      res := MapNext(k, root, v, done, n, pa, e, m);
      if !res.Done? {
        return;
      }
      done := done + 1;
      if done == n {
        return;
      }
    }
  }

  lemma SlotHere(m: Mem, b: Mem, root: Ppn, v: nat, j: nat, pa: Ppn, e: Pte)
    requires MapsRange(m, b, root, v, j, pa, e) && Owned(m, root, Root) && v + j < TRAPFRAME
    ensures Owned(b, root, Root) && PxOf(v + j).Ok() && !SystemPx(PxOf(v + j))
    ensures Lookup(b, root, PxOf(v + j)) == Lookup(m, root, PxOf(v + j))
  {
    PxOk(v + j);
    VpnOfPxOf(v + j);
    assert Lookup(b, root, PxOf(v + j)) == Ranged(m, root, v, j, pa, e, root, PxOf(v + j));
  }

  lemma KeepsHands(b: Mem, n: Mem, lo: nat, hi: nat)
    requires HandRange(b, lo, hi) && OwnersKept(b, n)
    ensures HandRange(n, lo, hi)
  {
    forall q: Ppn | lo <= q < hi
      ensures IsHandPage(n, q)
    {
      assert IsHandPage(b, q);
    }
  }
}
