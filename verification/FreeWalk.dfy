/** freewalk (xv6/kernel/vm.c): the page-table pages of an address space without
    leaves go back to the allocator, exactly those, and its panic is unreachable. */
module FreeWalk {
  import opened PageTable
  import opened AddressSpace

  /** Owned by the tree below the first `i` entries of the table `t`. */
  ghost predicate Under(o: Owner, t: Ppn, i: nat) {
    || (o.Mid? && o.root == t && o.i2 < i)
    || (o.Low? && o.root == t && o.i2 < i)
    || (o.Low? && o.mid == t && o.i1 < i)
  }

  ghost predicate IsLevel(m: Mem, t: Ppn, level: nat) {
    && t in m.owner
    && (level == 2 ==> m.owner[t].Root?)
    && (level == 1 ==> m.owner[t].Mid?)
    && (level == 0 ==> m.owner[t].Low?)
    && level <= 2
  }

  /** No low table at or below `t` has a valid entry. */
  ghost predicate NoLeaves(m: Mem, t: Ppn) {
    forall l, i :: l in m.owner && m.owner[l].Low? && (l == t || Under(m.owner[l], t, NPTE)) && 0 <= i < NPTE ==>
      !Entry(m, l, i).v
  }

  ghost predicate OwnersEmptied(m: Mem, n: Mem, t: Ppn, i: nat) {
    && m.owner.Keys == n.owner.Keys
    && forall q :: q in m.owner ==> n.owner[q] == if Under(m.owner[q], t, i) then Free else m.owner[q]
  }

  ghost predicate PagesKept(m: Mem, n: Mem, t: Ppn, i: nat) {
    && m.pages.Keys == n.pages.Keys == m.owner.Keys
    && forall q :: q in m.owner && q != t && !Under(m.owner[q], t, i) ==> n.pages[q] == m.pages[q]
  }

  ghost predicate EntriesEmptied(m: Mem, n: Mem, t: Ppn, i: nat) {
    forall k :: 0 <= k < NPTE ==> if k < i then !Entry(n, t, k).v else Entry(n, t, k) == Entry(m, t, k)
  }

  /** The first `i` entries of `t` are done. */
  ghost predicate Emptied(m: Mem, n: Mem, t: Ppn, i: nat) {
    && MemInv(n) && SameLookups(m, n)
    && OwnersEmptied(m, n, t, i) && PagesKept(m, n, t, i) && EntriesEmptied(m, n, t, i)
  }

  lemma NothingEmptied(m: Mem, t: Ppn)
    requires MemInv(m)
    ensures Emptied(m, m, t, 0)
  {
    assert forall q :: q in m.owner ==> !Under(m.owner[q], t, 0);
  }

  lemma SelfStays(m: Mem, t: Ppn, i: nat)
    requires MemInv(m) && t in m.owner && (Inner(m.owner[t]) || m.owner[t].Low?)
    ensures !Under(m.owner[t], t, i) && IsTable(m, t)
  {
    assert PageOk(m, t);
    if m.owner[t].Low? {
      LowPath(m, t);
    }
  }

  /** Who is under entry `i` of an inner table: the child and what is below it. */
  lemma UnderNext(m: Mem, t: Ppn, i: nat, q: Ppn)
    requires MemInv(m) && t in m.owner && Inner(m.owner[t]) && i < NPTE && q in m.owner
    ensures var e := Entry(m, t, i);
            Under(m.owner[q], t, i + 1) <==>
              Under(m.owner[q], t, i) || (e.v && (q == e.ppn || Under(m.owner[q], e.ppn, NPTE)))
  {
    assert PageOk(m, t);
    assert PageOk(m, q);
    var e := Entry(m, t, i);
    if e.v {
      assert PageOk(m, e.ppn);
    }
    if m.owner[q].Low? {
      LowPath(m, q);
    }
  }

  /** A valid entry is no leaf, and leads to a table one level down. */
  lemma ChildReady(m: Mem, a: Mem, t: Ppn, i: nat, level: nat)
    requires MemInv(m) && IsLevel(m, t, level) && NoLeaves(m, t) && i < NPTE && Emptied(m, a, t, i) && Entry(a, t, i).v
    ensures var c := Entry(a, t, i).ppn;
            && level > 0 && !Entry(a, t, i).Leaf() && c != t && Entry(m, t, i) == Entry(a, t, i)
            && IsLevel(a, c, level - 1) && t in a.owner && Inner(a.owner[t])
  {
    assert Entry(m, t, i) == Entry(a, t, i);
    assert level > 0;
    SelfStays(m, t, i);
    assert PageOk(a, t);
  }

  lemma ChildNoLeaves(m: Mem, a: Mem, t: Ppn, i: nat, c: Ppn)
    requires MemInv(a) && t in a.owner && Inner(a.owner[t]) && NoLeaves(m, t) && i < NPTE
    requires OwnersEmptied(m, a, t, i) && PagesKept(m, a, t, i) && Entry(a, t, i).v && Entry(a, t, i).ppn == c
    ensures NoLeaves(a, c)
  {
    forall l, k | l in a.owner && a.owner[l].Low? && (l == c || Under(a.owner[l], c, NPTE)) && 0 <= k < NPTE
      ensures !Entry(a, l, k).v
    {
      UnderNext(a, t, i, l);
      assert a.owner[l] == m.owner[l] && Under(m.owner[l], t, i + 1);
      assert a.pages[l] == m.pages[l];
      assert Entry(a, l, k) == Entry(m, l, k);
    }
  }

  lemma OwnersNext(m: Mem, a: Mem, b: Mem, n: Mem, t: Ppn, i: nat, c: Ppn)
    requires MemInv(m) && t in m.owner && Inner(m.owner[t]) && i < NPTE && Entry(m, t, i).v && Entry(m, t, i).ppn == c
    requires OwnersEmptied(m, a, t, i) && OwnersEmptied(a, b, c, NPTE) && OwnersExcept(b, n, c) && Owned(n, c, Free)
    ensures OwnersEmptied(m, n, t, i + 1)
  {
    forall q | q in m.owner
      ensures n.owner[q] == if Under(m.owner[q], t, i + 1) then Free else m.owner[q]
    {
      UnderNext(m, t, i, q);
    }
  }

  lemma PagesNext(m: Mem, a: Mem, b: Mem, n: Mem, t: Ppn, i: nat, c: Ppn)
    requires MemInv(m) && t in m.owner && Inner(m.owner[t]) && i < NPTE && Entry(m, t, i).v && Entry(m, t, i).ppn == c
    requires OwnersEmptied(m, a, t, i) && PagesKept(m, a, t, i) && PagesKept(a, b, c, NPTE)
    requires b.pages.Keys == n.pages.Keys && forall q :: q in b.pages && q != c && q != t ==> n.pages[q] == b.pages[q]
    ensures PagesKept(m, n, t, i + 1)
  {
    forall q | q in m.owner && q != t && !Under(m.owner[q], t, i + 1)
      ensures n.pages[q] == m.pages[q]
    {
      UnderNext(m, t, i, q);
    }
  }

  /** Clearing the entry of the emptied child. */
  lemma Unlinked(m: Mem, a: Mem, b: Mem, t: Ppn, i: nat, c: Ppn)
    requires MemInv(m) && t in m.owner && Inner(m.owner[t]) && i < NPTE && Entry(m, t, i).v && Entry(m, t, i).ppn == c
             && c != t
    requires Emptied(m, a, t, i) && Emptied(a, b, c, NPTE)
    ensures CanClearTable(b, t, i) && b.pages[t].ptes[i].ppn == c
    ensures Owned(ClearTable(b, t, i), c, Hand) && MemInv(ClearTable(b, t, i)) && SameLookups(b, ClearTable(b, t, i))
  {
    TableStays(m, a, b, t, i, c);
    ClearTableInv(b, t, i);
  }

  lemma Freed(m: Mem, a: Mem, b: Mem, t: Ppn, i: nat, c: Ppn)
    requires MemInv(m) && t in m.owner && Inner(m.owner[t]) && i < NPTE && Entry(m, t, i).v && Entry(m, t, i).ppn == c
             && c != t
    requires Emptied(m, a, t, i) && Emptied(a, b, c, NPTE)
    requires CanClearTable(b, t, i) && b.pages[t].ptes[i].ppn == c
    requires Owned(ClearTable(b, t, i), c, Hand) && MemInv(ClearTable(b, t, i)) && SameLookups(b, ClearTable(b, t, i))
    ensures Emptied(m, Give(ClearTable(b, t, i), c), t, i + 1)
  {
    var d := ClearTable(b, t, i);
    GiveInv(d, c);
    var n := Give(d, c);
    FreedLookups(m, a, b, d, n);
    FreedOwners(m, a, b, t, i, c);
    FreedPages(m, a, b, t, i, c);
    EntriesNext(m, a, b, t, i, c);
  }

  lemma FreedOwners(m: Mem, a: Mem, b: Mem, t: Ppn, i: nat, c: Ppn)
    requires MemInv(m) && t in m.owner && Inner(m.owner[t]) && i < NPTE && Entry(m, t, i).v && Entry(m, t, i).ppn == c
    requires OwnersEmptied(m, a, t, i) && OwnersEmptied(a, b, c, NPTE)
    requires CanClearTable(b, t, i) && b.pages[t].ptes[i].ppn == c && c in b.owner
    ensures OwnersEmptied(m, Give(ClearTable(b, t, i), c), t, i + 1)
  {
    var n := Give(ClearTable(b, t, i), c);
    assert OwnersExcept(b, n, c);
    OwnersNext(m, a, b, n, t, i, c);
  }

  lemma FreedPages(m: Mem, a: Mem, b: Mem, t: Ppn, i: nat, c: Ppn)
    requires MemInv(m) && t in m.owner && Inner(m.owner[t]) && i < NPTE && Entry(m, t, i).v && Entry(m, t, i).ppn == c
    requires OwnersEmptied(m, a, t, i) && PagesKept(m, a, t, i) && PagesKept(a, b, c, NPTE)
    requires CanClearTable(b, t, i) && b.pages[t].ptes[i].ppn == c && c in b.pages
    ensures PagesKept(m, Give(ClearTable(b, t, i), c), t, i + 1)
  {
    var n := Give(ClearTable(b, t, i), c);
    assert forall q :: q in b.pages && q != c && q != t ==> n.pages[q] == b.pages[q];
    PagesNext(m, a, b, n, t, i, c);
  }

  lemma FreedLookups(m: Mem, a: Mem, b: Mem, d: Mem, n: Mem)
    requires SameLookups(m, a) && SameLookups(a, b) && SameLookups(b, d) && SameLookups(d, n)
    ensures SameLookups(m, n)
  {
    LookupsTrans(m, a, b);
    LookupsTrans(m, b, d);
    LookupsTrans(m, d, n);
  }

  lemma EntriesNext(m: Mem, a: Mem, b: Mem, t: Ppn, i: nat, c: Ppn)
    requires MemInv(m) && t in m.owner && Inner(m.owner[t]) && i < NPTE && Entry(m, t, i).v && Entry(m, t, i).ppn == c
             && c != t
    requires Emptied(m, a, t, i) && Emptied(a, b, c, NPTE)
    requires CanClearTable(b, t, i) && b.pages[t].ptes[i].ppn == c
    ensures EntriesEmptied(m, Give(ClearTable(b, t, i), c), t, i + 1)
  {
    TableStays(m, a, b, t, i, c);
    var n := Give(ClearTable(b, t, i), c);
    forall k | 0 <= k < NPTE
      ensures if k < i + 1 then !Entry(n, t, k).v else Entry(n, t, k) == Entry(m, t, k)
    {
      assert n.pages[t].ptes[k] == if k == i then NOPTE else b.pages[t].ptes[k];
      assert Entry(b, t, k) == b.pages[t].ptes[k];
    }
  }

  lemma TableStays(m: Mem, a: Mem, b: Mem, t: Ppn, i: nat, c: Ppn)
    requires MemInv(m) && t in m.owner && Inner(m.owner[t]) && i < NPTE && Entry(m, t, i).v && Entry(m, t, i).ppn == c
             && c != t
    requires Emptied(m, a, t, i) && Emptied(a, b, c, NPTE)
    ensures t in b.owner && b.owner[t] == m.owner[t] && t in b.pages && b.pages[t] == a.pages[t] && IsTable(b, t)
    ensures b.pages[t].ptes[i].v && b.pages[t].ptes[i].ppn == c
    ensures forall k :: 0 <= k < NPTE ==> Entry(b, t, k) == Entry(a, t, k)
  {
    SelfStays(m, t, i);
    SelfStays(m, t, i + 1);
    UnderNext(m, t, i, t);
    assert a.owner[t] == m.owner[t];
    assert !Under(a.owner[t], c, NPTE);
    assert PageOk(a, t);
    assert Entry(a, t, i) == Entry(m, t, i);
  }

  lemma Skipped(m: Mem, a: Mem, t: Ppn, i: nat, level: nat)
    requires MemInv(m) && IsLevel(m, t, level) && i < NPTE && Emptied(m, a, t, i) && !Entry(a, t, i).v
    ensures Emptied(m, a, t, i + 1)
  {
    assert Entry(m, t, i) == Entry(a, t, i);
    if level > 0 {
      forall q | q in m.owner
        ensures Under(m.owner[q], t, i + 1) <==> Under(m.owner[q], t, i)
      {
        UnderNext(m, t, i, q);
      }
    } else {
      forall q, j: nat | q in m.owner
        ensures !Under(m.owner[q], t, j)
      {
        NothingUnderLow(m, t, q, j);
      }
    }
  }

  lemma NothingUnderLow(m: Mem, t: Ppn, q: Ppn, j: nat)
    requires MemInv(m) && t in m.owner && m.owner[t].Low? && q in m.owner
    ensures !Under(m.owner[q], t, j)
  {
    assert PageOk(m, q);
    if m.owner[q].Low? {
      LowPath(m, q);
    }
  }

  /** freewalk without its last kfree: every table below `t` is freed, and `t` has
      no valid entry. An entry is never a leaf, so it does not panic. */
  method EmptyTable(k: Machine, t: Ppn, level: nat)
    requires MemInv(k.M()) && IsLevel(k.M(), t, level) && NoLeaves(k.M(), t)
    modifies k
    ensures Emptied(old(k.M()), k.M(), t, NPTE) && |k.free| >= |old(k.free)|
    decreases level
  {
    ghost var m := k.M();
    NothingEmptied(m, t);
    for i := 0 to NPTE
      invariant Emptied(m, k.M(), t, i) && |k.free| >= |old(k.free)|
    {
      TableHere(m, k.M(), t, i, level);
      var e := k.pages[t].ptes[i];
      if e.v {
        EmptyChild(k, t, i, level, e.ppn, m);
      } else {
        Skipped(m, k.M(), t, i, level);
      }
    }
  }

  lemma TableHere(m: Mem, a: Mem, t: Ppn, i: nat, level: nat)
    requires MemInv(m) && IsLevel(m, t, level) && Emptied(m, a, t, i) && i < NPTE
    ensures IsTable(a, t) && Entry(a, t, i) == a.pages[t].ptes[i]
  {
    SelfStays(m, t, i);
    SelfStays(a, t, i);
  }

  /** The recursive call of freewalk and the clearing of the entry. */
  method EmptyChild(k: Machine, t: Ppn, i: nat, level: nat, c: Ppn, ghost m: Mem)
    requires MemInv(m) && IsLevel(m, t, level) && NoLeaves(m, t) && i < NPTE && Emptied(m, k.M(), t, i)
    requires Entry(k.M(), t, i).v && Entry(k.M(), t, i).ppn == c
    modifies k
    ensures Emptied(m, k.M(), t, i + 1) && |k.free| >= |old(k.free)|
    decreases level, 0
  {
    ghost var a := k.M();
    ChildReady(m, a, t, i, level);
    ChildNoLeaves(m, a, t, i, c);
    EmptyTable(k, c, level - 1);
    Unlink(k, t, i, c, m, a);
  }

  method Unlink(k: Machine, t: Ppn, i: nat, c: Ppn, ghost m: Mem, ghost a: Mem)
    requires MemInv(m) && t in m.owner && Inner(m.owner[t]) && i < NPTE && Entry(m, t, i).v && Entry(m, t, i).ppn == c
             && c != t
    requires Emptied(m, a, t, i) && Emptied(a, k.M(), c, NPTE)
    modifies k
    ensures Emptied(m, k.M(), t, i + 1) && |k.free| >= |old(k.free)|
  {
    ghost var b := k.M();
    Unlinked(m, a, b, t, i, c);
    Freed(m, a, b, t, i, c);
    k.pages := k.pages[t := Table(k.pages[t].ptes[i := NOPTE])];
    k.owner := k.owner[c := Hand];
    assert k.M() == ClearTable(b, t, i);
    k.Kfree(c);
  }
}
