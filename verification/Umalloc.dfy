/** The user-level allocator (xv6/user/umalloc.c), in units of a header. Blocks are
    the pieces into which the memory from sbrk is cut; some are live, the others are
    on the circular free list. */
module Umalloc {
  /** All blocks: address and length, header included. */
  type Cut = map<nat, nat>

  // ---------------------------------------------------------------------------
  // The blocks are a partition of the units
  // ---------------------------------------------------------------------------

  ghost predicate Inside(c: Cut, a: nat, u: nat) {
    a in c && a <= u < a + c[a]
  }

  /** Blocks are disjoint, and together they are exactly `units`. */
  ghost predicate Partition(c: Cut, units: set<nat>) {
    && (forall a :: a in c ==> c[a] > 0)
    && (forall a, b {:trigger Apart(c, a, b)} :: a in c && b in c && a < b ==> Apart(c, a, b))
    && (forall u: nat {:trigger IsUnit(units, u)} :: IsUnit(units, u) <==> exists a: nat :: Inside(c, a, u))
  }

  /** Block `a` ends before block `b`. */
  ghost predicate Apart(c: Cut, a: nat, b: nat) {
    a in c && a + c[a] <= b
  }

  ghost predicate IsUnit(units: set<nat>, u: nat) {
    u in units
  }

  /** Every unit is in exactly one block. */
  lemma OneBlock(c: Cut, units: set<nat>, a: nat, b: nat, u: nat)
    requires Partition(c, units) && Inside(c, a, u) && Inside(c, b, u)
    ensures a == b && u in units
  {
    assert IsUnit(units, u);
    assert a < b ==> Apart(c, a, b);
    assert b < a ==> Apart(c, b, a);
  }

  ghost function Split(c: Cut, a: nat, n: nat): Cut
    requires a in c && n < c[a]
  {
    c[a := c[a] - n][a + c[a] - n := n]
  }

  ghost function Merge(c: Cut, a: nat, b: nat): Cut
    requires a in c && b in c
  {
    (map x | x in c && x != b :: c[x])[a := c[a] + c[b]]
  }

  /** The units a .. a + n - 1. */
  ghost function Span(a: nat, n: nat): (s: set<nat>)
    ensures forall u: nat :: u in s <==> a <= u < a + n
  {
    if n == 0 then {} else Span(a, n - 1) + {a + n - 1}
  }

  lemma SplitKeeps(c: Cut, units: set<nat>, a: nat, n: nat)
    requires Partition(c, units) && a in c && 0 < n < c[a]
    ensures a + c[a] - n !in c && Partition(Split(c, a, n), units)
  {
    var b := a + c[a] - n;
    assert b in c ==> Apart(c, a, b);
    var d := Split(c, a, n);
    forall x, y | x in d && y in d && x < y
      ensures Apart(d, x, y)
    {
      var x0, y0 := if x == b then a else x, if y == b then a else y;
      assert x0 < y0 ==> Apart(c, x0, y0);
      assert y0 < x0 ==> Apart(c, y0, x0);
    }
    forall u: nat
      ensures IsUnit(units, u) <==> exists x: nat :: Inside(d, x, u)
    {
      assert IsUnit(units, u) <==> exists a: nat :: Inside(c, a, u);
      if x: nat :| Inside(c, x, u) {
        assert Inside(d, if x == a && u >= b then b else x, u);
      }
      if x: nat :| Inside(d, x, u) {
        assert Inside(c, if x == b then a else x, u);
      }
    }
  }

  lemma MergeKeeps(c: Cut, units: set<nat>, a: nat, b: nat)
    requires Partition(c, units) && a in c && b in c && a + c[a] == b
    ensures Partition(Merge(c, a, b), units)
  {
    var d := Merge(c, a, b);
    forall x, y | x in d && y in d && x < y
      ensures Apart(d, x, y)
    {
      assert Apart(c, x, y);
      assert x == a && b < y ==> Apart(c, b, y);
    }
    forall u: nat
      ensures IsUnit(units, u) <==> exists x: nat :: Inside(d, x, u)
    {
      assert IsUnit(units, u) <==> exists a: nat :: Inside(c, a, u);
      if x: nat :| Inside(c, x, u) {
        assert Inside(d, if x == b then a else x, u);
      }
      if x: nat :| Inside(d, x, u) {
        assert Inside(c, if x == a && u >= b then b else x, u);
      }
    }
  }

  lemma AddKeeps(c: Cut, units: set<nat>, a: nat, n: nat, brk: nat)
    requires Partition(c, units) && n > 0 && (forall x :: x in c ==> x + c[x] <= brk) && brk <= a
    ensures a !in c && Partition(c[a := n], units + Span(a, n))
  {
    var d := c[a := n];
    forall x, y | x in d && y in d && x < y
      ensures Apart(d, x, y)
    {
      assert x in c && y in c ==> Apart(c, x, y);
    }
    forall u: nat
      ensures IsUnit(units + Span(a, n), u) <==> exists x: nat :: Inside(d, x, u)
    {
      assert IsUnit(units, u) <==> exists b: nat :: Inside(c, b, u);
      if x: nat :| Inside(c, x, u) {
        assert Inside(d, x, u);
      }
      if u in Span(a, n) {
        assert Inside(d, a, u);
      }
      if x: nat :| Inside(d, x, u) {
        assert x != a ==> Inside(c, x, u);
      }
    }
  }

  // ---------------------------------------------------------------------------
  // The free list
  // ---------------------------------------------------------------------------

  ghost predicate IsFree(c: Cut, live: set<nat>, a: nat) {
    a in c && a !in live
  }

  /** The list: the base header, then the free blocks in address order. */
  ghost predicate Listed(fl: seq<nat>, c: Cut, live: set<nat>, base: nat) {
    && |fl| >= 1 && fl[0] == base
    && (forall j, k :: 0 <= j < k < |fl| ==> fl[j] < fl[k])
    && (forall k :: 1 <= k < |fl| ==> fl[k] in c && fl[k] !in live)
    && (forall a {:trigger IsFree(c, live, a)} :: IsFree(c, live, a) ==> a in fl)
    && (forall a :: a in c ==> base < a)
    && (forall a :: a in live ==> a in c)
  }

  ghost predicate Adjacent(fl: seq<nat>, c: Cut, k: nat) {
    1 <= k < |fl| - 1 && fl[k] in c && fl[k] + c[fl[k]] == fl[k + 1]
  }

  /** No two blocks of the list are adjacent. */
  ghost predicate Coalesced(fl: seq<nat>, c: Cut) {
    forall k: nat :: !Adjacent(fl, c, k)
  }

  ghost function Next(fl: seq<nat>, k: nat): nat
    requires k < |fl|
  {
    if k + 1 < |fl| then fl[k + 1] else fl[0]
  }

  ghost predicate Circular(fl: seq<nat>, ptr: map<nat, nat>) {
    forall k: nat {:trigger Next(fl, k)} :: k < |fl| ==> fl[k] in ptr && ptr[fl[k]] == Next(fl, k)
  }

  ghost predicate Sizes(c: Cut, size: map<nat, nat>, base: nat) {
    && base in size && size[base] == 0
    && forall a :: a in c ==> a in size && size[a] == c[a]
  }

  /** Where a block belongs: after fl[t]. */
  ghost predicate Slot(fl: seq<nat>, bp: nat, t: nat) {
    t < |fl| && fl[t] < bp && (t + 1 < |fl| ==> bp < fl[t + 1])
  }

  lemma {:induction false} FindSlot(fl: seq<nat>, bp: nat) returns (t: nat)
    requires |fl| >= 1 && fl[0] < bp && bp !in fl && (forall j, k :: 0 <= j < k < |fl| ==> fl[j] < fl[k])
    ensures Slot(fl, bp, t)
  {
    if |fl| == 1 || bp < fl[1] {
      t := 0;
    } else {
      var n := |fl| - 1;
      if fl[n] < bp {
        t := n;
      } else {
        t := FindSlot(fl[..n], bp);
        assert t < n;
      }
    }
  }

  // ---------------------------------------------------------------------------
  // What free does to the list
  // ---------------------------------------------------------------------------

  ghost predicate AdjacentOnly(fl: seq<nat>, c: Cut, j: nat, k: nat) {
    forall i: nat :: Adjacent(fl, c, i) ==> i == j || i == k
  }

  ghost function InsertAt(fl: seq<nat>, t: nat, bp: nat): (n: seq<nat>)
    requires t < |fl|
    ensures |n| == |fl| + 1
    ensures forall k :: 0 <= k < |n| ==> n[k] == if k <= t then fl[k] else if k == t + 1 then bp else fl[k - 1]
  {
    fl[..t + 1] + [bp] + fl[t + 1..]
  }

  ghost function RemoveAt(fl: seq<nat>, k: nat): (n: seq<nat>)
    requires k < |fl|
    ensures |n| == |fl| - 1
    ensures forall i :: 0 <= i < |n| ==> n[i] == if i < k then fl[i] else fl[i + 1]
  {
    fl[..k] + fl[k + 1..]
  }

  lemma InsertHas(fl: seq<nat>, t: nat, bp: nat, a: nat)
    requires t < |fl|
    ensures a in InsertAt(fl, t, bp) <==> a == bp || a in fl
  {
    var n := InsertAt(fl, t, bp);
    assert n[t + 1] == bp;
    if a in fl {
      var k :| 0 <= k < |fl| && fl[k] == a;
      assert n[if k <= t then k else k + 1] == a;
    }
  }

  lemma RemoveHas(fl: seq<nat>, k: nat, a: nat)
    requires k < |fl| && a in fl && a != fl[k]
    ensures a in RemoveAt(fl, k)
  {
    var i :| 0 <= i < |fl| && fl[i] == a;
    assert RemoveAt(fl, k)[if i < k then i else i - 1] == a;
  }

  lemma InsertListed(fl: seq<nat>, c: Cut, live: set<nat>, base: nat, bp: nat, t: nat)
    requires Listed(fl, c, live, base) && bp in live && Slot(fl, bp, t)
    ensures Listed(InsertAt(fl, t, bp), c, live - {bp}, base)
  {
    var n := InsertAt(fl, t, bp);
    forall j, k | 0 <= j < k < |n|
      ensures n[j] < n[k]
    {
    }
    forall a | IsFree(c, live - {bp}, a)
      ensures a in n
    {
      assert a != bp ==> IsFree(c, live, a);
      InsertHas(fl, t, bp, a);
    }
  }

  lemma InsertAdjacent(fl: seq<nat>, c: Cut, bp: nat, t: nat)
    requires t < |fl| && Coalesced(fl, c)
    ensures AdjacentOnly(InsertAt(fl, t, bp), c, t, t + 1)
  {
    var n := InsertAt(fl, t, bp);
    forall i: nat | i != t && i != t + 1
      ensures !Adjacent(n, c, i)
    {
      if i < t {
        assert !Adjacent(fl, c, i);
      } else {
        assert !Adjacent(fl, c, i - 1);
      }
    }
  }

  /** Two neighbours of the list become one block. */
  lemma MergeListed(fl: seq<nat>, c: Cut, live: set<nat>, base: nat, k: nat)
    requires Listed(fl, c, live, base) && Adjacent(fl, c, k)
    ensures Listed(RemoveAt(fl, k + 1), Merge(c, fl[k], fl[k + 1]), live, base)
  {
    var n := RemoveAt(fl, k + 1);
    var d := Merge(c, fl[k], fl[k + 1]);
    forall i, j | 0 <= i < j < |n|
      ensures n[i] < n[j]
    {
    }
    forall i | 1 <= i < |n|
      ensures n[i] in d && n[i] !in live
    {
    }
    forall a | IsFree(d, live, a)
      ensures a in n
    {
      assert IsFree(c, live, a);
      RemoveHas(fl, k + 1, a);
    }
  }

  lemma MergeAdjacent(fl: seq<nat>, c: Cut, live: set<nat>, base: nat, k: nat, i: nat)
    requires Listed(fl, c, live, base) && Adjacent(fl, c, k)
    requires Adjacent(RemoveAt(fl, k + 1), Merge(c, fl[k], fl[k + 1]), i)
    ensures Adjacent(fl, c, if i < k then i else i + 1)
  {
    var n := RemoveAt(fl, k + 1);
    var d := Merge(c, fl[k], fl[k + 1]);
    if i < k {
      assert n[i] == fl[i] && n[i + 1] == fl[i + 1] && d[fl[i]] == c[fl[i]];
    } else if i == k {
      assert n[i] == fl[k] && n[i + 1] == fl[k + 2] && d[fl[k]] == c[fl[k]] + c[fl[k + 1]];
    } else {
      assert n[i] == fl[i + 1] && n[i + 1] == fl[i + 2] && d[fl[i + 1]] == c[fl[i + 1]];
    }
  }

  ghost predicate JoinsNext(fl: seq<nat>, c: Cut, bp: nat, t: nat) {
    t + 1 < |fl| && bp in c && bp + c[bp] == fl[t + 1]
  }

  ghost predicate JoinsPrev(fl: seq<nat>, c: Cut, bp: nat, t: nat) {
    1 <= t < |fl| && fl[t] in c && fl[t] + c[fl[t]] == bp
  }

  /** The blocks after free has joined `bp` with its neighbours. */
  ghost function FreeCut(fl: seq<nat>, c: Cut, bp: nat, t: nat): Cut {
    var d := if JoinsNext(fl, c, bp, t) && fl[t + 1] in c then Merge(c, bp, fl[t + 1]) else c;
    if JoinsPrev(fl, c, bp, t) && bp in d && fl[t] in d then Merge(d, fl[t], bp) else d
  }

  ghost function FreeList(fl: seq<nat>, c: Cut, bp: nat, t: nat): seq<nat>
    requires t < |fl|
  {
    Relinked(fl, bp, t, JoinsNext(fl, c, bp, t), JoinsPrev(fl, c, bp, t))
  }

  /** The list with `bp` after fl[t], without its successor if `drop`, and joined to
      its predecessor if `join`. */
  ghost function Relinked(fl: seq<nat>, bp: nat, t: nat, drop: bool, join: bool): seq<nat>
    requires t < |fl| && (drop ==> t + 1 < |fl|)
  {
    fl[..t + 1] + (if join then [] else [bp]) + fl[if drop then t + 2 else t + 1..]
  }

  lemma JoinNext(fl: seq<nat>, c: Cut, live: set<nat>, base: nat, units: set<nat>, bp: nat, t: nat)
    requires Listed(fl, c, live, base) && bp in live && Slot(fl, bp, t) && Coalesced(fl, c) && Partition(c, units)
    requires JoinsNext(fl, c, bp, t)
    ensures fl[t + 1] in c
    ensures var n := RemoveAt(InsertAt(fl, t, bp), t + 2);
            var d := Merge(c, bp, fl[t + 1]);
            && Listed(n, d, live - {bp}, base) && Partition(d, units) && AdjacentOnly(n, d, t, t)
            && (Adjacent(n, d, t) <==> JoinsPrev(fl, c, bp, t))
  {
    var l := InsertAt(fl, t, bp);
    InsertListed(fl, c, live, base, bp, t);
    InsertAdjacent(fl, c, bp, t);
    assert l[t + 1] == bp && l[t + 2] == fl[t + 1];
    assert Adjacent(l, c, t + 1);
    MergeListed(l, c, live - {bp}, base, t + 1);
    MergeKeeps(c, units, bp, fl[t + 1]);
    var n := RemoveAt(l, t + 2);
    var d := Merge(c, bp, fl[t + 1]);
    forall i: nat | Adjacent(n, d, i)
      ensures i == t
    {
      MergeAdjacent(l, c, live - {bp}, base, t + 1, i);
    }
  }

  lemma NoJoinNext(fl: seq<nat>, c: Cut, live: set<nat>, base: nat, bp: nat, t: nat)
    requires Listed(fl, c, live, base) && bp in live && Slot(fl, bp, t) && Coalesced(fl, c) && !JoinsNext(fl, c, bp, t)
    ensures var n := InsertAt(fl, t, bp);
            && Listed(n, c, live - {bp}, base) && AdjacentOnly(n, c, t, t)
            && (Adjacent(n, c, t) <==> JoinsPrev(fl, c, bp, t))
  {
    InsertListed(fl, c, live, base, bp, t);
    InsertAdjacent(fl, c, bp, t);
  }

  lemma JoinPrev(n: seq<nat>, d: Cut, live: set<nat>, base: nat, units: set<nat>, t: nat)
    requires Listed(n, d, live, base) && Partition(d, units) && AdjacentOnly(n, d, t, t) && Adjacent(n, d, t)
    ensures var m := RemoveAt(n, t + 1);
            var e := Merge(d, n[t], n[t + 1]);
            Listed(m, e, live, base) && Partition(e, units) && Coalesced(m, e)
  {
    MergeListed(n, d, live, base, t);
    MergeKeeps(d, units, n[t], n[t + 1]);
    var m := RemoveAt(n, t + 1);
    var e := Merge(d, n[t], n[t + 1]);
    forall i: nat
      ensures !Adjacent(m, e, i)
    {
      if Adjacent(m, e, i) {
        MergeAdjacent(n, d, live, base, t, i);
      }
    }
  }

  lemma RelinkedIs(fl: seq<nat>, bp: nat, t: nat, drop: bool, join: bool)
    requires t < |fl| && (drop ==> t + 1 < |fl|)
    ensures var l := InsertAt(fl, t, bp);
            var n := if drop then RemoveAt(l, t + 2) else l;
            && n[t] == fl[t] && n[t + 1] == bp
            && Relinked(fl, bp, t, drop, join) == if join then RemoveAt(n, t + 1) else n
  {
  }

  /** What free makes of a list and its blocks keeps everything. */
  lemma FreedKeeps(fl: seq<nat>, c: Cut, live: set<nat>, base: nat, units: set<nat>, bp: nat, t: nat)
    requires Listed(fl, c, live, base) && bp in live && Slot(fl, bp, t) && Coalesced(fl, c) && Partition(c, units)
    ensures var n := FreeList(fl, c, bp, t);
            var d := FreeCut(fl, c, bp, t);
            Listed(n, d, live - {bp}, base) && Partition(d, units) && Coalesced(n, d)
  {
    RelinkedIs(fl, bp, t, JoinsNext(fl, c, bp, t), JoinsPrev(fl, c, bp, t));
    var n, d := InsertAt(fl, t, bp), c;
    if JoinsNext(fl, c, bp, t) {
      JoinNext(fl, c, live, base, units, bp, t);
      n, d := RemoveAt(n, t + 2), Merge(c, bp, fl[t + 1]);
    } else {
      NoJoinNext(fl, c, live, base, bp, t);
    }
    AfterNext(n, d, live - {bp}, base, units, bp, t);
  }

  lemma AfterNext(n: seq<nat>, d: Cut, live: set<nat>, base: nat, units: set<nat>, bp: nat, t: nat)
    requires Listed(n, d, live, base) && Partition(d, units) && AdjacentOnly(n, d, t, t) && t + 1 < |n|
             && n[t + 1] == bp
    ensures if Adjacent(n, d, t)
            then n[t] in d && bp in d
                 && Listed(RemoveAt(n, t + 1), Merge(d, n[t], bp), live, base) && Partition(Merge(d, n[t], bp), units)
                 && Coalesced(RemoveAt(n, t + 1), Merge(d, n[t], bp))
            else Coalesced(n, d)
  {
    if Adjacent(n, d, t) {
      JoinPrev(n, d, live, base, units, t);
    }
  }

  /** The successor of the new block. */
  ghost function After(fl: seq<nat>, t: nat, drop: bool): nat
    requires t < |fl|
  {
    var s := if drop then t + 2 else t + 1;
    if s < |fl| then fl[s] else fl[0]
  }

  /** Who is at place `k` of the new list, and who follows. */
  lemma RelinkedAt(fl: seq<nat>, bp: nat, t: nat, drop: bool, join: bool, k: nat)
    requires t < |fl| && (drop ==> t + 1 < |fl|) && k < |Relinked(fl, bp, t, drop, join)|
    ensures var n := Relinked(fl, bp, t, drop, join);
            var s := if drop then t + 2 else t + 1;
            var m := if join then t + 1 else t + 2;
            if k < t then n[k] == fl[k] && Next(n, k) == Next(fl, k)
            else if k == t then n[k] == fl[t] && Next(n, k) == if join then After(fl, t, drop) else bp
            else if k < m then n[k] == bp && Next(n, k) == After(fl, t, drop)
            else k - m + s < |fl| && k - m + s != t && n[k] == fl[k - m + s] && Next(n, k) == Next(fl, k - m + s)
  {
    var n := Relinked(fl, bp, t, drop, join);
    var s := if drop then t + 2 else t + 1;
    var m := if join then t + 1 else t + 2;
    assert |n| == m + (|fl| - s);
    assert forall i :: 0 <= i < |n| ==> n[i] == if i <= t then fl[i] else if i < m then bp else fl[i - m + s];
  }

  /** The pointers that free writes. */
  lemma RelinkedCircular(fl: seq<nat>, ptr: map<nat, nat>, bp: nat, t: nat, drop: bool, join: bool)
    requires (forall j, k :: 0 <= j < k < |fl| ==> fl[j] < fl[k]) && Slot(fl, bp, t) && Circular(fl, ptr)
             && (drop ==> t + 1 < |fl|)
    ensures Next(fl, t) in ptr && After(fl, t, drop) == if drop then ptr[Next(fl, t)] else Next(fl, t)
    ensures var x := After(fl, t, drop);
            Circular(Relinked(fl, bp, t, drop, join), ptr[bp := x][fl[t] := if join then x else bp])
  {
    var n := Relinked(fl, bp, t, drop, join);
    var s := if drop then t + 2 else t + 1;
    var m := if join then t + 1 else t + 2;
    var x := After(fl, t, drop);
    AfterIs(fl, ptr, t, drop);
    var q := ptr[bp := x][fl[t] := if join then x else bp];
    forall k: nat | k < |n|
      ensures n[k] in q && q[n[k]] == Next(n, k)
    {
      RelinkedAt(fl, bp, t, drop, join, k);
      if k < t {
        RelinkedOther(fl, ptr, bp, t, x, if join then x else bp, k);
      } else if k >= m {
        RelinkedOther(fl, ptr, bp, t, x, if join then x else bp, k - m + s);
      }
    }
  }

  lemma NextNext(fl: seq<nat>, ptr: map<nat, nat>, t: nat)
    requires t < |fl| && Circular(fl, ptr)
    ensures fl[t] in ptr && ptr[fl[t]] == Next(fl, t) && Next(fl, t) in ptr
    ensures t + 1 < |fl| ==> ptr[Next(fl, t)] == Next(fl, t + 1)
  {
    var z := Next(fl, t);
    if t + 1 < |fl| {
      var y := Next(fl, t + 1);
    } else {
      var y := Next(fl, 0);
    }
  }

  lemma AfterIs(fl: seq<nat>, ptr: map<nat, nat>, t: nat, drop: bool)
    requires t < |fl| && Circular(fl, ptr) && (drop ==> t + 1 < |fl|)
    ensures fl[t] in ptr && ptr[fl[t]] == Next(fl, t) && Next(fl, t) in ptr
    ensures After(fl, t, drop) == if drop then ptr[Next(fl, t)] else Next(fl, t)
  {
    NextNext(fl, ptr, t);
  }

  lemma RelinkedOther(fl: seq<nat>, ptr: map<nat, nat>, bp: nat, t: nat, x: nat, y: nat, k: nat)
    requires (forall i, j :: 0 <= i < j < |fl| ==> fl[i] < fl[j]) && Slot(fl, bp, t) && Circular(fl, ptr) && k < |fl|
             && k != t
    ensures var q := ptr[bp := x][fl[t] := y]; fl[k] in q && q[fl[k]] == Next(fl, k)
  {
    NextNext(fl, ptr, k);
    assert k < t ==> fl[k] < fl[t];
    assert k > t ==> bp < fl[t + 1] <= fl[k];
  }

  // ---------------------------------------------------------------------------
  // What malloc does to the list
  // ---------------------------------------------------------------------------

  lemma UnlinkListed(fl: seq<nat>, c: Cut, live: set<nat>, base: nat, i: nat)
    requires Listed(fl, c, live, base) && 1 <= i < |fl|
    ensures Listed(RemoveAt(fl, i), c, live + {fl[i]}, base)
  {
    var n := RemoveAt(fl, i);
    forall j, k | 0 <= j < k < |n|
      ensures n[j] < n[k]
    {
    }
    forall k | 1 <= k < |n|
      ensures n[k] in c && n[k] !in live + {fl[i]}
    {
      assert n[k] == if k < i then fl[k] else fl[k + 1];
    }
    forall a | IsFree(c, live + {fl[i]}, a)
      ensures a in n
    {
      assert IsFree(c, live, a);
      RemoveHas(fl, i, a);
    }
  }

  lemma UnlinkCoalesced(fl: seq<nat>, c: Cut, live: set<nat>, base: nat, units: set<nat>, i: nat)
    requires Listed(fl, c, live, base) && 1 <= i < |fl| && Coalesced(fl, c) && Partition(c, units)
    ensures Coalesced(RemoveAt(fl, i), c)
  {
    var n := RemoveAt(fl, i);
    forall k: nat
      ensures !Adjacent(n, c, k)
    {
      if 1 <= k < |n| - 1 {
        if k < i - 1 {
          assert !Adjacent(fl, c, k) && n[k] == fl[k] && n[k + 1] == fl[k + 1];
        } else if k == i - 1 {
          assert n[k] == fl[k] && n[k + 1] == fl[i + 1];
          assert Apart(c, fl[k], fl[i]);
        } else {
          assert !Adjacent(fl, c, k + 1) && n[k] == fl[k + 1] && n[k + 1] == fl[k + 2];
        }
      }
    }
  }

  lemma UnlinkCircular(fl: seq<nat>, ptr: map<nat, nat>, i: nat)
    requires (forall j, k :: 0 <= j < k < |fl| ==> fl[j] < fl[k]) && Circular(fl, ptr) && 1 <= i < |fl|
    ensures fl[i] in ptr && Circular(RemoveAt(fl, i), ptr[fl[i - 1] := ptr[fl[i]]])
  {
    NextNext(fl, ptr, i);
    var n := RemoveAt(fl, i);
    var q := ptr[fl[i - 1] := ptr[fl[i]]];
    forall k: nat | k < |n|
      ensures n[k] in q && q[n[k]] == Next(n, k)
    {
      if k < i {
        NextNext(fl, ptr, k);
        assert n[k] == fl[k];
      } else {
        NextNext(fl, ptr, k + 1);
        assert n[k] == fl[k + 1] && fl[i - 1] < fl[k + 1];
      }
    }
  }

  lemma SplitListed(fl: seq<nat>, c: Cut, live: set<nat>, base: nat, i: nat, n: nat)
    requires Listed(fl, c, live, base) && 1 <= i < |fl| && 0 < n < c[fl[i]] && fl[i] + c[fl[i]] - n !in c
    ensures Listed(fl, Split(c, fl[i], n), live + {fl[i] + c[fl[i]] - n}, base)
  {
    var d := Split(c, fl[i], n);
    var q := fl[i] + c[fl[i]] - n;
    forall a | IsFree(d, live + {q}, a)
      ensures a in fl
    {
      assert IsFree(c, live, a);
    }
    forall k | 1 <= k < |fl|
      ensures fl[k] in d && fl[k] !in live + {q}
    {
      assert fl[k] in c;
    }
  }

  lemma SplitCoalesced(fl: seq<nat>, c: Cut, units: set<nat>, i: nat, n: nat)
    requires 1 <= i < |fl| && (forall k :: 1 <= k < |fl| ==> fl[k] in c)
             && (forall j, k :: 0 <= j < k < |fl| ==> fl[j] < fl[k])
    requires Coalesced(fl, c) && Partition(c, units) && 0 < n < c[fl[i]] && fl[i] + c[fl[i]] - n !in c
    ensures Coalesced(fl, Split(c, fl[i], n))
  {
    var d := Split(c, fl[i], n);
    forall k: nat
      ensures !Adjacent(fl, d, k)
    {
      assert !Adjacent(fl, c, k);
      if 1 <= k < |fl| - 1 {
        assert fl[k] in c && fl[k + 1] in c && Apart(c, fl[k], fl[k + 1]);
      }
    }
  }
}
