/** free, morecore and malloc (xv6/user/umalloc.c), in place on the headers. */
module UmallocCode {
  import opened Umalloc
  import LM = LazyMemory

  /** The units malloc asks for: the bytes rounded up, and the header. */
  function Units(nbytes: nat): (n: nat)
    ensures n >= 1
  {
    (nbytes + 15) / 16 + 1
  }

  /** A 64-bit value passed as a C int. */
  function ToInt(x: nat): (n: int) {
    var y := x % 0x1_0000_0000;
    if y >= 0x8000_0000 then y - 0x1_0000_0000 else y
  }

  const MINUNITS: nat := 4096

  function Request(nu: nat): (n: nat) {
    if nu < MINUNITS then MINUNITS else nu
  }

  /** The largest request for which the argument of sbrk is right. */
  const LARGEST: nat := 0x7fff_ffe0

  /** morecore gets what it asks for exactly for requests up to 2^31 - 32 bytes: sbrk
      takes an int, and a larger request arrives as a smaller or negative one. */
  lemma RequestFits(nbytes: nat)
    requires nbytes < 0x1_0000_0000
    ensures ToInt(16 * Request(Units(nbytes))) == 16 * Request(Units(nbytes)) <==> nbytes <= LARGEST
    ensures nbytes > LARGEST ==> ToInt(16 * Request(Units(nbytes))) < 16 * Request(Units(nbytes))
  {
  }

  /** The break, in units, after sbrk of a whole number of units that does not fail. */
  function Break(brk: nat, bytes: int): (b: nat) {
    if bytes >= 0 then brk + bytes / 16
    else if 16 * brk + bytes < 0 then brk
    else (16 * brk + bytes) / 16
  }

  /** That is what sbrk makes of the size, and it returns the old one. */
  lemma BreakIsSbrk(u: LM.Memory, brk: nat, bytes: int)
    requires u.sz == 16 * brk && bytes % 16 == 0 && u.sz + bytes <= LM.TOP
    ensures LM.AbsSbrk(u, bytes).sz == 16 * Break(brk, bytes) && LM.SbrkValue(u.sz, bytes) == 16 * brk
  {
  }

  /** The smallest request that goes wrong: sbrk gets -2^31. That leaves a smaller process
      as it is and takes 2 GB from a larger one; either way it returns the old size, which
      morecore takes for 2 GB of new memory. */
  lemma RequestTooLarge(u: LM.Memory)
    ensures var n := ToInt(16 * Request(Units(LARGEST + 1)));
            && n == -0x8000_0000 && LM.SbrkValue(u.sz, n) == u.sz
            && (u.sz < 0x8000_0000 ==> LM.AbsSbrk(u, n) == u)
            && (u.sz >= 0x8000_0000 ==> LM.AbsSbrk(u, n).sz == u.sz - 0x8000_0000)
  {
  }

  /** The new break is above `n` new units exactly when sbrk was asked for them. */
  lemma BreakCovers(hp: nat, n: nat)
    requires n >= 1
    ensures hp + n <= Break(hp, ToInt(16 * n)) <==> ToInt(16 * n) == 16 * n
    ensures ToInt(16 * n) == 16 * n ==> Break(hp, ToInt(16 * n)) == hp + n
    ensures ToInt(16 * n) <= 0 ==> Break(hp, ToInt(16 * n)) <= hp
  {
    assert ToInt(16 * n) <= 16 * n;
  }

  ghost predicate HeapOk(fl: seq<nat>, c: Cut, live: set<nat>, units: set<nat>, base: nat, brk: nat) {
    && Listed(fl, c, live, base) && Coalesced(fl, c) && Partition(c, units)
    && forall a :: a in c ==> a + c[a] <= brk
  }

  /** The place of `p` on the list. */
  ghost predicate At(fl: seq<nat>, k: nat, p: nat) {
    k < |fl| && fl[k] == p
  }

  /** What is known of a heap before a call. */
  datatype Was = Was(fl: seq<nat>, cut: Cut, live: set<nat>, units: set<nat>, brk: nat, top: nat)

  class Heap {
    /** The static header; a free pointer of 0 means nothing was allocated yet. */
    const base: nat
    var ptr: map<nat, nat>
    var size: map<nat, nat>
    var freep: nat
    var brk: nat
    ghost var fl: seq<nat>
    ghost var cut: Cut
    ghost var live: set<nat>
    ghost var units: set<nat>
    ghost var top: nat    // above all blocks

    constructor (base: nat, brk: nat)
      requires 0 < base < brk
      ensures Valid() && Sound() && this.base == base && this.brk == brk && freep == 0 && live == {} && units == {}
    {
      this.base := base;
      this.brk := brk;
      ptr, size, freep := map[], map[], 0;
      fl, cut, live, units, top := [], map[], {}, {}, brk;
    }

    ghost predicate Valid()
      reads this
    {
      && 0 < base < top
      && (freep == 0 ==> fl == [] && cut == map[] && live == {} && units == {})
      && (freep != 0 ==> Ready())
    }

    ghost predicate Ready()
      reads this
    {
      && HeapOk(fl, cut, live, units, base, top)
      && Circular(fl, ptr) && Sizes(cut, size, base) && freep in fl
    }

    /** All blocks are memory: they are below the break. */
    ghost predicate Sound()
      reads this
    {
      top <= brk
    }

    /** The search of free: the block of the list after which `bp` belongs. */
    method FindPlace(bp: nat) returns (p: nat, ghost t: nat)
      requires Valid() && freep != 0 && bp in live
      ensures Slot(fl, bp, t) && p == fl[t]
    {
      assert bp !in fl by {
        assert base < bp;
      }
      t := FindSlot(fl, bp);
      p := freep;
      ghost var j: nat :| j < |fl| && fl[j] == p;
      NextNext(fl, ptr, j);
      while !(bp > p && bp < ptr[p])
        invariant At(fl, j, p) && p in ptr && ptr[p] == Next(fl, j)
        decreases if j <= t then t - j else |fl| - j + t
      {
        if p >= ptr[p] && (bp > p || bp < ptr[p]) {
          break;
        }
        p := ptr[p];
        j := if j + 1 < |fl| then j + 1 else 0;
        NextNext(fl, ptr, j);
      }
      assert j == t;
    }

    /** The second half of free: the tests for neighbours and the writes. */
    method Join(bp: nat, p: nat, ghost t: nat)
      requires Valid() && freep != 0 && bp in live && Slot(fl, bp, t) && p == fl[t]
      modifies this`ptr, this`size
      ensures Next(fl, t) in old(ptr) && size == NewSize(old(size), fl, cut, bp, t)
      ensures var x := After(fl, t, JoinsNext(fl, cut, bp, t));
              ptr == old(ptr)[bp := x][p := if JoinsPrev(fl, cut, bp, t) then x else bp]
    {
      AfterIs(fl, ptr, t, JoinsNext(fl, cut, bp, t));
      Neighbours(fl, cut, live, base, size, bp, t);
      var next := ptr[p];
      if bp + size[bp] == next {
        size := size[bp := size[bp] + size[next]];
        ptr := ptr[bp := ptr[next]];
      } else {
        ptr := ptr[bp := next];
      }
      if p + size[p] == bp {
        size := size[p := size[p] + size[bp]];
        ptr := ptr[p := ptr[bp]];
      } else {
        ptr := ptr[p := bp];
      }
    }

    /** free of the block with header `bp`. */
    method Free(bp: nat)
      requires Valid() && freep != 0 && bp in live
      modifies this
      ensures Valid() && freep != 0 && brk == old(brk) && top == old(top) && units == old(units)
      ensures live == old(live) - {bp} && live <= cut.Keys && live <= old(cut).Keys
              && forall a :: a in live ==> cut[a] == old(cut)[a]
      ensures exists t: nat ::
                && Slot(old(fl), bp, t) && fl == FreeList(old(fl), old(cut), bp, t)
                && cut == FreeCut(old(fl), old(cut), bp, t)
      ensures freep in fl
    {
      var p;
      ghost var t;
      p, t := FindPlace(bp);
      FreedHeap(fl, cut, live, units, base, top, bp, t);
      FreedHeaders(fl, cut, live, base, ptr, size, bp, t);
      Join(bp, p, t);
      freep := p;
      fl := FreeList(fl, cut, bp, t);
      cut := FreeCut(old(fl), cut, bp, t);
      live := live - {bp};
    }

    /** morecore writes the header of a new block above all others, not on the list yet. */
    method NewBlock(hp: nat, n: nat)
      requires Valid() && freep != 0 && n >= 1 && hp >= top
      modifies this
      ensures Valid() && freep == old(freep) && fl == old(fl) && brk == old(brk) && top == hp + n && hp !in old(cut)
      ensures live == old(live) + {hp} && cut == old(cut)[hp := n] && units == old(units) + Span(hp, n)
    {
      AddedHeap(fl, cut, live, units, base, top, hp, n);
      AddedSizes(cut, size, base, hp, n);
      size := size[hp := n];
      cut := cut[hp := n];
      units := units + Span(hp, n);
      live := live + {hp};
      top := hp + n;
    }

    /** morecore. `gap` is what others took from sbrk since the last call, `fail` the
        verdict of sbrk on a growth, and `slack` tells whether the page at the break is
        mapped; if not, writing a header there kills the process. */
    method MoreCore(nu: nat, gap: nat, fail: bool, slack: bool) returns (p: nat, killed: bool)
      requires Valid() && Sound() && freep != 0 && nu >= 1 && !HasBlock(fl, cut, nu)
      modifies this
      ensures Valid() && freep != 0 && LiveKept(old(live), old(cut), live, cut) && live == old(live)
      ensures p == 0 ==>
                units == old(units) && fl == old(fl) && cut == old(cut) && freep == old(freep) && top == old(top)
      ensures p == 0 && !killed ==> fail && ToInt(16 * Request(nu)) > 0 && brk == old(brk)
      ensures killed ==> p == 0 && !slack && ToInt(16 * Request(nu)) <= 0
      ensures p != 0 ==> Extended(old(brk) + gap, old(units), nu, p)
      ensures p != 0 ==> top == old(brk) + gap + if nu < 4096 then 4096 else nu
    {
      var n := Request(nu);
      var bytes := ToInt(16 * n);
      if bytes > 0 && fail {
        return 0, false;
      }
      var hp := brk + gap;
      brk := Break(hp, bytes);
      if hp >= brk && !slack {
        return 0, true;
      }
      NewBlock(hp, n);
      FreeNew(hp, nu, old(fl), old(live), old(cut));
      p, killed := freep, false;
    }

    /** After morecore at `hp`: the only block of `nu` units ends at the top. */
    ghost predicate Extended(hp: nat, u: set<nat>, nu: nat, p: nat)
      reads this
    {
      && p == freep && units == u + Span(hp, Request(nu)) && HasBlock(fl, cut, nu) && LargeAtTop(fl, cut, nu, top)
      && top == hp + Request(nu) && brk == Break(hp, ToInt(16 * Request(nu)))
    }

    /** The call of free in morecore. */
    method FreeNew(hp: nat, nu: nat, ghost f: seq<nat>, ghost l: set<nat>, ghost c: Cut)
      requires Valid() && freep != 0 && hp in live && hp !in c && live == l + {hp} && l <= c.Keys && hp in cut
               && cut == c[hp := cut[hp]]
      requires fl == f && !HasBlock(f, c, nu) && top == hp + cut[hp] && cut[hp] >= nu
      requires forall a :: a in c ==> a + c[a] <= hp
      modifies this
      ensures Valid() && freep != 0 && live == l && LiveKept(l, c, live, cut) && units == old(units)
      ensures brk == old(brk) && top == old(top) && HasBlock(fl, cut, nu) && LargeAtTop(fl, cut, nu, top)
    {
      ghost var d, m := cut, live;
      Free(hp);
      ghost var t: nat :| Slot(f, hp, t) && fl == FreeList(f, d, hp, t) && cut == FreeCut(f, d, hp, t);
      BigEnough(f, d, m, base, hp, t);
      OnlyAtTop(f, c, d, m, base, hp, t, nu, top);
    }

    /** malloc takes the whole block `p` off the list. */
    method CarveAll(prevp: nat, p: nat, ghost i: nat)
      requires Valid() && freep != 0 && 1 <= i && At(fl, i, p) && prevp == fl[i - 1] && prevp != 0
      modifies this
      ensures Valid() && freep == prevp && units == old(units) && brk == old(brk) && top == old(top) && cut == old(cut)
      ensures p !in old(live) && live == old(live) + {p} && base < p && p in cut
    {
      UnlinkedHeap(fl, cut, live, units, base, top, ptr, i);
      NextNext(fl, ptr, i - 1);
      ptr := ptr[prevp := ptr[p]];
      fl := RemoveAt(fl, i);
      freep := prevp;
      live := live + {p};
    }

    /** malloc takes the last `n` units of the block `p`, which stays on the list. */
    method CarveTail(prevp: nat, p: nat, n: nat, ghost i: nat) returns (q: nat)
      requires Valid() && freep != 0 && 1 <= i && At(fl, i, p) && prevp == fl[i - 1] && prevp != 0
      requires n >= 1 && p in cut && cut[p] > n
      modifies this
      ensures Valid() && freep == prevp && units == old(units) && brk == old(brk) && top == old(top) && fl == old(fl)
      ensures q + n == p + old(cut)[p]
      ensures q !in old(cut) && live == old(live) + {q} && base < q && cut == Split(old(cut), p, n) && q in cut
              && cut[q] == n
    {
      SplitHeap(fl, cut, live, units, base, top, size, i, n);
      size := size[p := size[p] - n];
      q := p + size[p];
      size := size[q := n];
      cut := Split(cut, p, n);
      freep := prevp;
      live := live + {q};
    }

    /** malloc takes `n` units from the block `p`, whose predecessor is `prevp`. */
    method Carve(prevp: nat, p: nat, n: nat, ghost i: nat) returns (q: nat)
      requires Valid() && freep != 0 && 1 <= i && At(fl, i, p) && prevp == fl[i - 1] && prevp != 0
      requires n >= 1 && p in cut && cut[p] >= n
      modifies this
      ensures Valid() && freep != 0 && units == old(units) && brk == old(brk) && top == old(top)
              && q + n == p + old(cut)[p] <= top
      ensures q !in old(live) && live == old(live) + {q} && q in cut && cut[q] == n && base < q
      ensures LiveKept(old(live), old(cut), live, cut)
    {
      assert p !in live;
      if size[p] == n {
        CarveAll(prevp, p, i);
        q := p;
      } else {
        q := CarveTail(prevp, p, n, i);
      }
    }

    /** The first call of malloc: the list is the base header alone. */
    method Init()
      requires Valid() && freep == 0
      modifies this
      ensures Valid() && freep != 0 && live == old(live) && units == old(units) && cut == old(cut) && brk == old(brk)
      ensures top == old(top) && fl == [base]
    {
      ptr := map[base := base];
      size := map[base := 0];
      freep := base;
      fl := [base];
      assert Next(fl, 0) == base;
    }

    /** The heap in the search of malloc, which started in the state `z`: untouched, or
        after one call of morecore because no block was large enough. */
    ghost predicate Looking(z: Was, gap: nat, n: nat, calls: nat)
      reads this
    {
      && live == z.live && LiveKept(z.live, z.cut, live, cut) && calls <= 1
      && (calls == 0 ==> units == z.units && brk == z.brk && cut == z.cut && fl == z.fl && top == z.top)
      && (calls == 1 ==> Extended(z.brk + gap, z.units, n, freep) && !HasBlock(z.fl, z.cut, n))
    }

    /** malloc has found the block `q`; one that needed morecore ends at the top. */
    ghost predicate Served(z: Was, gap: nat, n: nat, q: nat, calls: nat)
      reads this
    {
      && q !in z.live && live == z.live + {q} && q in cut && cut[q] == n && LiveKept(z.live, z.cut, live, cut)
         && calls <= 1
      && (calls == 0 ==> units == z.units && brk == z.brk && q + n <= top == z.top && HasBlock(z.fl, z.cut, n))
      && (calls == 1 ==> Grown(z.brk + gap, z.units, n) && q + n == top && !HasBlock(z.fl, z.cut, n))
    }

    /** The found branch of malloc's loop. */
    method Take(prevp: nat, p: nat, n: nat, ghost i: nat, ghost z: Was, ghost gap: nat, ghost calls: nat)
      returns (q: nat)
      requires Valid() && freep != 0 && 1 <= i && At(fl, i, p) && prevp == fl[i - 1] && prevp != 0
      requires n >= 1 && p in cut && cut[p] >= n && Looking(z, gap, n, calls)
      modifies this
      ensures Valid() && base < q && Served(z, gap, n, q, calls)
    {
      ghost var d := cut;
      assert HasBlock(fl, cut, n);
      q := Carve(prevp, p, n, i);
      KeptTrans(z.live, z.cut, d, live, cut);
    }

    /** The call of morecore in malloc; the search goes on behind the new freep. */
    method Restart(n: nat, gap: nat, fail: bool, slack: bool, ghost z: Was) returns (p: nat, killed: bool, ghost f: nat)
      requires Valid() && Sound() && freep != 0 && n >= 1 && !HasBlock(fl, cut, n) && Looking(z, gap, n, 0)
      modifies this
      ensures Valid() && freep != 0
      ensures p == 0 ==> live == z.live && units == z.units && cut == z.cut && top == z.top
      ensures p == 0 && !killed ==> fail && ToInt(16 * Request(n)) > 0 && brk == z.brk
      ensures killed ==> p == 0 && !slack && ToInt(16 * Request(n)) <= 0
      ensures p != 0 ==> Looking(z, gap, n, 1) && p == freep && p in ptr && f < |fl|
      ensures p != 0 ==> Scanning(fl, size, f, Succ(fl, f), freep, p, ptr[p], n)
    {
      p, killed := MoreCore(n, gap, fail, slack);
      f := 0;
      if p != 0 {
        f :| f < |fl| && fl[f] == freep;
        ScanStart(fl, ptr, size, f, n);
      }
    }

    /** The loop of malloc for `n` units: it calls morecore at most once, and only when no
        block of the list is large enough. */
    method Search(n: nat, gap: nat, fail: bool, slack: bool, ghost z: Was)
      returns (q: nat, killed: bool, ghost calls: nat)
      requires Valid() && Sound() && freep != 0 && n >= 1 && z == Was(fl, cut, live, units, brk, top)
      modifies this
      ensures Valid() && (q != 0 ==> Served(z, gap, n, q, calls))
      ensures q == 0 ==>
                calls == 1 && !HasBlock(z.fl, z.cut, n) && live == z.live && units == z.units && cut == z.cut
                && top == z.top
      ensures q == 0 && !killed ==> fail && ToInt(16 * Request(n)) > 0 && brk == z.brk
      ensures killed ==> q == 0 && !slack && ToInt(16 * Request(n)) <= 0
    {
      ghost var f: nat :| f < |fl| && fl[f] == freep;
      ScanStart(fl, ptr, size, f, n);
      var prevp, p := freep, ptr[freep];
      ghost var i := Succ(fl, f);
      calls, killed := 0, false;
      while true
        invariant Valid() && freep != 0 && Scanning(fl, size, f, i, freep, prevp, p, n) && !killed
        invariant Looking(z, gap, n, calls)
        decreases 1 - calls, Ahead(fl, f, i)
      {
        HeaderHere(fl, cut, live, base, size, i);
        if size[p] >= n {
          q := Take(prevp, p, n, i, z, gap, calls);
          return;
        }
        if p == freep {
          NoneLarge(fl, cut, live, base, size, f, i, prevp, p, n);
          assert calls == 0;
          p, killed, f := Restart(n, gap, fail, slack, z);
          calls, i := 1, f;
          if p == 0 {
            return 0, killed, calls;
          }
        } else {
          ScanNext(fl, ptr, size, f, i, freep, prevp, p, n);
        }
        prevp := p;
        p := ptr[p];
        i := Succ(fl, i);
      }
    }

    /** The heap has grown by a request for `n` units at `hp`, and the break moved as sbrk
        moved it. */
    ghost predicate Grown(hp: nat, u: set<nat>, n: nat)
      reads this
    {
      units == u + Span(hp, Request(n)) && top == hp + Request(n) && brk == Break(hp, ToInt(16 * Request(n)))
    }

    /** malloc. The header of the result is one unit below it. The block is memory exactly
        when the list had one large enough or the request is not too large for sbrk. */
    method Malloc(nbytes: nat, gap: nat, fail: bool, slack: bool) returns (r: nat, killed: bool, ghost calls: nat)
      requires Valid() && Sound() && nbytes < 0x1_0000_0000
      modifies this
      ensures Valid() && calls <= 1 && (calls == 0 <==> HasBlock(old(fl), old(cut), Units(nbytes)))
      ensures r == 0 ==> calls == 1 && live == old(live) && units == old(units) && cut == old(cut)
      ensures r == 0 && !killed ==> fail && Sound()
      ensures killed ==> r == 0 && !slack && nbytes > LARGEST
      ensures r != 0 ==>
                r - 1 !in old(live) && live == old(live) + {r - 1} && r - 1 in cut && cut[r - 1] == Units(nbytes)
      ensures r != 0 ==> nbytes <= 16 * (cut[r - 1] - 1) < nbytes + 16
      ensures r != 0 ==> LiveKept(old(live), old(cut), live, cut)
      ensures r != 0 && calls == 0 ==> units == old(units) && brk == old(brk)
      ensures r != 0 && calls == 1 ==> Grown(old(brk) + gap, old(units), Units(nbytes)) && r - 1 + Units(nbytes) == top
      ensures r != 0 ==> (r - 1 + Units(nbytes) <= brk <==> calls == 0 || nbytes <= LARGEST)
      ensures r != 0 ==> (Sound() <==> calls == 0 || nbytes <= LARGEST)
    {
      RequestFits(nbytes);
      BreakCovers(brk + gap, Request(Units(nbytes)));
      if freep == 0 {
        Init();
      }
      var q;
      q, killed, calls := Search(Units(nbytes), gap, fail, slack, Was(fl, cut, live, units, brk, top));
      r := if q == 0 then 0 else q + 1;
    }

    /** The blocks a client holds are live, and each has room for the bytes it asked for behind
        its header of 16, with less than 16 to spare. */
    ghost predicate Holds(held: seq<Block>)
      reads this
    {
      && NoDup(held) && (forall a :: a in live <==> exists k :: IsBlock(held, k, a))
      && forall k :: 0 <= k < |held| ==>
           && held[k].at in cut
           && held[k].nbytes <= 16 * (cut[held[k].at] - 1) < held[k].nbytes + 16
    }

    method DoAlloc(nbytes: nat, gap: nat, fail: bool, slack: bool, held: seq<Block>)
      returns (r: nat, held2: seq<Block>, bad: bool)
      requires Valid() && Sound() && Holds(held) && nbytes < 0x1_0000_0000
      modifies this
      ensures Valid() && Holds(held2) && (!bad ==> Sound())
      ensures held2 == if r != 0 then held + [Block(r - 1, nbytes)] else held
      ensures r == 0 && !bad ==> fail
      ensures bad ==> nbytes > LARGEST && (if r == 0 then !slack else r - 1 + Units(nbytes) > brk)
    {
      ghost var l := live;
      ghost var calls;
      var killed;
      r, killed, calls := Malloc(nbytes, gap, fail, slack);
      forall k | 0 <= k < |held| ensures held[k].at in l { assert IsBlock(held, k, held[k].at); }
      held2, bad := held, killed;
      if r != 0 {
        held2 := held + [Block(r - 1, nbytes)];
        HeldMore(held, l, Block(r - 1, nbytes));
        bad := r - 1 + Units(nbytes) > brk;
      }
    }

    method DoRelease(j: nat, held: seq<Block>) returns (held2: seq<Block>)
      requires Valid() && Holds(held)
      modifies this
      ensures Valid() && Holds(held2) && held2 == Without(held, j) && (old(Sound()) ==> Sound())
    {
      held2 := held;
      if j < |held| {
        ghost var l := live;
        assert IsBlock(held, j, held[j].at);
        Free(held[j].at);
        held2 := held[..j] + held[j + 1..];
        HeldLess(held, l, j);
        forall k | 0 <= k < |held2| ensures held2[k].at in live { assert IsBlock(held2, k, held2[k].at); }
      }
    }

    /** One call of the client. */
    method Call(op: Op, held: seq<Block>) returns (r: nat, held2: seq<Block>, bad: bool)
      requires Valid() && Sound() && Holds(held) && (op.Alloc? ==> op.nbytes < 0x1_0000_0000)
      modifies this
      ensures Valid() && Holds(held2) && held2 == Held(held, op, r)
              && (!bad ==> Sound() && (op.Alloc? && r == 0 ==> op.fail))
      ensures bad ==> op.Alloc? && op.nbytes > LARGEST && (if r == 0 then !op.slack else r - 1 + Units(op.nbytes) > brk)
    {
      match op
      case Alloc(nbytes, gap, fail, slack) =>
        r, held2, bad := DoAlloc(nbytes, gap, fail, slack, held);
      case Release(j) =>
        r, bad := 0, false;
        held2 := DoRelease(j, held);
    }

    /** The calls of a client, up to one that goes wrong. */
    method Calls(ops: seq<Op>) returns (rs: seq<nat>, held: seq<Block>, bad: bool)
      requires Valid() && Sound() && live == {}
      requires forall k :: 0 <= k < |ops| && ops[k].Alloc? ==> ops[k].nbytes < 0x1_0000_0000
      modifies this
      ensures Valid() && Holds(held) && |rs| <= |ops| && held == Client(ops, rs, |rs|)
      ensures !bad ==> |rs| == |ops| && Sound() && NullsFail(ops, rs, |rs|)
      ensures bad ==> 0 < |rs| && NullsFail(ops, rs, |rs| - 1) && ops[|rs| - 1].Alloc? && ops[|rs| - 1].nbytes > LARGEST
      ensures bad ==> var r := rs[|rs| - 1];
                      if r == 0 then !ops[|rs| - 1].slack else r - 1 + Units(ops[|rs| - 1].nbytes) > brk
    {
      rs, held, bad := [], [], false;
      for k := 0 to |ops|
        invariant Valid() && Sound() && Holds(held) && |rs| == k && held == Client(ops, rs, k) && !bad
        invariant NullsFail(ops, rs, k)
      {
        var r;
        r, held, bad := Call(ops[k], held);
        ClientNext(ops, rs, k, r);
        rs := rs + [r];
        if bad {
          return;
        }
      }
    }

    /** Any sequence of allocations and releases by one client, until one goes wrong: the
        heap stays in order, the live blocks are exactly those that the client holds, each
        has the bytes it was asked for to itself, and all of them are memory. One goes wrong
        only for a request that is too large for sbrk: the process is killed, or it is handed
        a block beyond the break. */
    method Run(ops: seq<Op>) returns (rs: seq<nat>, held: seq<Block>, bad: bool)
      requires Valid() && Sound() && live == {}
      requires forall k :: 0 <= k < |ops| && ops[k].Alloc? ==> ops[k].nbytes < 0x1_0000_0000
      modifies this
      ensures Valid() && Holds(held) && |rs| <= |ops| && held == Client(ops, rs, |rs|)
      ensures BytesApart(held) && HeadersApart(cut, held)
      ensures !bad ==> |rs| == |ops| && Sound() && NullsFail(ops, rs, |rs|)
      ensures !bad ==> forall k :: 0 <= k < |held| ==> 16 * (held[k].at + 1) + held[k].nbytes <= 16 * brk
      ensures bad ==> 0 < |rs| && NullsFail(ops, rs, |rs| - 1) && ops[|rs| - 1].Alloc? && ops[|rs| - 1].nbytes > LARGEST
      ensures bad ==> var r := rs[|rs| - 1];
                      if r == 0 then !ops[|rs| - 1].slack else r - 1 + Units(ops[|rs| - 1].nbytes) > brk
    {
      rs, held, bad := Calls(ops);
      HeldApart(held);
    }

    /** The bytes of a held block are its own: no other held block and no header, of a block
        in use or free, reaches into them; and in a sound heap they are below the break. */
    lemma HeldApart(held: seq<Block>)
      requires Valid() && Holds(held)
      ensures BytesApart(held) && HeadersApart(cut, held)
      ensures Sound() ==> forall k :: 0 <= k < |held| ==> 16 * (held[k].at + 1) + held[k].nbytes <= 16 * brk
    {
      if held != [] {
        assert IsBlock(held, 0, held[0].at);
        HeadersOutside(cut, units, held);
        BytesOutside(cut, units, held);
      }
    }
  }

  /** malloc returns 0 only where sbrk fails. */
  ghost predicate NullsFail(ops: seq<Op>, rs: seq<nat>, n: nat) {
    forall k :: 0 <= k < n && k < |ops| && k < |rs| && ops[k].Alloc? && rs[k] == 0 ==> ops[k].fail
  }

  /** A block of `n` units is one that ends at `top`. */
  ghost predicate LargeAtTop(fl: seq<nat>, c: Cut, n: nat, top: nat) {
    forall k :: 1 <= k < |fl| && fl[k] in c && c[fl[k]] >= n ==> fl[k] + c[fl[k]] == top
  }

  lemma OnlyAtTop(fl: seq<nat>, c: Cut, d: Cut, live: set<nat>, base: nat, hp: nat, t: nat, n: nat, top: nat)
    requires Listed(fl, d, live, base) && hp in live && hp !in c && d == c[hp := d[hp]] && Slot(fl, hp, t)
             && top == hp + d[hp]
    requires !HasBlock(fl, c, n) && forall a :: a in c ==> a + c[a] <= hp
    ensures LargeAtTop(FreeList(fl, d, hp, t), FreeCut(fl, d, hp, t), n, top)
  {
    forall k: nat | 1 <= k < |fl| ensures fl[k] in c && fl[k] < hp && c[fl[k]] < n {
      assert fl[k] in d && fl[k] !in live;
    }
    assert t == |fl| - 1;
  }

  /** The first request that is too large, on a fresh heap of a process below 2 GB whose
      last page is mapped: malloc hands out 2^27 units at the break, which has not moved. */
  method FirstTooLarge(base: nat, brk: nat) returns (h: Heap, r: nat)
    requires 0 < base < brk < 0x800_0000
    ensures r == brk + 1 && h.brk == brk && h.live == {brk} && brk in h.cut && h.cut[brk] == 0x800_0000
  {
    h := new Heap(base, brk);
    var killed;
    ghost var calls;
    r, killed, calls := h.Malloc(LARGEST + 1, 0, false, true);
  }

  datatype Op = Alloc(nbytes: nat, gap: nat, fail: bool, slack: bool) | Release(j: nat)

  /** A block that a client holds, with the number of bytes it asked for. */
  datatype Block = Block(at: nat, nbytes: nat)

  function Without(held: seq<Block>, j: nat): seq<Block> {
    if j < |held| then held[..j] + held[j + 1..] else held
  }

  /** What a client holds after a call that returned `r`. */
  function Held(held: seq<Block>, op: Op, r: nat): seq<Block> {
    match op
    case Alloc(nbytes, _, _, _) => if r != 0 then held + [Block(r - 1, nbytes)] else held
    case Release(j) => Without(held, j)
  }

  /** What a client holds after its first `k` calls, from what they returned. */
  function Client(ops: seq<Op>, rs: seq<nat>, k: nat): seq<Block>
    requires k <= |ops| && k <= |rs|
  {
    if k == 0 then [] else Held(Client(ops, rs, k - 1), ops[k - 1], rs[k - 1])
  }

  lemma {:induction false} ClientPrefix(ops: seq<Op>, rs: seq<nat>, rs2: seq<nat>, k: nat)
    requires k <= |ops| && k <= |rs| <= |rs2| && rs == rs2[..|rs|]
    ensures Client(ops, rs, k) == Client(ops, rs2, k)
  {
    if k > 0 { ClientPrefix(ops, rs, rs2, k - 1); }
  }

  lemma ClientNext(ops: seq<Op>, rs: seq<nat>, k: nat, r: nat)
    requires k < |ops| && |rs| == k && NullsFail(ops, rs, k)
    ensures Client(ops, rs + [r], k + 1) == Held(Client(ops, rs, k), ops[k], r)
    ensures NullsFail(ops, rs + [r], k)
    ensures (ops[k].Alloc? && r == 0 ==> ops[k].fail) ==> NullsFail(ops, rs + [r], k + 1)
  {
    ClientPrefix(ops, rs, rs + [r], k);
    assert forall i :: 0 <= i < k ==> (rs + [r])[i] == rs[i];
  }

  ghost predicate NoDup(s: seq<Block>) {
    forall i, j :: 0 <= i < j < |s| ==> s[i].at != s[j].at
  }

  ghost predicate IsBlock(held: seq<Block>, k: int, a: nat) {
    0 <= k < |held| && held[k].at == a
  }

  /** Byte `x` is one of those the client may use, or of the header. */
  ghost predicate InBytes(b: Block, x: nat) { 16 * (b.at + 1) <= x < 16 * (b.at + 1) + b.nbytes }

  ghost predicate InHeader(a: nat, x: nat) { 16 * a <= x < 16 * (a + 1) }

  ghost predicate BytesApart(held: seq<Block>) {
    forall j, k, x: nat :: 0 <= j < |held| && 0 <= k < |held| && j != k && InBytes(held[j], x) ==> !InBytes(held[k], x)
  }

  ghost predicate HeadersApart(c: Cut, held: seq<Block>) {
    forall k, a: nat, x: nat {:trigger InBytes(held[k], x), InHeader(a, x)} ::
      0 <= k < |held| && a in c && InBytes(held[k], x) ==> !InHeader(a, x)
  }

  /** The blocks of `held` are in `c` and large enough. */
  ghost predicate Roomy(c: Cut, held: seq<Block>) {
    forall k :: 0 <= k < |held| ==> held[k].at in c && held[k].nbytes + 16 <= 16 * c[held[k].at]
  }

  lemma HeadersOutside(c: Cut, units: set<nat>, held: seq<Block>)
    requires Partition(c, units) && Roomy(c, held)
    ensures HeadersApart(c, held)
  {
    forall k, a: nat, x: nat | 0 <= k < |held| && a in c && InBytes(held[k], x)
      ensures !InHeader(a, x)
    {
      var b := held[k].at;
      assert a < b ==> Apart(c, a, b);
      assert b < a ==> Apart(c, b, a);
    }
  }

  lemma BytesOutside(c: Cut, units: set<nat>, held: seq<Block>)
    requires Partition(c, units) && Roomy(c, held) && NoDup(held)
    ensures BytesApart(held)
  {
    forall j, k, x: nat | 0 <= j < |held| && 0 <= k < |held| && j != k && InBytes(held[j], x)
      ensures !InBytes(held[k], x)
    {
      var a, b := held[j].at, held[k].at;
      assert a != b;
      assert a < b ==> Apart(c, a, b);
      assert b < a ==> Apart(c, b, a);
    }
  }

  lemma HeldMore(held: seq<Block>, live: set<nat>, b: Block)
    requires NoDup(held) && (forall a :: a in live <==> exists k :: IsBlock(held, k, a)) && b.at !in live
    ensures NoDup(held + [b]) && forall a :: a in live + {b.at} <==> exists k :: IsBlock(held + [b], k, a)
  {
    var t := held + [b];
    forall k | 0 <= k < |held| ensures held[k].at in live { assert IsBlock(held, k, held[k].at); }
    forall a | a in live ensures exists k :: IsBlock(t, k, a) {
      var k :| IsBlock(held, k, a);
      assert IsBlock(t, k, a);
    }
    assert IsBlock(t, |held|, b.at);
    forall a, k | IsBlock(t, k, a) ensures a in live + {b.at} {
      if k < |held| { assert IsBlock(held, k, a); }
    }
  }

  lemma HeldLess(held: seq<Block>, live: set<nat>, j: nat)
    requires NoDup(held) && (forall a :: a in live <==> exists k :: IsBlock(held, k, a)) && j < |held|
    ensures var t := held[..j] + held[j + 1..];
            NoDup(t) && forall a :: a in live - {held[j].at} <==> exists k :: IsBlock(t, k, a)
  {
    var t := held[..j] + held[j + 1..];
    assert forall i :: 0 <= i < |t| ==> t[i] == if i < j then held[i] else held[i + 1];
    forall a | a in live - {held[j].at} ensures exists k :: IsBlock(t, k, a) {
      var k :| IsBlock(held, k, a);
      assert IsBlock(t, if k < j then k else k - 1, a);
    }
    forall a, k | IsBlock(t, k, a) ensures a in live - {held[j].at} {
      assert IsBlock(held, if k < j then k else k + 1, a);
    }
  }

  /** Live blocks never overlap, and all of them are memory from sbrk. */
  lemma LiveApart(fl: seq<nat>, c: Cut, live: set<nat>, units: set<nat>, base: nat, top: nat, a: nat, b: nat, u: nat)
    requires HeapOk(fl, c, live, units, base, top) && a in live && b in live && Inside(c, a, u)
    ensures u in units && u < top && (Inside(c, b, u) ==> a == b)
    ensures forall k :: 0 <= k < |fl| && fl[k] in c && Inside(c, fl[k], u) ==> k == 0
  {
    if Inside(c, b, u) {
      OneBlock(c, units, a, b, u);
    }
    OneBlock(c, units, a, a, u);
    forall k | 1 <= k < |fl| && fl[k] in c
      ensures !Inside(c, fl[k], u)
    {
      if Inside(c, fl[k], u) {
        OneBlock(c, units, a, fl[k], u);
      }
    }
  }

  lemma ScanStart(fl: seq<nat>, ptr: map<nat, nat>, size: map<nat, nat>, f: nat, n: nat)
    requires f < |fl| && Circular(fl, ptr)
    ensures fl[f] in ptr && Scanning(fl, size, f, Succ(fl, f), fl[f], fl[f], ptr[fl[f]], n)
  {
    NextNext(fl, ptr, f);
  }

  lemma ScanNext(fl: seq<nat>, ptr: map<nat, nat>, size: map<nat, nat>, f: nat, i: nat, freep: nat, prevp: nat, p: nat,
                 n: nat)
    requires Circular(fl, ptr) && Scanning(fl, size, f, i, freep, prevp, p, n) && p != freep && p in size && size[p] < n
    ensures p in ptr && Scanning(fl, size, f, Succ(fl, i), freep, p, ptr[p], n)
    ensures Ahead(fl, f, Succ(fl, i)) < Ahead(fl, f, i)
  {
    NextNext(fl, ptr, i);
    forall k: nat | k < |fl| && Passed(f, Succ(fl, i), k)
      ensures fl[k] in size && size[fl[k]] < n
    {
      assert k == i || Passed(f, i, k);
    }
  }

  ghost function Succ(fl: seq<nat>, k: nat): nat {
    if k + 1 < |fl| then k + 1 else 0
  }

  /** Steps from place `i` to place `f` around the list. */
  ghost function Ahead(fl: seq<nat>, f: nat, i: nat): int {
    if i <= f then f - i else |fl| - i + f
  }

  /** Place `k` lies after `f` and before `i` around the list. */
  ghost predicate Passed(f: nat, i: nat, k: nat) {
    if i > f then f < k < i else k > f || k < i
  }

  /** The search of malloc: `p` at place `i` comes after `prevp`, and all blocks after
      freep and before `p` are too small. */
  ghost predicate Scanning(fl: seq<nat>, size: map<nat, nat>, f: nat, i: nat, freep: nat, prevp: nat, p: nat, n: nat) {
    && At(fl, f, freep) && At(fl, i, p) && prevp in fl
    && (i >= 1 ==> prevp == fl[i - 1])
    && forall k: nat :: k < |fl| && Passed(f, i, k) ==> fl[k] in size && size[fl[k]] < n
  }

  lemma HeaderHere(fl: seq<nat>, c: Cut, live: set<nat>, base: nat, size: map<nat, nat>, i: nat)
    requires Listed(fl, c, live, base) && Sizes(c, size, base) && i < |fl|
    ensures fl[i] in size && (i == 0 ==> size[fl[i]] == 0)
            && (i >= 1 ==> fl[i] in c && size[fl[i]] == c[fl[i]] && fl[i - 1] >= base)
  {
  }

  /** Back at freep, every block has been found too small. */
  lemma NoneLarge(fl: seq<nat>, c: Cut, live: set<nat>, base: nat, size: map<nat, nat>, f: nat, i: nat, prevp: nat,
                  p: nat, n: nat)
    requires Listed(fl, c, live, base) && Sizes(c, size, base) && Scanning(fl, size, f, i, p, prevp, p, n) && p in size
             && size[p] < n
    ensures !HasBlock(fl, c, n)
  {
    assert i == f;
    forall k: nat | 1 <= k < |fl| && fl[k] in c
      ensures c[fl[k]] < n
    {
      if k != i {
        assert Passed(f, i, k);
      }
    }
  }

  lemma KeptTrans(l: set<nat>, c: Cut, d: Cut, m: set<nat>, e: Cut)
    requires LiveKept(l, c, l, d) && LiveKept(l, d, m, e) && l <= m
    ensures LiveKept(l, c, m, e)
  {
  }

  lemma UnlinkedHeap(fl: seq<nat>, c: Cut, live: set<nat>, units: set<nat>, base: nat, brk: nat, ptr: map<nat, nat>,
                     i: nat)
    requires HeapOk(fl, c, live, units, base, brk) && Circular(fl, ptr) && 1 <= i < |fl|
    ensures HeapOk(RemoveAt(fl, i), c, live + {fl[i]}, units, base, brk)
    ensures fl[i] in ptr && Circular(RemoveAt(fl, i), ptr[fl[i - 1] := ptr[fl[i]]]) && fl[i - 1] in RemoveAt(fl, i)
    ensures fl[i] !in live && base < fl[i] && fl[i] != fl[i - 1]
  {
    UnlinkListed(fl, c, live, base, i);
    UnlinkCoalesced(fl, c, live, base, units, i);
    UnlinkCircular(fl, ptr, i);
    assert RemoveAt(fl, i)[i - 1] == fl[i - 1];
  }

  lemma SplitHeap(fl: seq<nat>, c: Cut, live: set<nat>, units: set<nat>, base: nat, brk: nat, size: map<nat, nat>,
                  i: nat, n: nat)
    requires HeapOk(fl, c, live, units, base, brk) && Sizes(c, size, base) && 1 <= i < |fl| && 0 < n < c[fl[i]]
    ensures var p := fl[i];
            var q := p + c[p] - n;
            && q !in c && q !in live && base < q && p in size && size[p] == c[p]
            && HeapOk(fl, Split(c, p, n), live + {q}, units, base, brk)
            && Sizes(Split(c, p, n), size[p := size[p] - n][q := n], base)
  {
    SplitKeeps(c, units, fl[i], n);
    SplitListed(fl, c, live, base, i, n);
    SplitCoalesced(fl, c, units, i, n);
    assert fl[i] in c && fl[0] < fl[i];
  }

  /** Live blocks stay where they are and keep their sizes. */
  ghost predicate LiveKept(l: set<nat>, c: Cut, m: set<nat>, d: Cut) {
    forall a :: a in l && a in m ==> a in c && a in d && d[a] == c[a]
  }

  lemma AddedSizes(c: Cut, size: map<nat, nat>, base: nat, hp: nat, n: nat)
    requires Sizes(c, size, base) && base != hp
    ensures Sizes(c[hp := n], size[hp := n], base)
  {
  }

  lemma AddedHeap(fl: seq<nat>, c: Cut, live: set<nat>, units: set<nat>, base: nat, brk: nat, hp: nat, n: nat)
    requires HeapOk(fl, c, live, units, base, brk) && base < brk <= hp && n >= 1
    ensures hp !in c && HeapOk(fl, c[hp := n], live + {hp}, units + Span(hp, n), base, hp + n)
  {
    AddKeeps(c, units, hp, n, brk);
    AddListed(fl, c, live, base, hp, n);
  }

  /** Some block of the list has `n` units or more. */
  ghost predicate HasBlock(fl: seq<nat>, c: Cut, n: nat) {
    exists k: nat :: 1 <= k < |fl| && fl[k] in c && c[fl[k]] >= n
  }

  /** A new block above all others, live until free puts it on the list. */
  lemma AddListed(fl: seq<nat>, c: Cut, live: set<nat>, base: nat, hp: nat, n: nat)
    requires Listed(fl, c, live, base) && Coalesced(fl, c) && hp !in c && base < hp
    ensures Listed(fl, c[hp := n], live + {hp}, base) && Coalesced(fl, c[hp := n])
  {
    var d := c[hp := n];
    forall a | IsFree(d, live + {hp}, a)
      ensures a in fl
    {
      assert IsFree(c, live, a);
    }
    forall k: nat
      ensures !Adjacent(fl, d, k)
    {
      assert !Adjacent(fl, c, k);
      if 1 <= k < |fl| - 1 {
        assert fl[k] in c;
      }
    }
  }

  /** The list has a block at least as large as the one just freed. */
  lemma BigEnough(fl: seq<nat>, c: Cut, live: set<nat>, base: nat, bp: nat, t: nat)
    requires Listed(fl, c, live, base) && bp in live && Slot(fl, bp, t)
    ensures var n := FreeList(fl, c, bp, t);
            var d := FreeCut(fl, c, bp, t);
            bp in c && HasBlock(n, d, c[bp])
  {
    var n := FreeList(fl, c, bp, t);
    var d := FreeCut(fl, c, bp, t);
    if t + 1 < |fl| {
      assert fl[t + 1] in c;
    }
    if JoinsPrev(fl, c, bp, t) {
      assert n[t] == fl[t] && d[n[t]] >= c[bp];
    } else {
      assert n[t + 1] == bp && d[n[t + 1]] >= c[bp];
    }
  }

  /** The size fields that free writes. */
  ghost function NewSize(size: map<nat, nat>, fl: seq<nat>, c: Cut, bp: nat, t: nat): map<nat, nat>
    requires Slot(fl, bp, t) && bp in size && fl[t] in size && Next(fl, t) in size
  {
    var s := if JoinsNext(fl, c, bp, t) then size[bp := size[bp] + size[Next(fl, t)]] else size;
    if JoinsPrev(fl, c, bp, t) then s[fl[t] := s[fl[t]] + s[bp]] else s
  }

  /** The tests of free find the adjacent blocks; the base header is next to none. */
  lemma Neighbours(fl: seq<nat>, c: Cut, live: set<nat>, base: nat, size: map<nat, nat>, bp: nat, t: nat)
    requires Listed(fl, c, live, base) && bp in live && Slot(fl, bp, t) && Sizes(c, size, base)
    ensures bp in size && fl[t] in size && Next(fl, t) in size
    ensures bp + size[bp] == Next(fl, t) <==> JoinsNext(fl, c, bp, t)
    ensures fl[t] + size[fl[t]] == bp <==> JoinsPrev(fl, c, bp, t)
  {
    assert bp in c && base < bp;
    if t >= 1 {
      assert fl[t] in c;
    }
    if t + 1 < |fl| {
      assert fl[t + 1] in c;
    }
  }

  lemma FreedSizes(fl: seq<nat>, c: Cut, live: set<nat>, base: nat, size: map<nat, nat>, bp: nat, t: nat)
    requires Listed(fl, c, live, base) && bp in live && Slot(fl, bp, t) && Sizes(c, size, base)
    ensures bp in size && fl[t] in size && Next(fl, t) in size
    ensures Sizes(FreeCut(fl, c, bp, t), NewSize(size, fl, c, bp, t), base)
  {
    Neighbours(fl, c, live, base, size, bp, t);
    assert bp in c && base < bp;
  }

  /** Joining blocks moves no end of a block, and live blocks stay. */
  lemma FreedBounds(fl: seq<nat>, c: Cut, live: set<nat>, base: nat, units: set<nat>, brk: nat, bp: nat, t: nat)
    requires Listed(fl, c, live, base) && bp in live && Slot(fl, bp, t) && Partition(c, units)
    requires forall a :: a in c ==> a + c[a] <= brk
    ensures forall a :: a in FreeCut(fl, c, bp, t) ==> a + FreeCut(fl, c, bp, t)[a] <= brk
    ensures forall a :: a in live && a != bp ==> a in FreeCut(fl, c, bp, t) && FreeCut(fl, c, bp, t)[a] == c[a]
  {
    if t >= 1 {
      assert fl[t] in c && fl[t] !in live;
    }
    if t + 1 < |fl| {
      assert fl[t + 1] in c && fl[t + 1] !in live;
    }
  }

  lemma FreedHeap(fl: seq<nat>, c: Cut, live: set<nat>, units: set<nat>, base: nat, brk: nat, bp: nat, t: nat)
    requires HeapOk(fl, c, live, units, base, brk) && bp in live && Slot(fl, bp, t)
    ensures HeapOk(FreeList(fl, c, bp, t), FreeCut(fl, c, bp, t), live - {bp}, units, base, brk)
    ensures forall a :: a in live && a != bp ==>
              a in c && a in FreeCut(fl, c, bp, t) && FreeCut(fl, c, bp, t)[a] == c[a]
    ensures fl[t] in FreeList(fl, c, bp, t)
  {
    FreedKeeps(fl, c, live, base, units, bp, t);
    FreedBounds(fl, c, live, base, units, brk, bp, t);
    assert FreeList(fl, c, bp, t)[t] == fl[t];
  }

  lemma FreedHeaders(fl: seq<nat>, c: Cut, live: set<nat>, base: nat, ptr: map<nat, nat>, size: map<nat, nat>, bp: nat,
                     t: nat)
    requires Listed(fl, c, live, base) && bp in live && Slot(fl, bp, t) && Circular(fl, ptr) && Sizes(c, size, base)
    ensures bp in size && fl[t] in size && Next(fl, t) in size
    ensures Sizes(FreeCut(fl, c, bp, t), NewSize(size, fl, c, bp, t), base)
    ensures var x := After(fl, t, JoinsNext(fl, c, bp, t));
            Circular(FreeList(fl, c, bp, t), ptr[bp := x][fl[t] := if JoinsPrev(fl, c, bp, t) then x else bp])
  {
    FreedSizes(fl, c, live, base, size, bp, t);
    RelinkedCircular(fl, ptr, bp, t, JoinsNext(fl, c, bp, t), JoinsPrev(fl, c, bp, t));
  }
}
