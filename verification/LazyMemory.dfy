/** One process's memory through sbrk, page faults, copyin and copyout
    (xv6/kernel/sysproc.c, kernel/proc.c, kernel/trap.c, kernel/vm.c): lazily and
    eagerly grown memory are the same memory. */
module LazyMemory {
  import opened Options
  import opened PageTable
  import opened AddressSpace
  import opened Vm
  import opened UserMemory
  import opened ProcMemory

  // ---------------------------------------------------------------------------
  // What a process can observe
  // ---------------------------------------------------------------------------

  /** The size and the pages below it. */
  datatype Memory = Memory(sz: nat, image: seq<UPage>)

  /** The first address that does not belong to the process. */
  const TOP: nat := TRAPFRAME * PGSIZE

  ghost predicate GoodSpace(s: Space) {
    forall v :: v in s ==> |s[v].bytes| == PGSIZE
  }

  /** An unmapped page counts as a page of zeroes that can be written. */
  ghost function MemoryOf(s: Space, sz: nat): Memory {
    Memory(sz, seq(Pages(sz), (v: nat) => if v in s then s[v] else ZeroPage(true, false)))
  }

  ghost predicate ProcOk(a: View, root: Ppn, sz: nat) {
    root in a.spaces && Bounded(a.spaces[root], Pages(sz)) && GoodSpace(a.spaces[root]) && sz <= TOP
  }

  lemma PagesBelowTop(sz: nat)
    requires sz <= TOP
    ensures Pages(sz) <= TRAPFRAME
  {
  }

  /** A page fault that succeeds is not observable. */
  lemma FaultUnobservable(s: Space, sz: nat, v: nat)
    requires v !in s && v < Pages(sz)
    ensures MemoryOf(Put(s, v, ZeroPage(true, false)), sz) == MemoryOf(s, sz)
  {
  }

  // ---------------------------------------------------------------------------
  // The operations on what a process can observe
  // ---------------------------------------------------------------------------

  ghost function Zeroes(n: nat): seq<UPage> {
    seq(n, (v: nat) => ZeroPage(true, false))
  }

  /** The memory after sbrk, whatever its mode. A shrink below zero wraps round to a
      huge size and changes nothing. */
  ghost function AbsSbrk(u: Memory, n: int): Memory {
    if n >= 0 then
      if u.sz + n > TOP then u
      else Memory(u.sz + n, u.image + Zeroes(if Pages(u.sz + n) >= |u.image| then Pages(u.sz + n) - |u.image| else 0))
    else if u.sz + n < 0 then u
    else Memory(u.sz + n, if Pages(u.sz + n) <= |u.image| then u.image[..Pages(u.sz + n)] else u.image)
  }

  /** What sbrk returns: the old size, or -1. */
  function SbrkValue(sz: nat, n: int): (ret: int) {
    if n >= 0 && sz + n > TOP then -1 else sz
  }

  ghost predicate GoodImage(u: Memory) {
    |u.image| == Pages(u.sz) && forall v :: 0 <= v < |u.image| ==> |u.image[v].bytes| == PGSIZE
  }

  /** The page of `va` is there for the kernel to read, or to write, as the user. */
  ghost predicate Allowed(u: Memory, va: nat, write: bool) {
    var v := va / PGSIZE;
    v < |u.image| && u.image[v].u && (write ==> u.image[v].w)
  }

  ghost predicate UserReadable(u: Memory, va: nat) {
    va / PGSIZE < |u.image| && u.image[va / PGSIZE].u && u.image[va / PGSIZE].r
  }

  ghost function ByteAt(u: Memory, va: nat): Byte
    requires GoodImage(u)
  {
    if va / PGSIZE < |u.image| then u.image[va / PGSIZE].bytes[va % PGSIZE] else 0
  }

  /** Byte `x` has the same value and the same rights in both. */
  ghost predicate SameByte(u: Memory, w: Memory, x: nat)
    requires GoodImage(u) && GoodImage(w)
  {
    && ByteAt(w, x) == ByteAt(u, x) && (UserReadable(w, x) <==> UserReadable(u, x))
    && forall write: bool :: Allowed(w, x, write) <==> Allowed(u, x, write)
  }

  /** sbrk in numbers: it moves the size by `n` and returns the old one, but leaves all as it is
      for a size beyond the trapframe, with -1, or below zero. Bytes below both sizes stay, those
      of new pages are zeroes to read and write, every byte below the new size has a page, and
      there is none beyond the last. */
  lemma SbrkMeans(u: Memory, n: int, x: nat)
    requires GoodImage(u) && u.sz <= 0x3f_ffff_e000
    ensures var w := AbsSbrk(u, n);
            && GoodImage(w)
            && (u.sz + n > 0x3f_ffff_e000 && n >= 0 ==> w == u && SbrkValue(u.sz, n) == -1)
            && (u.sz + n < 0 ==> w == u && SbrkValue(u.sz, n) == u.sz)
            && (0 <= u.sz + n <= 0x3f_ffff_e000 ==> w.sz == u.sz + n && SbrkValue(u.sz, n) == u.sz)
            && (x < u.sz && x < w.sz ==> SameByte(u, w, x))
            && (x < w.sz && x / 4096 * 4096 >= u.sz ==>
                  ByteAt(w, x) == 0 && UserReadable(w, x) && Allowed(w, x, true))
            && (x < w.sz ==> x / 4096 < |w.image|) && (x / 4096 * 4096 >= w.sz ==> !Allowed(w, x, false))
  {
    var w := AbsSbrk(u, n);
    if u.sz <= w.sz { PagesMonotone(u.sz, w.sz); } else { PagesMonotone(w.sz, u.sz); }
    PageOfByte(x, u.sz);
    PageOfByte(x, w.sz);
  }

  lemma PageOfByte(x: nat, sz: nat)
    ensures x < sz ==> x / 4096 < Pages(sz)
    ensures x / 4096 * 4096 >= sz <==> x / 4096 >= Pages(sz)
  {
  }

  ghost function AbsLoad(u: Memory, va: nat): Option<Byte>
    requires GoodImage(u)
  {
    if UserReadable(u, va) then Some(ByteAt(u, va)) else None
  }

  function Chunk(va: nat, len: nat): (n: nat)
    ensures n <= len && (len > 0 ==> n > 0)
  {
    if PGSIZE - va % PGSIZE < len then PGSIZE - va % PGSIZE else len
  }

  /** How many bytes a copy moves before the first page that is not allowed. */
  ghost function Reach(u: Memory, va: nat, len: nat, write: bool): (c: nat)
    ensures c <= len
    decreases len
  {
    if len == 0 || !Allowed(u, va, write) then 0
    else var n := Chunk(va, len);
         n + Reach(u, va + n, len - n, write)
  }

  /** `u` after `data` went to `dst` onwards. */
  ghost function WrittenPage(z: UPage, v: nat, dst: nat, data: seq<Byte>): UPage
    requires |z.bytes| == PGSIZE
  {
    WithBytes(z, seq(PGSIZE, (j: nat) requires j < PGSIZE =>
      if dst <= v * PGSIZE + j < dst + |data| then data[v * PGSIZE + j - dst] else z.bytes[j]))
  }

  ghost function Written(u: Memory, dst: nat, data: seq<Byte>): Memory
    requires GoodImage(u)
  {
    u.(image := seq(|u.image|, (v: nat) requires v < |u.image| && |u.image[v].bytes| == PGSIZE =>
      WrittenPage(u.image[v], v, dst, data)))
  }

  ghost function ReadOut(u: Memory, src: nat, len: nat): (r: seq<Byte>)
    requires GoodImage(u)
    ensures |r| == len
  {
    if len == 0 then [] else ReadOut(u, src, len - 1) + [ByteAt(u, src + len - 1)]
  }

  lemma {:induction false} ReadOutAt(u: Memory, src: nat, len: nat, i: nat)
    requires GoodImage(u) && i < len
    ensures ReadOut(u, src, len)[i] == ByteAt(u, src + i)
  {
    if i < len - 1 {
      ReadOutAt(u, src, len - 1, i);
    }
  }

  ghost predicate ReadFrom(u: Memory, src: nat, data: seq<Byte>)
    requires GoodImage(u)
  {
    forall i :: 0 <= i < |data| ==> data[i] == ByteAt(u, src + i)
  }

  lemma ReadFromIs(u: Memory, src: nat, data: seq<Byte>)
    requires GoodImage(u)
    ensures ReadFrom(u, src, data) <==> data == ReadOut(u, src, |data|)
  {
    forall i: nat | i < |data|
      ensures ReadOut(u, src, |data|)[i] == ByteAt(u, src + i)
    {
      ReadOutAt(u, src, |data|, i);
    }
    if ReadFrom(u, src, data) {
      assert data == ReadOut(u, src, |data|);
    }
  }

  ghost predicate AllAllowed(u: Memory, va: nat, c: nat, write: bool) {
    forall x: nat :: va <= x < va + c ==> Allowed(u, x, write)
  }

  lemma AllowedNext(u: Memory, va: nat, len: nat, write: bool, c: nat)
    requires AllAllowed(u, va, c, write) && c < len && Allowed(u, va + c, write)
    ensures AllAllowed(u, va, c + Chunk(va + c, len - c), write)
  {
    forall x: nat | va <= x < va + c + Chunk(va + c, len - c)
      ensures Allowed(u, x, write)
    {
      if x >= va + c {
        SamePage(va + c, len - c, x);
      }
    }
  }

  /** A copy moves as many bytes as are allowed, and stops only where it has to. */
  lemma ReachIs(u: Memory, va: nat, len: nat, write: bool, c: nat)
    requires AllAllowed(u, va, c, write) && c <= len && (c == len || !Allowed(u, va + c, write))
    ensures Reach(u, va, len, write) == c
  {
    var r := Reach(u, va, len, write);
    if c < r {
      ReachAllowed(u, va, len, write, va + c);
    } else if r < c {
      ReachStops(u, va, len, write);
    }
  }

  // What these mean byte by byte.

  lemma WrittenBytes(u: Memory, dst: nat, data: seq<Byte>, va: nat)
    requires GoodImage(u) && va / PGSIZE < |u.image|
    ensures GoodImage(Written(u, dst, data))
    ensures ByteAt(Written(u, dst, data), va) == if dst <= va < dst + |data| then data[va - dst] else ByteAt(u, va)
  {
    assert va / PGSIZE * PGSIZE + va % PGSIZE == va;
  }

  lemma {:induction false} ReachAllowed(u: Memory, va: nat, len: nat, write: bool, x: nat)
    requires va <= x < va + Reach(u, va, len, write)
    ensures Allowed(u, x, write)
    decreases len
  {
    var n := Chunk(va, len);
    if x >= va + n {
      ReachAllowed(u, va + n, len - n, write, x);
    } else {
      SamePage(va, len, x);
    }
  }

  lemma SamePage(va: nat, len: nat, x: nat)
    requires va <= x < va + Chunk(va, len)
    ensures x / PGSIZE == va / PGSIZE && x % PGSIZE == va % PGSIZE + (x - va)
  {
    assert va == va / PGSIZE * PGSIZE + va % PGSIZE;
    assert x == va / PGSIZE * PGSIZE + (va % PGSIZE + (x - va));
  }

  /** A copy stops short exactly at an address that is not allowed. */
  lemma {:induction false} ReachStops(u: Memory, va: nat, len: nat, write: bool)
    requires Reach(u, va, len, write) < len
    ensures !Allowed(u, va + Reach(u, va, len, write), write)
    decreases len
  {
    if Allowed(u, va, write) {
      var n := Chunk(va, len);
      ReachStops(u, va + n, len - n, write);
    }
  }

  // ---------------------------------------------------------------------------
  // User accesses
  // ---------------------------------------------------------------------------

  /** What a user load gives when memory does not run out. The fault handler goes
      by the faulting address and not by its page, so that the rest of a last page
      which is not mapped yet is out of bounds. */
  ghost function LoadOutcome(s: Space, sz: nat, va: nat): Option<Byte>
    requires GoodSpace(s)
  {
    if va >= sz && va / PGSIZE !in s then None else AbsLoad(MemoryOf(s, sz), va)
  }

  ghost predicate StoreOutcome(s: Space, sz: nat, va: nat) {
    (va < sz || va / PGSIZE in s) && Allowed(MemoryOf(s, sz), va, true)
  }

  /** `va` is beyond the size but on the last page. */
  ghost predicate Slack(sz: nat, va: nat) {
    sz <= va && va / PGSIZE < Pages(sz)
  }

  /** Accesses depend on what is mapped exactly in the slack of an unmapped page. */
  lemma AccessIsObservable(s: Space, sz: nat, va: nat)
    requires GoodSpace(s)
    ensures LoadOutcome(s, sz, va) == AbsLoad(MemoryOf(s, sz), va) <==> !(Slack(sz, va) && va / PGSIZE !in s)
    ensures StoreOutcome(s, sz, va) == Allowed(MemoryOf(s, sz), va, true) <==> !(Slack(sz, va) && va / PGSIZE !in s)
  {
  }

  /** The same process, one page grown lazily and eagerly: address 1 is readable in
      one and not in the other when the size is one byte. */
  lemma SlackDiffers()
    ensures var eager: Space := map[0 := ZeroPage(true, false)];
            && MemoryOf(eager, 1) == MemoryOf(map[], 1)
            && LoadOutcome(eager, 1, 1) == Some(0) && LoadOutcome(map[], 1, 1) == None
  {
    FaultUnobservable(map[], 1, 0);
    assert Put(map[], 0, ZeroPage(true, false)) == map[0 := ZeroPage(true, false)];
  }

  // ---------------------------------------------------------------------------
  // sbrk
  // ---------------------------------------------------------------------------

  lemma GrownIs(s: Space, sz: nat, n: nat)
    requires Bounded(s, Pages(sz))
    ensures Pages(sz) <= Pages(sz + n)
    ensures MemoryOf(WithRun(s, Pages(sz), Pages(sz + n), ZeroPage(true, false)), sz + n) == AbsSbrk(MemoryOf(s, sz), n)
            || sz + n > TOP
    ensures MemoryOf(s, sz + n) == AbsSbrk(MemoryOf(s, sz), n) || sz + n > TOP
    ensures Bounded(WithRun(s, Pages(sz), Pages(sz + n), ZeroPage(true, false)), Pages(sz + n))
    ensures GoodSpace(s) ==> GoodSpace(WithRun(s, Pages(sz), Pages(sz + n), ZeroPage(true, false)))
  {
    PagesMonotone(sz, sz + n);
    WithRunAt(s, Pages(sz), Pages(sz + n), ZeroPage(true, false));
  }

  lemma ShrunkIs(s: Space, sz: nat, newsz: nat)
    requires Bounded(s, Pages(sz)) && newsz < sz
    ensures Pages(newsz) <= Pages(sz)
    ensures MemoryOf(Without(s, Pages(newsz), Pages(sz)), newsz) == AbsSbrk(MemoryOf(s, sz), newsz - sz)
    ensures Bounded(Without(s, Pages(newsz), Pages(sz)), Pages(newsz))
    ensures GoodSpace(s) ==> GoodSpace(Without(s, Pages(newsz), Pages(sz)))
  {
    PagesMonotone(newsz, sz);
  }

  lemma NothingAbove(s: Space, lo: nat, hi: nat)
    requires Bounded(s, lo)
    ensures Nothing(s, lo, hi) && Without(s, lo, hi) == s
  {
  }

  // ---------------------------------------------------------------------------
  // Copies
  // ---------------------------------------------------------------------------

  /** The new contents of the page of `va` when a chunk goes there. */
  function Splice(b: seq<Byte>, off: nat, part: seq<Byte>): (r: seq<Byte>)
    requires |b| == PGSIZE && off + |part| <= PGSIZE
    ensures |r| == PGSIZE
  {
    b[..off] + part + b[off + |part|..]
  }

  lemma SplicedPage(z: UPage, v: nat, dst: nat, data: seq<Byte>, c: nat, n: nat)
    requires |z.bytes| == PGSIZE && c + n <= |data| && n == Chunk(dst + c, |data| - c) && (dst + c) / PGSIZE == v
    ensures var off := (dst + c) % PGSIZE;
            && off + n <= PGSIZE
            && WithBytes(WrittenPage(z, v, dst, data[..c]), Splice(WrittenPage(z, v, dst, data[..c]).bytes, off,
                data[c..c + n]))
               == WrittenPage(z, v, dst, data[..c + n])
  {
    var off := (dst + c) % PGSIZE;
    assert dst + c == v * PGSIZE + off;
    var b := WrittenPage(z, v, dst, data[..c]).bytes;
    var r := WrittenPage(z, v, dst, data[..c + n]).bytes;
    var t := Splice(b, off, data[c..c + n]);
    forall j: nat | j < PGSIZE
      ensures t[j] == r[j]
    {
    }
    assert t == r;
  }

  lemma OtherPage(z: UPage, v: nat, dst: nat, data: seq<Byte>, c: nat, n: nat)
    requires |z.bytes| == PGSIZE && c + n <= |data| && n == Chunk(dst + c, |data| - c) && (dst + c) / PGSIZE != v
    ensures WrittenPage(z, v, dst, data[..c]) == WrittenPage(z, v, dst, data[..c + n])
  {
    var b := WrittenPage(z, v, dst, data[..c]).bytes;
    var r := WrittenPage(z, v, dst, data[..c + n]).bytes;
    forall j: nat | j < PGSIZE
      ensures b[j] == r[j]
    {
    }
    assert b == r;
  }

  /** One chunk of copyout, as observed. */
  lemma WrittenNext(u: Memory, dst: nat, data: seq<Byte>, c: nat, n: nat, w: Memory)
    requires GoodImage(u) && c + n <= |data| && n == Chunk(dst + c, |data| - c)
    requires var v := (dst + c) / PGSIZE;
             var off := (dst + c) % PGSIZE;
             && v < |u.image| && off + n <= PGSIZE && GoodImage(Written(u, dst, data[..c]))
             && var m := Written(u, dst, data[..c]);
                w == m.(image := m.image[v := WithBytes(m.image[v], Splice(m.image[v].bytes, off, data[c..c + n]))])
    ensures w == Written(u, dst, data[..c + n])
  {
    var v := (dst + c) / PGSIZE;
    SplicedPage(u.image[v], v, dst, data, c, n);
    var r := Written(u, dst, data[..c + n]);
    forall x | 0 <= x < |u.image|
      ensures w.image[x] == r.image[x]
    {
      if x != v {
        OtherPage(u.image[x], x, dst, data, c, n);
      }
    }
    assert w.image == r.image;
  }

  lemma WrittenNone(u: Memory, dst: nat)
    requires GoodImage(u)
    ensures Written(u, dst, []) == u
  {
    var w := Written(u, dst, []);
    forall x | 0 <= x < |u.image|
      ensures w.image[x] == u.image[x]
    {
      assert w.image[x].bytes == u.image[x].bytes;
    }
    assert w.image == u.image;
  }

  lemma WrittenAllowed(u: Memory, dst: nat, data: seq<Byte>, va: nat, write: bool)
    requires GoodImage(u)
    ensures GoodImage(Written(u, dst, data)) && (Allowed(Written(u, dst, data), va, write) <==> Allowed(u, va, write))
  {
  }

  /** Only address space `root` may differ. */
  ghost predicate OnlySpace(a: View, b: View, root: Ppn) {
    root in b.spaces && b == WithSpace(a, root, b.spaces[root])
  }

  /** How many pages the `len` bytes at `va` are in. */
  function PagesOf(va: nat, len: nat): (n: nat) {
    if len == 0 then 0 else (va + len - 1) / PGSIZE - va / PGSIZE + 1
  }

  /** `c` of `len` bytes at `va` have been copied, in `n` chunks, one for each page. */
  ghost predicate PagesDone(va: nat, len: nat, c: nat, n: nat) {
    && c <= len && n <= PagesOf(va, len)
    && (c < len ==> n == (va + c) / PGSIZE - va / PGSIZE && (c > 0 ==> (va + c) % PGSIZE == 0))
  }

  lemma PagesNext(va: nat, len: nat, c: nat, n: nat)
    requires PagesDone(va, len, c, n) && c < len
    ensures n < PagesOf(va, len) && PagesDone(va, len, c + Chunk(va + c, len - c), n + 1)
  {
  }

  class Process {
    const k: Machine
    const root: Ppn
    var sz: nat
    ghost var view: View
    ghost var mem: Memory

    constructor (k: Machine, root: Ppn, sz: nat, ghost view: View)
      requires Rep(k.M(), view) && ProcOk(view, root, sz)
      ensures this.k == k && this.root == root && this.sz == sz && this.view == view && Valid()
      ensures mem == MemoryOf(view.spaces[root], sz)
    {
      this.k := k;
      this.root := root;
      this.sz := sz;
      this.view := view;
      this.mem := MemoryOf(view.spaces[root], sz);
    }

    /** `mem` is what this process can observe. */
    ghost predicate Valid()
      reads this, k
    {
      Rep(k.M(), view) && ProcOk(view, root, sz) && mem == MemoryOf(view.spaces[root], sz)
    }

    /** growproc for n > 0: uvmalloc. */
    method GrowEager(n: nat) returns (ret: int, ghost oom: bool)
      requires Valid() && sz + n <= TOP && n > 0
      modifies this, k
      ensures Valid() && OnlySpace(old(view), view, root)
      ensures !oom ==> mem == AbsSbrk(old(mem), n) && ret == SbrkValue(old(sz), n)
      ensures !oom ==> |k.free| + 3 * (Pages(old(sz) + n) - Pages(old(sz))) >= |old(k.free)|
      ensures oom ==> ret == -1 && mem == old(mem) && |old(k.free)| < 3 * (Pages(sz + n) - Pages(sz))
    {
      ghost var s := view.spaces[root];
      GrownIs(s, sz, n);
      PagesBelowTop(sz + n);
      NothingAbove(s, Pages(sz), Pages(sz + n));
      SpaceTwice(view, root, s, s);
      var r := Uvmalloc(k, root, sz, sz + n, true, false, view);
      if r.None? {
        return -1, true;
      }
      view := Grown(view, root, Pages(sz), Pages(sz + n), ZeroPage(true, false));
      mem := AbsSbrk(mem, n);
      ret := sz;
      sz := r.value;
      oom := false;
    }

    /** growproc for n < 0: uvmdealloc, in 64-bit arithmetic. */
    method Shrink(n: int) returns (ret: int)
      requires Valid() && -0x8000_0000 <= n < 0
      modifies this, k
      ensures Valid() && OnlySpace(old(view), view, root)
      ensures mem == AbsSbrk(old(mem), n) && ret == SbrkValue(old(sz), n) && |k.free| >= |old(k.free)|
    {
      ghost var s := view.spaces[root];
      PagesBelowTop(sz);
      var newsz := if sz + n < 0 then sz + n + 0x1_0000_0000_0000_0000 else sz + n;
      if newsz < sz {
        ShrunkIs(s, sz, newsz);
      } else {
        NothingAbove(s, Pages(sz), Pages(sz));
      }
      var r := Uvmdealloc(k, root, sz, newsz, view);
      view := WithSpace(view, root, Without(s, Pages(r), Pages(sz)));
      mem := AbsSbrk(mem, n);
      ret := sz;
      sz := r;
    }

    /** sys_sbrk. */
    method Sbrk(n: int, lazy: bool) returns (ret: int, ghost oom: bool)
      requires Valid() && -0x8000_0000 <= n < 0x8000_0000
      modifies this, k
      ensures Valid() && OnlySpace(old(view), view, root)
      ensures !oom ==> mem == AbsSbrk(old(mem), n) && ret == SbrkValue(old(sz), n)
      ensures oom ==> ret == -1 && mem == old(mem) && !lazy && n > 0
      ensures oom ==> |old(k.free)| < 3 * (Pages(old(sz) + n) - Pages(old(sz)))
      ensures !oom ==> |k.free| + (if n > 0 then 3 * (Pages(old(sz) + n) - Pages(old(sz))) else 0) >= |old(k.free)|
    {
      SpaceTwice(view, root, view.spaces[root], view.spaces[root]);
      if n < 0 {
        ret := Shrink(n);
        return ret, false;
      }
      GrownIs(view.spaces[root], sz, n);
      PagesMonotone(sz, sz + n);
      if sz + n > TOP {
        return -1, false;
      }
      if !lazy && n > 0 {
        ret, oom := GrowEager(n);
        return;
      }
      mem := AbsSbrk(mem, n);
      ret := sz;
      sz := sz + n;
      oom := false;
    }

    lemma Good()
      requires Valid()
      ensures GoodImage(mem) && Pages(sz) <= TRAPFRAME
      ensures OnlySpace(view, view, root)
    {
      PagesBelowTop(sz);
      SpaceTwice(view, root, view.spaces[root], view.spaces[root]);
    }

    /** vmfault on behalf of this process. */
    method Fault(va: nat) returns (ok: bool, ghost oom: bool)
      requires Valid()
      modifies this, k
      ensures Valid() && OnlySpace(old(view), view, root) && mem == old(mem)
      ensures ok ==> va / PGSIZE in view.spaces[root] && view.spaces[root][va / PGSIZE] == ZeroPage(true, false)
      ensures !oom ==> ok == (va < sz && va / PGSIZE !in old(view).spaces[root])
      ensures oom ==> !ok && |old(k.free)| <= 2 && view == old(view)
      ensures !oom ==> |k.free| + 3 >= |old(k.free)|
    {
      Good();
      ok := Vmfault(k, root, sz, va, view);
      oom := !ok && va < sz && va / PGSIZE !in view.spaces[root];
      if ok {
        BelowPages(va, sz);
        FaultUnobservable(view.spaces[root], sz, va / PGSIZE);
        view := WithSpace(view, root, Put(view.spaces[root], va / PGSIZE, ZeroPage(true, false)));
      }
    }

    /** The page that copyin and copyout work on: walkaddr, then vmfault. */
    method Fetch(va: nat) returns (z: Option<UPage>, ghost oom: bool)
      requires Valid()
      modifies this, k
      ensures Valid() && OnlySpace(old(view), view, root) && mem == old(mem)
      ensures z.Some? ==> va / PGSIZE in view.spaces[root] && view.spaces[root][va / PGSIZE] == z.value && z.value.u
      ensures !oom ==> (z.Some? <==> Allowed(mem, va, false))
      ensures oom ==> z.None? && |old(k.free)| <= 2
      ensures !oom ==> |k.free| + 3 >= |old(k.free)|
    {
      Good();
      var v := va / PGSIZE;
      if v >= TRAPFRAME {
        return None, false;
      }
      z := Mapped(k, root, v, view);
      if z.Some? && z.value.u {
        return z, false;
      }
      StartOf(v, sz);
      var ok;
      ok, oom := Fault(v * PGSIZE);
      z := if ok then Some(ZeroPage(true, false)) else None;
    }

    /** memmove into a page that is mapped. */
    method StoreAt(v: nat, z: UPage, off: nat, part: seq<Byte>)
      requires Valid() && v in view.spaces[root] && view.spaces[root][v] == z && off + |part| <= PGSIZE
               && |z.bytes| == PGSIZE
      modifies this, k
      ensures Valid() && OnlySpace(old(view), view, root)
      ensures v < |old(mem).image|
      ensures mem == old(mem).(image := old(mem).image[v := WithBytes(old(mem).image[v], Splice(z.bytes, off, part))])
      ensures k.free == old(k.free)
    {
      Good();
      Poke(k, root, v, Splice(z.bytes, off, part), view);
      view := WithSpace(view, root, Put(view.spaces[root], v, WithBytes(z, Splice(z.bytes, off, part))));
      mem := mem.(image := mem.image[v := WithBytes(mem.image[v], Splice(z.bytes, off, part))]);
    }

    /** One round of the loop of copyout. */
    method CopyoutChunk(dst: nat, data: seq<Byte>, c: nat, ghost u: Memory) returns (ok: bool, ghost oom: bool)
      requires Valid() && GoodImage(u) && c < |data| && mem == Written(u, dst, data[..c])
      modifies this, k
      ensures Valid() && OnlySpace(old(view), view, root)
      ensures !oom ==> (ok <==> Allowed(u, dst + c, true))
      ensures ok ==> mem == Written(u, dst, data[..c + Chunk(dst + c, |data| - c)])
      ensures !ok ==> mem == old(mem)
      ensures oom ==> !ok && |old(k.free)| <= 2
      ensures !oom ==> |k.free| + 3 >= |old(k.free)|
    {
      Good();
      var va := dst + c;
      var n := Chunk(va, |data| - c);
      WrittenAllowed(u, dst, data[..c], va, true);
      WrittenAllowed(u, dst, data[..c], va, false);
      var z;
      z, oom := Fetch(va);
      if z.None? || !z.value.w {
        return false, oom;
      }
      Good();
      ghost var a := view;
      StoreAt(va / PGSIZE, z.value, va % PGSIZE, data[c..c + n]);
      WrittenNext(u, dst, data, c, n, mem);
      ok := true;
    }

    /** copyout: the bytes up to the first page that is not a writable user page. */
    method Copyout(dst: nat, data: seq<Byte>) returns (ok: bool, ghost oom: bool)
      requires Valid()
      modifies this, k
      ensures Valid() && OnlySpace(old(view), view, root) && GoodImage(old(mem))
      ensures !oom ==> ok == (Reach(old(mem), dst, |data|, true) == |data|)
      ensures !oom ==> mem == Written(old(mem), dst, data[..Reach(old(mem), dst, |data|, true)])
      ensures oom ==> !ok && |old(k.free)| < 3 * PagesOf(dst, |data|)
      ensures !oom ==> |k.free| + 3 * PagesOf(dst, |data|) >= |old(k.free)|
    {
      Good();
      ghost var u := mem;
      WrittenNone(u, dst);
      var c := 0;
      ghost var n: nat := 0;
      oom := false;
      while c < |data|
        invariant c <= |data| && Valid() && OnlySpace(old(view), view, root) && !oom
        invariant mem == Written(u, dst, data[..c])
        invariant AllAllowed(u, dst, c, true)
        invariant PagesDone(dst, |data|, c, n) && |k.free| + 3 * n >= |old(k.free)|
      {
        ghost var a := view;
        PagesNext(dst, |data|, c, n);
        ok, oom := CopyoutChunk(dst, data, c, u);
        OnlyTrans(old(view), a, view, root);
        if !ok {
          if !oom {
            ReachIs(u, dst, |data|, true, c);
          }
          return;
        }
        AllowedNext(u, dst, |data|, true, c);
        c := c + Chunk(dst + c, |data| - c);
        n := n + 1;
      }
      ReachIs(u, dst, |data|, true, c);
      ok := true;
    }

    /** One round of the loop of copyin. */
    method CopyinChunk(va: nat, len: nat) returns (part: seq<Byte>, ok: bool, ghost oom: bool)
      requires Valid() && 0 < len
      modifies this, k
      ensures Valid() && OnlySpace(old(view), view, root) && mem == old(mem) && GoodImage(mem)
      ensures !oom ==> (ok <==> Allowed(mem, va, false))
      ensures ok ==> |part| == Chunk(va, len) && Allowed(mem, va, false) && ReadFrom(mem, va, part)
      ensures oom ==> !ok && |old(k.free)| <= 2
      ensures !oom ==> |k.free| + 3 >= |old(k.free)|
    {
      Good();
      var n := Chunk(va, len);
      var z;
      z, oom := Fetch(va);
      Good();
      if z.None? {
        return [], false, oom;
      }
      ReadNext(mem, va, n, len);
      part := z.value.bytes[va % PGSIZE..va % PGSIZE + n];
      ok := true;
    }

    /** One round of copyin's loop: a page more, or the end. */
    method CopyinTurn(src: nat, len: nat, data: seq<Byte>, ghost n: nat, ghost v0: View)
      returns (more: seq<Byte>, ok: bool, ghost oom: bool)
      requires Valid() && CopiedIn(mem, src, len, data, n) && |data| < len && OnlySpace(v0, view, root)
      modifies this, k
      ensures Valid() && OnlySpace(v0, view, root) && mem == old(mem)
      ensures ok ==> !oom && CopiedIn(mem, src, len, more, n + 1) && |data| < |more|
      ensures !ok ==> more == data
      ensures !ok && !oom ==> Reach(mem, src, len, false) == |data|
      ensures oom ==> !ok && |old(k.free)| <= 2
      ensures !oom ==> |k.free| + 3 >= |old(k.free)|
    {
      ghost var a := view;
      var part;
      part, ok, oom := CopyinChunk(src + |data|, len - |data|);
      OnlyTrans(v0, a, view, root);
      more := data;
      if ok {
        CopiedInMore(mem, src, len, data, n, part);
        more := data + part;
      } else if !oom {
        ReachIs(mem, src, len, false, |data|);
      }
    }

    /** copyin: the bytes up to the first page that is no user page. */
    method Copyin(src: nat, len: nat) returns (data: seq<Byte>, ok: bool, ghost oom: bool)
      requires Valid()
      modifies this, k
      ensures Valid() && OnlySpace(old(view), view, root) && GoodImage(old(mem)) && mem == old(mem)
      ensures !oom ==> |data| == Reach(old(mem), src, len, false) && ok == (|data| == len)
      ensures ReadFrom(old(mem), src, data)
      ensures oom ==> !ok && |old(k.free)| < 3 * PagesOf(src, len)
      ensures !oom ==> |k.free| + 3 * PagesOf(src, len) >= |old(k.free)|
    {
      Good();
      data := [];
      ghost var n: nat := 0;
      oom := false;
      while |data| < len
        invariant Valid() && OnlySpace(old(view), view, root) && !oom && mem == old(mem)
        invariant CopiedIn(mem, src, len, data, n) && |k.free| + 3 * n >= |old(k.free)|
      {
        PagesNext(src, len, |data|, n);
        data, ok, oom := CopyinTurn(src, len, data, n, old(view));
        if !ok {
          return;
        }
        n := n + 1;
      }
      ReachIs(mem, src, len, false, |data|);
      ok := true;
    }

    /** A user load: the page-fault path of usertrap, then the access again. */
    method Load(va: nat) returns (b: Option<Byte>, ghost oom: bool)
      requires Valid()
      modifies this, k
      ensures Valid() && OnlySpace(old(view), view, root) && mem == old(mem) && GoodImage(mem)
      ensures !oom ==> b == LoadOutcome(old(view).spaces[root], sz, va)
      ensures oom ==> b.None? && |old(k.free)| <= 2
      ensures !oom ==> |k.free| + 3 >= |old(k.free)|
    {
      Good();
      var v := va / PGSIZE;
      if v >= TRAPFRAME {
        return None, false;
      }
      var z := Mapped(k, root, v, view);
      if z.Some? && z.value.u && z.value.r {
        return Some(z.value.bytes[va % PGSIZE]), false;
      }
      if va < sz {
        BelowPages(va, sz);
      }
      var ok;
      ok, oom := Fault(va);
      b := if ok then Some(0) else None;
    }

    /** A user store. */
    method Store(va: nat, x: Byte) returns (ok: bool, ghost oom: bool)
      requires Valid()
      modifies this, k
      ensures Valid() && OnlySpace(old(view), view, root) && GoodImage(old(mem))
      ensures !oom ==> ok == StoreOutcome(old(view).spaces[root], sz, va)
      ensures mem == if ok then Written(old(mem), va, [x]) else old(mem)
      ensures oom ==> !ok && |old(k.free)| <= 2
      ensures !oom ==> |k.free| + 3 >= |old(k.free)|
    {
      Good();
      ghost var u := mem;
      var v := va / PGSIZE;
      if v >= TRAPFRAME {
        return false, false;
      }
      var z := Mapped(k, root, v, view);
      if !(z.Some? && z.value.u && z.value.w) {
        if va < sz {
          BelowPages(va, sz);
        }
        ok, oom := Fault(va);
        if !ok {
          return;
        }
        z := Some(ZeroPage(true, false));
      }
      StoreByte(va, z.value, x);
      return true, false;
    }

    method StoreByte(va: nat, z: UPage, x: Byte)
      requires Valid() && va / PGSIZE in view.spaces[root] && view.spaces[root][va / PGSIZE] == z
      modifies this, k
      ensures Valid() && OnlySpace(old(view), view, root) && GoodImage(old(mem))
      ensures mem == Written(old(mem), va, [x]) && k.free == old(k.free)
    {
      Good();
      ghost var u := mem;
      WrittenNone(u, va);
      assert [x][..0] == [] && [x][0..1] == [x] && [x][..1] == [x];
      StoreAt(va / PGSIZE, z, va % PGSIZE, [x]);
      WrittenNext(u, va, [x], 0, 1, mem);
    }
  }

  lemma OnlyTrans(a: View, b: View, c: View, root: Ppn)
    requires OnlySpace(a, b, root) && OnlySpace(b, c, root)
    ensures OnlySpace(a, c, root)
  {
    SpaceTwice(a, root, b.spaces[root], c.spaces[root]);
  }

  /** One chunk of copyin. */
  lemma ReadNext(u: Memory, va: nat, n: nat, len: nat)
    requires GoodImage(u) && 0 < len && n == Chunk(va, len) && va / PGSIZE < |u.image|
    ensures va % PGSIZE + n <= PGSIZE
    ensures ReadFrom(u, va, u.image[va / PGSIZE].bytes[va % PGSIZE..va % PGSIZE + n])
  {
    var part := u.image[va / PGSIZE].bytes[va % PGSIZE..va % PGSIZE + n];
    forall i | 0 <= i < n
      ensures part[i] == ByteAt(u, va + i)
    {
      SamePage(va, len, va + i);
    }
  }

  lemma ReadFromBoth(u: Memory, src: nat, data: seq<Byte>, part: seq<Byte>)
    requires GoodImage(u) && ReadFrom(u, src, data) && ReadFrom(u, src + |data|, part)
    ensures ReadFrom(u, src, data + part)
  {
    forall i | 0 <= i < |data + part|
      ensures (data + part)[i] == ByteAt(u, src + i)
    {
      if i >= |data| {
        assert (data + part)[i] == part[i - |data|];
      }
    }
  }

  /** Where copyin stands after `n` pages. */
  ghost predicate CopiedIn(u: Memory, src: nat, len: nat, data: seq<Byte>, n: nat) {
    && GoodImage(u) && ReadFrom(u, src, data) && AllAllowed(u, src, |data|, false)
    && PagesDone(src, len, |data|, n)
  }

  lemma CopiedInMore(u: Memory, src: nat, len: nat, data: seq<Byte>, n: nat, part: seq<Byte>)
    requires CopiedIn(u, src, len, data, n) && |data| < len && Allowed(u, src + |data|, false)
    requires |part| == Chunk(src + |data|, len - |data|) && ReadFrom(u, src + |data|, part)
    ensures CopiedIn(u, src, len, data + part, n + 1)
  {
    PagesNext(src, len, |data|, n);
    AllowedNext(u, src, len, false, |data|);
    ReadFromBoth(u, src, data, part);
  }

  lemma StartOf(v: nat, sz: nat)
    ensures v * PGSIZE < sz <==> v < Pages(sz)
    ensures v * PGSIZE / PGSIZE == v
  {
  }
}
