/** Files as byte arrays (xv6/kernel/fs.c, kernel/file.c): readi and writei on any
    offset, and the number of blocks that a transaction touches. */
module FsIo {
  import opened FsBlocks
  import opened FsFiles
  import opened FsCode

  // ---------------------------------------------------------------------------
  // The bytes of a file
  // ---------------------------------------------------------------------------

  ghost predicate GoodBlocks(bl: Blocks) {
    forall k :: k in bl ==> |bl[k]| == BSIZE && k < MAXFILE
  }

  /** Byte `x` of a file; a block that is not there reads as zeroes. */
  ghost function ByteOf(bl: Blocks, x: nat): Byte
    requires GoodBlocks(bl)
  {
    if x / BSIZE in bl then bl[x / BSIZE][x % BSIZE] else 0
  }

  /** The file as a byte array. */
  ghost function Contents(f: File): (r: seq<Byte>)
    requires GoodBlocks(f.blocks)
    ensures |r| == f.size
  {
    Slice(f.blocks, 0, f.size)
  }

  ghost function Slice(bl: Blocks, off: nat, n: nat): (r: seq<Byte>)
    requires GoodBlocks(bl)
    ensures |r| == n
  {
    if n == 0 then [] else Slice(bl, off, n - 1) + [ByteOf(bl, off + n - 1)]
  }

  lemma {:induction false} SliceAt(bl: Blocks, off: nat, n: nat, j: nat)
    requires GoodBlocks(bl) && j < n
    ensures Slice(bl, off, n)[j] == ByteOf(bl, off + j)
  {
    if j < n - 1 {
      SliceAt(bl, off, n - 1, j);
    }
  }

  /** `c` has the bytes of `bl` except for `data` at `off`. */
  ghost predicate Overwritten(bl: Blocks, c: Blocks, off: nat, data: seq<Byte>) {
    && GoodBlocks(bl) && GoodBlocks(c)
    && forall x: nat {:trigger ByteOf(c, x)} :: ByteOf(c, x) == if off <= x < off + |data| then data[x - off]
        else ByteOf(bl, x)
  }

  lemma OverwrittenNot(bl: Blocks, off: nat)
    requires GoodBlocks(bl)
    ensures Overwritten(bl, bl, off, [])
  {
  }

  lemma OverwrittenMore(bl: Blocks, c: Blocks, d: Blocks, off: nat, data: seq<Byte>, part: seq<Byte>)
    requires Overwritten(bl, c, off, data) && Overwritten(c, d, off + |data|, part)
    ensures Overwritten(bl, d, off, data + part)
  {
    forall x: nat
      ensures ByteOf(d, x) == if off <= x < off + |data + part| then (data + part)[x - off] else ByteOf(bl, x)
    {
      assert ByteOf(d, x) == if off + |data| <= x < off + |data| + |part| then part[x - off - |data|] else ByteOf(c, x);
    }
  }

  /** An allocated block of zeroes reads like the hole it fills. */
  lemma ZeroFillsHole(bl: Blocks, k: nat)
    requires GoodBlocks(bl) && k !in bl && k < MAXFILE
    ensures Overwritten(bl, Put(bl, k, Zero()), 0, [])
  {
  }

  function Splice(b: Blk, o: nat, part: seq<Byte>): (r: Blk)
    requires |b| == BSIZE && o + |part| <= BSIZE
    ensures |r| == BSIZE
  {
    b[..o] + part + b[o + |part|..]
  }

  lemma PosIs(x: nat)
    ensures x == x / BSIZE * BSIZE + x % BSIZE
  {
  }

  lemma SplicedBytes(bl: Blocks, pos: nat, part: seq<Byte>)
    requires GoodBlocks(bl) && pos / BSIZE in bl && pos % BSIZE + |part| <= BSIZE
    ensures Overwritten(bl, Put(bl, pos / BSIZE, Splice(bl[pos / BSIZE], pos % BSIZE, part)), pos, part)
  {
    var k := pos / BSIZE;
    var c := Put(bl, k, Splice(bl[k], pos % BSIZE, part));
    PosIs(pos);
    forall x: nat
      ensures ByteOf(c, x) == if pos <= x < pos + |part| then part[x - pos] else ByteOf(bl, x)
    {
      PosIs(x);
      if pos <= x < pos + |part| {
        InBlock(pos, x, |part|);
      }
    }
  }

  lemma InBlock(pos: nat, x: nat, n: nat)
    requires pos <= x < pos + n && pos % BSIZE + n <= BSIZE
    ensures x / BSIZE == pos / BSIZE && x % BSIZE == pos % BSIZE + (x - pos)
  {
    PosIs(pos);
    assert x == pos / BSIZE * BSIZE + (pos % BSIZE + (x - pos));
  }

  lemma ViewGood(s: Fs, v: View, i: nat)
    requires Rep(s, v) && i < |v.files|
    ensures GoodBlocks(v.files[i].blocks)
  {
    assert FileRep(s, i, v.files[i]);
    forall k | k in v.files[i].blocks
      ensures |v.files[i].blocks[k]| == BSIZE && k < MAXFILE
    {
      assert BlockAt(s, i, k) != 0;
    }
  }

  // ---------------------------------------------------------------------------
  // writei
  // ---------------------------------------------------------------------------

  /** Only the blocks of file `i`, and whether it has an indirect block, may differ. */
  ghost predicate OnlyBlocks(v: View, w: View, i: nat) {
    && i < |v.files| == |w.files| && w.hands == v.hands && w.free <= v.free
    && w.files == v.files[i := v.files[i].(ind := w.files[i].ind, blocks := w.files[i].blocks)]
  }

  lemma OnlyTrans(a: View, b: View, c: View, i: nat)
    requires OnlyBlocks(a, b, i) && OnlyBlocks(b, c, i)
    ensures OnlyBlocks(a, c, i)
  {
  }

  /** One round of writei: bmap, copy, log_write. Besides the blocks of the indirect
      block it logs one data block, and a bitmap block if that is new. */
  method WriteBlock(vol: Volume, i: nat, pos: nat, part: seq<Byte>)
    returns (ok: bool, ghost d: set<nat>, ghost bm: set<nat>)
    requires vol.Valid() && i < |vol.view.files| && pos % BSIZE + |part| <= BSIZE && pos / BSIZE < MAXFILE
    modifies vol
    ensures vol.Valid() && vol.dinodes == old(vol.dinodes) && OthersKept(old(vol.inodes), vol.inodes, i)
            && OnlyBlocks(old(vol.view), vol.view, i)
    ensures ok ==> Overwritten(old(vol.view).files[i].blocks, vol.view.files[i].blocks, pos, part)
    ensures ok ==> vol.view.files[i].blocks.Keys == old(vol.view).files[i].blocks.Keys + {pos / BSIZE}
    ensures !ok ==> vol.view.files[i].blocks == old(vol.view).files[i].blocks && vol.view.free == {}
    ensures |d| <= 1 && |bm| <= 1 && (pos / BSIZE in old(vol.view).files[i].blocks ==> bm == {})
    ensures |vol.view.free| + 2 >= |old(vol.view).free|
    ensures vol.logged <= old(vol.logged) + vol.IndLog(i) + d + bm
    ensures IndOf(old(vol.S()), i) != 0 ==> IndOf(vol.S(), i) == IndOf(old(vol.S()), i)
    ensures Tracked(vol.bmapstart, old(vol.S()), vol.S(), old(vol.logged), vol.logged)
  {
    ghost var v := vol.view;
    ghost var bl := v.files[i].blocks;
    ViewGood(vol.S(), v, i);
    var bn := pos / BSIZE;
    var addr := vol.Bmap(i, bn);
    d, bm := {}, {};
    if addr == 0 {
      return false, d, bm;
    }
    ghost var c, t, m := vol.view.files[i].blocks, vol.S(), vol.logged;
    d := {addr};
    if bn in bl {
      OverwrittenNot(bl, pos);
    } else {
      bm := {vol.BBlock(addr)};
      ZeroFillsHole(bl, bn);
    }
    ViewGood(vol.S(), vol.view, i);
    SplicedBytes(c, pos, part);
    StoreBlock(vol, i, bn, addr, pos % BSIZE, part);
    TrackedThen(vol.bmapstart, old(vol.S()), t, vol.S(), old(vol.logged), m, vol.logged);
    OverwrittenAfter(bl, c, vol.view.files[i].blocks, pos, part);
    ok := true;
  }

  lemma OverwrittenAfter(bl: Blocks, c: Blocks, d: Blocks, pos: nat, part: seq<Byte>)
    requires (exists z: nat :: Overwritten(bl, c, z, [])) && Overwritten(c, d, pos, part)
    ensures Overwritten(bl, d, pos, part)
  {
    var z: nat :| Overwritten(bl, c, z, []);
    forall x: nat
      ensures ByteOf(d, x) == if pos <= x < pos + |part| then part[x - pos] else ByteOf(bl, x)
    {
      assert ByteOf(c, x) == ByteOf(bl, x);
    }
  }

  /** The copy into the buffer and the log_write. */
  method StoreBlock(vol: Volume, i: nat, bn: nat, addr: nat, o: nat, part: seq<Byte>)
    requires vol.Valid() && i < |vol.view.files| && bn in vol.view.files[i].blocks && addr == BlockAt(vol.S(), i, bn)
    requires o + |part| <= BSIZE && |vol.view.files[i].blocks[bn]| == BSIZE
    modifies vol
    ensures vol.Valid() && vol.dinodes == old(vol.dinodes) && OthersKept(old(vol.inodes), vol.inodes, i)
            && vol.inodes == old(vol.inodes)
    ensures vol.view == WithFile(old(vol.view), i, Linked(old(vol.view).files[i], bn,
        Splice(old(vol.view).files[i].blocks[bn], o, part)))
    ensures vol.logged == old(vol.logged) + {addr}
    ensures IndOf(vol.S(), i) == IndOf(old(vol.S()), i)
    ensures Tracked(vol.bmapstart, old(vol.S()), vol.S(), old(vol.logged), vol.logged)
  {
    ghost var s, v := vol.S(), vol.view;
    assert FileRep(s, i, v.files[i]);
    assert bn < MAXFILE;
    BlockHere(s, v, i, bn);
    ghost var z := Splice(v.files[i].blocks[bn], o, part);
    RepPoke(s, v, i, bn, z);
    assert vol.disk[addr] == v.files[i].blocks[bn];
    vol.disk := vol.disk[addr := Splice(vol.disk[addr], o, part)];
    vol.logged := vol.logged + {addr};
    vol.view := WithFile(v, i, Linked(v.files[i], bn, z));
    assert vol.S() == Poke(s, addr, z);
  }

  function Min(a: nat, b: nat): (m: nat) {
    if a < b then a else b
  }

  /** The bytes that writei moves in one round at `pos` with `n` to go. */
  function Chunk(pos: nat, n: nat): (m: nat)
    ensures m <= n && pos % BSIZE + m <= BSIZE && (n > 0 ==> m > 0)
  {
    Min(n, BSIZE - pos % BSIZE)
  }

  const MAXBYTES: nat := MAXFILE * BSIZE
  const UINT: nat := 0x1_0000_0000

  /** writei refuses. */
  predicate BadWrite(size: nat, off: nat, n: nat) {
    off > size || off + n >= UINT || off + n > MAXBYTES
  }

  /** Blocks that hold `size` bytes. */
  function NBlocks(size: nat): (n: nat) {
    (size + BSIZE - 1) / BSIZE
  }

  ghost predicate HoleFree(f: File) {
    forall k: nat :: k < NBlocks(f.size) ==> k in f.blocks
  }

  /** The blocks written so far: data from block `first` to before `next`. */
  ghost predicate Covered(bl: Blocks, c: Blocks, first: nat, next: nat) {
    forall k: nat :: k in c <==> k in bl || first <= k < next
  }

  /** The first `w` bytes of `data` are in place, in the blocks first .. next - 1. */
  ghost predicate Written(v: View, u: View, i: nat, off: nat, data: seq<Byte>, w: nat, first: nat, next: nat) {
    && OnlyBlocks(v, u, i) && w <= |data| && Overwritten(v.files[i].blocks, u.files[i].blocks, off, data[..w])
    && first <= next && Covered(v.files[i].blocks, u.files[i].blocks, first, next)
  }

  /** How many of the blocks first .. next - 1 a file with `have` blocks lacks. */
  function Missing(have: nat, first: nat, next: nat): (n: nat) {
    if next <= have || next <= first then 0 else if first < have then next - have else next - first
  }

  /** The blocks logged so far: those of the indirect block, data blocks `d`, no more
      than were written, and bitmap blocks `bm`, no more than were missing. */
  ghost predicate Within(logged: set<nat>, base: set<nat>, d: set<nat>, bm: set<nat>, f: File, first: nat, next: nat) {
    && logged <= base + d + bm && first <= next && |d| <= next - first
    && (HoleFree(f) ==> |bm| <= Missing(NBlocks(f.size), first, next))
  }

  lemma WithinNext(l: set<nat>, m: set<nat>, base: set<nat>, i: set<nat>, j: set<nat>, d: set<nat>, bm: set<nat>,
                   d1: set<nat>, bm1: set<nat>, f: File, first: nat, next: nat)
    requires Within(l, base + i, d, bm, f, first, next) && m <= l + j + d1 + bm1 && |d1| <= 1 && |bm1| <= 1 && i <= j
    requires next in f.blocks ==> bm1 == {}
    ensures Within(m, base + j, d + d1, bm + bm1, f, first, next + 1)
  {
    UnionSize(d, d1);
    UnionSize(bm, bm1);
  }

  lemma UnionSize(a: set<nat>, b: set<nat>)
    ensures |a + b| <= |a| + |b|
  {
    assert |a + b| == |a| + |b - a|;
    assert b == (b - a) + (b * a);
  }

  /** What writei copies in a round of `m` bytes when `fault` bytes of the source can
      be read and `tot` have been. */
  function Copied(tot: nat, m: nat, fault: nat): (c: nat)
    ensures c <= m
  {
    if tot + m <= fault then m else if fault > tot then fault - tot else 0
  }

  /** One round of the loop of writei. */
  method WriteRound(vol: Volume, i: nat, off: nat, data: seq<Byte>, tot: nat, copied: nat, ghost v: View,
                    ghost first: nat, ghost next: nat, ghost base: set<nat>, ghost d: set<nat>, ghost bm: set<nat>)
    returns (ok: bool, ghost d2: set<nat>, ghost bm2: set<nat>)
    requires vol.Valid() && Written(v, vol.view, i, off, data, tot, first, next) && tot + copied <= |data|
    requires (off + tot) / BSIZE == next < MAXFILE && (off + tot) % BSIZE + copied <= BSIZE
    requires Within(vol.logged, base + vol.IndLog(i), d, bm, v.files[i], first, next)
    modifies vol
    ensures vol.Valid() && vol.dinodes == old(vol.dinodes) && OthersKept(old(vol.inodes), vol.inodes, i)
    ensures ok ==> Written(v, vol.view, i, off, data, tot + copied, first, next + 1)
    ensures !ok ==> Written(v, vol.view, i, off, data, tot, first, next) && vol.view.free == {}
    ensures |vol.view.free| + 2 >= |old(vol.view).free|
    ensures Within(vol.logged, base + vol.IndLog(i), d2, bm2, v.files[i], first, next + 1)
    ensures Tracked(vol.bmapstart, old(vol.S()), vol.S(), old(vol.logged), vol.logged)
  {
    ghost var a, l, il := vol.view, vol.logged, vol.IndLog(i);
    ghost var d1, bm1;
    ok, d1, bm1 := WriteBlock(vol, i, off + tot, data[tot..tot + copied]);
    OnlyTrans(v, a, vol.view, i);
    WithinNext(l, vol.logged, base, il, vol.IndLog(i), d, bm, d1, bm1, v.files[i], first, next);
    d2, bm2 := d + d1, bm + bm1;
    if ok {
      assert data[..tot] + data[tot..tot + copied] == data[..tot + copied];
      OverwrittenMore(v.files[i].blocks, a.files[i].blocks, vol.view.files[i].blocks, off, data[..tot],
                      data[tot..tot + copied]);
    }
  }

  lemma WrittenStart(s: Fs, v: View, i: nat, off: nat, data: seq<Byte>, first: nat)
    requires Rep(s, v) && i < |v.files|
    ensures Written(v, v, i, off, data, 0, first, first)
  {
    ViewGood(s, v, i);
    OverwrittenNot(v.files[i].blocks, off);
    assert data[..0] == [];
  }

  /** Where the loop stands: `next` is the first block not reached. */
  ghost predicate Pos(off: nat, tot: nat, n: nat, first: nat, next: nat) {
    && tot <= n && first <= next
    && first * BSIZE <= off < (first + 1) * BSIZE
    && (if tot == 0 then next == first else (next - 1) * BSIZE < off + tot <= next * BSIZE)
    && (0 < tot < n ==> off + tot == next * BSIZE)
  }

  lemma PosStart(off: nat, n: nat)
    ensures Pos(off, 0, n, off / BSIZE, off / BSIZE)
  {
    PosIs(off);
  }

  lemma PosNext(off: nat, tot: nat, n: nat, first: nat, next: nat)
    requires Pos(off, tot, n, first, next) && tot < n
    ensures (off + tot) / BSIZE == next && (off + n <= MAXBYTES ==> next < MAXFILE)
    ensures Pos(off, tot + Chunk(off + tot, n - tot), n, first, next + 1)
    ensures next * BSIZE < off + n
  {
    PosIs(off + tot);
  }

  /** How the loop of writei ends: `tot` bytes count, `w` are in place. */
  ghost predicate Stopped(tot: nat, w: nat, n: nat, fault: nat, free: set<nat>) {
    && tot <= w <= n && (tot < n ==> free == {} || fault < n)
    && (fault >= n ==> tot == w)
  }

  /** One turn of the loop: another round done, or the reason to stop. */
  method WriteTurn(vol: Volume, i: nat, off: nat, data: seq<Byte>, fault: nat, tot: nat, ghost v: View,
                   ghost first: nat, ghost next: nat, ghost base: set<nat>, ghost d: set<nat>, ghost bm: set<nat>)
    returns (more: bool, m: nat, ghost w: nat, ghost d2: set<nat>, ghost bm2: set<nat>, ghost next2: nat)
    requires vol.Valid() && Written(v, vol.view, i, off, data, tot, first, next)
    requires Pos(off, tot, |data|, first, next) && tot < |data| && off + |data| <= MAXBYTES
    requires Within(vol.logged, base + vol.IndLog(i), d, bm, v.files[i], first, next)
    modifies vol
    ensures vol.Valid() && vol.dinodes == old(vol.dinodes) && OthersKept(old(vol.inodes), vol.inodes, i)
            && Written(v, vol.view, i, off, data, w, first, next2)
    ensures Within(vol.logged, base + vol.IndLog(i), d2, bm2, v.files[i], first, next + 1)
            && next * BSIZE < off + |data|
    ensures more ==> w == tot + m && m > 0 && next2 == next + 1 && Pos(off, tot + m, |data|, first, next + 1)
    ensures !more ==> Stopped(tot, w, |data|, fault, vol.view.free) && next2 >= next
    ensures |vol.view.free| + 2 >= |old(vol.view).free|
    ensures Tracked(vol.bmapstart, old(vol.S()), vol.S(), old(vol.logged), vol.logged)
  {
    m := Chunk(off + tot, |data| - tot);
    var copied := Copied(tot, m, fault);
    PosNext(off, tot, |data|, first, next);
    var ok;
    ok, d2, bm2 := WriteRound(vol, i, off, data, tot, copied, v, first, next, base, d, bm);
    w, next2 := tot, next;
    if ok {
      w, next2 := tot + copied, next + 1;
    }
    more := ok && copied == m;
  }

  /** The loop of writei, on arguments that were not refused, when `fault` bytes of the
      source can be read. Returns the bytes of the rounds that succeeded, and how many
      were put in place, including those of a last round that failed half-way. */
  method WriteLoop(vol: Volume, i: nat, off: nat, data: seq<Byte>, fault: nat, ghost first: nat)
    returns (tot: nat, ghost w: nat, ghost d: set<nat>, ghost bm: set<nat>, ghost next: nat, ghost last: nat)
    requires vol.Valid() && i < |vol.view.files| && off + |data| <= MAXBYTES && Pos(off, 0, |data|, first, first)
    modifies vol
    ensures vol.Valid() && vol.dinodes == old(vol.dinodes) && OthersKept(old(vol.inodes), vol.inodes, i)
    ensures Written(old(vol.view), vol.view, i, off, data, w, first, next)
    ensures Stopped(tot, w, |data|, fault, vol.view.free)
    ensures tot > 0 ==> off + tot <= next * BSIZE
    ensures last > first ==> (last - 1) * BSIZE < off + |data|
    ensures last >= first && (last > first ==> data != [])
            && |vol.view.free| + 2 * (last - first) >= |old(vol.view).free|
    ensures Within(vol.logged, old(vol.logged) + vol.IndLog(i), d, bm, old(vol.view).files[i], first, last)
    ensures Tracked(vol.bmapstart, old(vol.S()), vol.S(), old(vol.logged), vol.logged)
  {
    ghost var v, base := vol.view, vol.logged;
    WrittenStart(vol.S(), v, i, off, data, first);
    tot, w, d, bm, next, last := 0, 0, {}, {}, first, first;
    while tot < |data|
      invariant vol.Valid() && vol.dinodes == old(vol.dinodes) && OthersKept(old(vol.inodes), vol.inodes, i) && w == tot
                && last == next
      invariant Written(v, vol.view, i, off, data, tot, first, next)
      invariant Pos(off, tot, |data|, first, next)
      invariant Within(vol.logged, base + vol.IndLog(i), d, bm, v.files[i], first, next)
      invariant first <= next && |vol.view.free| + 2 * (next - first) >= |old(vol.view).free|
      invariant Tracked(vol.bmapstart, old(vol.S()), vol.S(), base, vol.logged)
    {
      var more, m;
      ghost var t, l := vol.S(), vol.logged;
      last := next + 1;
      more, m, w, d, bm, next := WriteTurn(vol, i, off, data, fault, tot, v, first, next, base, d, bm);
      TrackedThen(vol.bmapstart, old(vol.S()), t, vol.S(), base, l, vol.logged);
      if !more {
        break;
      }
      tot := tot + m;
    }
  }

  // ---------------------------------------------------------------------------
  // writei as a whole
  // ---------------------------------------------------------------------------

  /** The file after writei: `w` bytes in place, the size to the end of the `tot` bytes
      that count. */
  ghost predicate Wrote(f: File, g: File, off: nat, data: seq<Byte>, tot: nat, w: nat) {
    && g.kind == f.kind && g.nlink == f.nlink && tot <= w <= |data|
    && g.size == (if off + tot > f.size then off + tot else f.size)
    && Overwritten(f.blocks, g.blocks, off, data[..w])
    && (HoleFree(f) ==> HoleFree(g))
  }

  lemma HoleFreeAfter(f: File, g: File, off: nat, tot: nat, first: nat, next: nat)
    requires Covered(f.blocks, g.blocks, first, next) && off <= f.size && (tot > 0 ==> off + tot <= next * BSIZE)
    requires first * BSIZE <= off && g.size == if off + tot > f.size then off + tot else f.size
    ensures HoleFree(f) ==> HoleFree(g)
  {
    if HoleFree(f) {
      forall k: nat | k < NBlocks(g.size)
        ensures k in g.blocks
      {
        if k >= NBlocks(f.size) {
          assert k * BSIZE < off + tot;
          assert k * BSIZE >= f.size;
        }
      }
    }
  }

  /** The end of writei: the size, and iupdate. */
  method EndWrite(vol: Volume, i: nat, end: nat)
    requires vol.Valid() && i < |vol.view.files|
    modifies vol
    ensures vol.Valid() && i < |vol.inodes| && i < |old(vol.dinodes)|
            && vol.dinodes == old(vol.dinodes)[i := vol.inodes[i]] && OthersKept(old(vol.inodes), vol.inodes, i)
    ensures var f := old(vol.view).files[i];
            vol.view == WithFile(old(vol.view), i, f.(size := if end > f.size then end else f.size))
    ensures vol.logged == old(vol.logged) + {vol.IBlock(i)}
    ensures vol.disk == old(vol.disk) && vol.used == old(vol.used)
    ensures TrackedInodes(vol.inodestart, old(vol.dinodes), vol.dinodes, vol.logged)
  {
    assert FileRep(vol.S(), i, vol.view.files[i]);
    if end > vol.inodes[i].size {
      RepSetStat(vol.S(), vol.view, i, vol.inodes[i].kind, vol.inodes[i].nlink, end);
      vol.view := WithFile(vol.view, i, vol.view.files[i].(size := end));
      vol.inodes := vol.inodes[i := vol.inodes[i].(size := end)];
    }
    vol.Iupdate(i);
  }

  /** How many blocks the `n` bytes at `off` are in. */
  function BlocksOf(off: nat, n: nat): (k: nat) {
    if n == 0 then 0 else (off + n - 1) / BSIZE - off / BSIZE + 1
  }

  lemma LastBlock(off: nat, n: nat, last: nat)
    requires last >= off / BSIZE && (last > off / BSIZE ==> n > 0 && (last - 1) * BSIZE < off + n)
    ensures last - off / BSIZE <= BlocksOf(off, n)
  {
    if last > off / BSIZE { assert (off + n - 1) / BSIZE >= last - 1; }
  }

  /** writei on arguments that were not refused. */
  method WriteAll(vol: Volume, i: nat, off: nat, data: seq<Byte>, fault: nat) returns (tot: nat, ghost w: nat)
    requires vol.Valid() && i < |vol.view.files| && !BadWrite(vol.view.files[i].size, off, |data|)
    modifies vol
    ensures vol.Valid() && i < |vol.inodes| && i < |old(vol.dinodes)|
            && vol.dinodes == old(vol.dinodes)[i := vol.inodes[i]] && OthersKept(old(vol.inodes), vol.inodes, i)
    ensures OnlyFile(old(vol.view), vol.view, i)
    ensures Wrote(old(vol.view).files[i], vol.view.files[i], off, data, tot, w)
    ensures Stopped(tot, w, |data|, fault, vol.view.free)
    ensures |vol.view.free| + 2 * BlocksOf(off, |data|) >= |old(vol.view).free|
    ensures HoleFree(old(vol.view).files[i]) && old(vol.logged) == {} && |data| <= MAXCHUNK ==>
              |vol.logged| <= MAXOPBLOCKS
    ensures Tracked(vol.bmapstart, old(vol.S()), vol.S(), old(vol.logged), vol.logged)
    ensures TrackedInodes(vol.inodestart, old(vol.dinodes), vol.dinodes, vol.logged)
  {
    ghost var v, first := vol.view, off / BSIZE;
    PosStart(off, |data|);
    ghost var d, bm, next, last;
    tot, w, d, bm, next, last := WriteLoop(vol, i, off, data, fault, first);
    ghost var u, l, il, t := vol.view, vol.logged, vol.IndLog(i), vol.S();
    LastBlock(off, |data|, last);
    EndWrite(vol, i, off + tot);
    TrackedThen(vol.bmapstart, old(vol.S()), t, vol.S(), old(vol.logged), l, vol.logged);
    WroteFile(v, u, vol.view, i, off, data, tot, w, first, next);
    if HoleFree(v.files[i]) && old(vol.logged) == {} && |data| <= MAXCHUNK {
      Budget(l, il, d, bm, v.files[i], off, first, last, |data|);
      UnionSize(l, {vol.IBlock(i)});
    }
  }

  lemma WroteFile(v: View, u: View, x: View, i: nat, off: nat, data: seq<Byte>, tot: nat, w: nat, first: nat, next: nat)
    requires Written(v, u, i, off, data, w, first, next) && tot <= w && off <= v.files[i].size
    requires (tot > 0 ==> off + tot <= next * BSIZE) && first * BSIZE <= off
    requires x == WithFile(u, i, u.files[i].(size := if off + tot > u.files[i].size then off + tot
        else u.files[i].size))
    ensures OnlyFile(v, x, i) && Wrote(v.files[i], x.files[i], off, data, tot, w)
  {
    HoleFreeAfter(v.files[i], x.files[i], off, tot, first, next);
  }

  /** Only file `i` may differ, and blocks may have gone from the free ones. */
  ghost predicate OnlyFile(v: View, w: View, i: nat) {
    && i < |v.files| == |w.files| && w.files == v.files[i := w.files[i]]
    && w.hands == v.hands && w.free <= v.free
  }

  /** writei. -1 when the arguments are refused; otherwise the bytes written, fewer
      than asked only when the disk is full or the source cannot be read. */
  method Writei(vol: Volume, i: nat, off: nat, data: seq<Byte>, fault: nat) returns (tot: int, ghost w: nat)
    requires vol.Valid() && i < |vol.view.files| && off < UINT && |data| < UINT
    modifies vol
    ensures vol.Valid() && OnlyFile(old(vol.view), vol.view, i)
    ensures tot == -1 <==> BadWrite(old(vol.view).files[i].size, off, |data|)
    ensures tot == -1 <==> off > old(vol.view).files[i].size || off + |data| > 268 * 1024
    ensures tot == -1 ==>
              vol.S() == old(vol.S()) && vol.view == old(vol.view) && vol.dinodes == old(vol.dinodes)
              && vol.logged == old(vol.logged)
    ensures tot != -1 ==>
              i < |vol.inodes| && i < |old(vol.dinodes)| && vol.dinodes == old(vol.dinodes)[i := vol.inodes[i]]
              && OthersKept(old(vol.inodes), vol.inodes, i)
    ensures tot != -1 ==> 0 <= tot && Wrote(old(vol.view).files[i], vol.view.files[i], off, data, tot, w)
    ensures tot != -1 ==> Stopped(tot, w, |data|, fault, vol.view.free)
    ensures |vol.view.free| + 2 * BlocksOf(off, |data|) >= |old(vol.view).free|
    ensures HoleFree(old(vol.view).files[i]) && old(vol.logged) == {} && |data| <= MAXCHUNK ==>
              |vol.logged| <= MAXOPBLOCKS
    ensures Tracked(vol.bmapstart, old(vol.S()), vol.S(), old(vol.logged), vol.logged)
    ensures TrackedInodes(vol.inodestart, old(vol.dinodes), vol.dinodes, vol.logged)
  {
    assert FileRep(vol.S(), i, vol.view.files[i]);
    if BadWrite(vol.inodes[i].size, off, |data|) {
      return -1, 0;
    }
    tot, w := WriteAll(vol, i, off, data, fault);
  }

  const MAXOPBLOCKS: nat := 10

  /** The most that filewrite passes to writei at a time. */
  const MAXCHUNK: nat := (MAXOPBLOCKS - 1 - 1 - 2) / 2 * BSIZE

  /** Four data blocks, three of them new, and the indirect block with its bitmap
      block: nine blocks, to which writei adds the one of the inode. */
  lemma Budget(l: set<nat>, il: set<nat>, d: set<nat>, bm: set<nat>, f: File, off: nat, first: nat, last: nat, n: nat)
    requires Within(l, {} + il, d, bm, f, first, last) && |il| <= 2 && HoleFree(f) && n <= MAXCHUNK && off <= f.size
    requires first * BSIZE <= off < (first + 1) * BSIZE && (last > first ==> (last - 1) * BSIZE < off + n)
    ensures |l| <= MAXOPBLOCKS - 1
  {
    UnionSize(il, d);
    UnionSize(il + d, bm);
    assert l <= il + d + bm;
    SubsetSize(l, il + d + bm);
  }

  lemma SubsetSize(a: set<nat>, b: set<nat>)
    requires a <= b
    ensures |a| <= |b|
  {
    assert b == a + (b - a);
    assert |b| == |a| + |b - a|;
  }

  // ---------------------------------------------------------------------------
  // readi
  // ---------------------------------------------------------------------------

  lemma SliceIsPart(f: File, off: nat, n: nat)
    requires GoodBlocks(f.blocks) && off + n <= f.size
    ensures Slice(f.blocks, off, n) == Contents(f)[off..off + n]
  {
    forall j: nat | j < n
      ensures Slice(f.blocks, off, n)[j] == Contents(f)[off + j]
    {
      SliceAt(f.blocks, off, n, j);
      SliceAt(f.blocks, 0, f.size, off + j);
    }
  }

  ghost predicate ReadFrom(bl: Blocks, off: nat, data: seq<Byte>)
    requires GoodBlocks(bl)
  {
    forall j :: 0 <= j < |data| ==> data[j] == ByteOf(bl, off + j)
  }

  lemma ReadFromIs(bl: Blocks, off: nat, data: seq<Byte>)
    requires GoodBlocks(bl) && ReadFrom(bl, off, data)
    ensures data == Slice(bl, off, |data|)
  {
    forall j: nat | j < |data|
      ensures Slice(bl, off, |data|)[j] == data[j]
    {
      SliceAt(bl, off, |data|, j);
    }
  }

  /** One round of readi: bmap, and the bytes of that block. */
  method ReadBlock(vol: Volume, i: nat, pos: nat, m: nat) returns (ok: bool, part: seq<Byte>)
    requires vol.Valid() && i < |vol.view.files| && pos % BSIZE + m <= BSIZE && pos / BSIZE < MAXFILE
    modifies vol
    ensures vol.Valid() && vol.dinodes == old(vol.dinodes) && OthersKept(old(vol.inodes), vol.inodes, i)
            && OnlyBlocks(old(vol.view), vol.view, i)
    ensures Overwritten(old(vol.view).files[i].blocks, vol.view.files[i].blocks, 0, [])
    ensures ok ==> |part| == m && ReadFrom(old(vol.view).files[i].blocks, pos, part)
    ensures !ok ==> vol.view.free == {} && part == []
    ensures pos / BSIZE in old(vol.view).files[i].blocks ==>
              ok && vol.S() == old(vol.S()) && vol.view == old(vol.view) && vol.logged == old(vol.logged)
  {
    ghost var bl := vol.view.files[i].blocks;
    ViewGood(vol.S(), vol.view, i);
    OverwrittenNot(bl, 0);
    var bn := pos / BSIZE;
    if bn !in bl {
      ZeroFillsHole(bl, bn);
    }
    var addr := vol.Bmap(i, bn);
    if addr == 0 {
      return false, [];
    }
    ghost var c := vol.view.files[i].blocks;
    ViewGood(vol.S(), vol.view, i);
    assert FileRep(vol.S(), i, vol.view.files[i]);
    assert vol.disk[addr] == c[bn];
    part := vol.disk[addr][pos % BSIZE..pos % BSIZE + m];
    forall j | 0 <= j < m
      ensures part[j] == ByteOf(bl, pos + j)
    {
      InBlock(pos, pos + j, m);
      assert ByteOf(c, pos + j) == ByteOf(bl, pos + j);
    }
    ok := true;
  }

  lemma OverwrittenNone(a: Blocks, b: Blocks, c: Blocks)
    requires Overwritten(a, b, 0, []) && Overwritten(b, c, 0, [])
    ensures Overwritten(a, c, 0, [])
  {
    forall x: nat
      ensures ByteOf(c, x) == ByteOf(a, x)
    {
      assert ByteOf(b, x) == ByteOf(a, x);
    }
  }

  lemma ReadFromBoth(bl: Blocks, c: Blocks, off: nat, data: seq<Byte>, part: seq<Byte>)
    requires Overwritten(bl, c, 0, []) && ReadFrom(bl, off, data) && ReadFrom(c, off + |data|, part)
    ensures ReadFrom(bl, off, data + part)
  {
    forall j | 0 <= j < |data + part|
      ensures (data + part)[j] == ByteOf(bl, off + j)
    {
      if j >= |data| {
        assert (data + part)[j] == part[j - |data|];
        assert ByteOf(c, off + j) == ByteOf(bl, off + j);
      }
    }
  }

  /** Every block of off .. off + n - 1 is there. */
  ghost predicate Present(bl: Blocks, off: nat, n: nat) {
    forall x: nat :: off <= x < off + n ==> x / BSIZE in bl
  }

  lemma HoleFreePresent(f: File, off: nat, n: nat)
    requires HoleFree(f) && off + n <= f.size
    ensures Present(f.blocks, off, n)
  {
    forall x: nat | off <= x < off + n
      ensures x / BSIZE in f.blocks
    {
      assert x / BSIZE < NBlocks(f.size);
    }
  }

  /** The loop of readi for `n` bytes inside the file, when `room` bytes of the target
      can be written. */
  method ReadLoop(vol: Volume, i: nat, off: nat, n: nat, room: nat) returns (data: seq<Byte>, faulted: bool)
    requires vol.Valid() && i < |vol.view.files| && off + n <= MAXBYTES && GoodBlocks(vol.view.files[i].blocks)
    modifies vol
    ensures vol.Valid() && vol.dinodes == old(vol.dinodes) && OthersKept(old(vol.inodes), vol.inodes, i)
            && OnlyBlocks(old(vol.view), vol.view, i)
    ensures Overwritten(old(vol.view).files[i].blocks, vol.view.files[i].blocks, 0, [])
    ensures |data| <= n && ReadFrom(old(vol.view).files[i].blocks, off, data)
    ensures faulted ==> room < n
    ensures !faulted && |data| < n ==> vol.view.free == {} && !Present(old(vol.view).files[i].blocks, off, n)
    ensures Present(old(vol.view).files[i].blocks, off, n) ==>
              vol.S() == old(vol.S()) && vol.view == old(vol.view) && vol.logged == old(vol.logged)
  {
    ghost var v := vol.view;
    ghost var bl := v.files[i].blocks;
    data := [];
    OverwrittenNot(bl, 0);
    faulted := false;
    while |data| < n
      invariant vol.Valid() && vol.dinodes == old(vol.dinodes) && OthersKept(old(vol.inodes), vol.inodes, i)
                && OnlyBlocks(v, vol.view, i) && !faulted
      invariant Overwritten(bl, vol.view.files[i].blocks, 0, []) && |data| <= n && ReadFrom(bl, off, data)
      invariant Present(bl, off, n) ==> vol.S() == old(vol.S()) && vol.view == v && vol.logged == old(vol.logged)
    {
      var pos := off + |data|;
      var m := Chunk(pos, n - |data|);
      ghost var a := vol.view;
      InFile(pos);
      var ok, part := ReadBlock(vol, i, pos, m);
      OnlyTrans(v, a, vol.view, i);
      OverwrittenNone(bl, a.files[i].blocks, vol.view.files[i].blocks);
      if !ok {
        return;
      }
      if |data| + m > room {
        return data, true;
      }
      ReadFromBoth(bl, a.files[i].blocks, off, data, part);
      data := data + part;
    }
  }

  lemma InFile(pos: nat)
    ensures pos < MAXBYTES ==> pos / BSIZE < MAXFILE
  {
  }

  /** readi: the bytes of the file from `off` up to `off + n`, as far as there are any, and
      none for an offset beyond the end or a range beyond 32 bits; reading a file without
      holes changes nothing. */
  method Readi(vol: Volume, i: nat, off: nat, n: nat, room: nat) returns (data: seq<Byte>, ret: int)
    requires vol.Valid() && i < |vol.view.files| && off < UINT && n < UINT && vol.view.files[i].size <= MAXBYTES
    modifies vol
    ensures vol.Valid() && vol.dinodes == old(vol.dinodes) && OthersKept(old(vol.inodes), vol.inodes, i)
            && OnlyBlocks(old(vol.view), vol.view, i)
    ensures Overwritten(old(vol.view).files[i].blocks, vol.view.files[i].blocks, 0, [])
    ensures data == Slice(old(vol.view).files[i].blocks, off, |data|) && (ret == -1 || ret == |data|)
    ensures |data| <= n && (data != [] ==> off + |data| <= old(vol.view).files[i].size)
    ensures HoleFree(old(vol.view).files[i]) ==>
              && vol.S() == old(vol.S()) && vol.view == old(vol.view) && vol.logged == old(vol.logged)
              && GoodBlocks(old(vol.view).files[i].blocks)
    ensures HoleFree(old(vol.view).files[i]) && room >= n ==>
              var f := old(vol.view).files[i];
              && ret == |data|
              && (off > f.size || off + n >= 0x1_0000_0000 ==> data == [])
              && (off <= f.size && off + n < 0x1_0000_0000 ==>
                    data == Contents(f)[off..if off + n <= f.size then off + n else f.size])
  {
    ghost var f := vol.view.files[i];
    ViewGood(vol.S(), vol.view, i);
    OverwrittenNot(f.blocks, 0);
    assert FileRep(vol.S(), i, f);
    var size := vol.inodes[i].size;
    if off > size || off + n >= UINT {
      return [], 0;
    }
    var m := Min(n, size - off);
    if HoleFree(f) {
      HoleFreePresent(f, off, m);
    }
    var faulted;
    data, faulted := ReadLoop(vol, i, off, m, room);
    ReadFromIs(f.blocks, off, data);
    SliceIsPart(f, off, |data|);
    ret := if faulted then -1 else |data|;
  }
}
