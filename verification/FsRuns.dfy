/** The file system as a sequence of byte arrays: what reads, writes and truncations
    do over whole runs, and filewrite's split into transactions. */
module FsRuns {
  import opened FsBlocks
  import opened FsFiles
  import opened FsCode
  import opened FsIo

  // ---------------------------------------------------------------------------
  // Byte arrays
  // ---------------------------------------------------------------------------

  ghost function Spliced(c: seq<Byte>, off: nat, data: seq<Byte>): seq<Byte>
    requires off <= |c|
  {
    c[..off] + data + (if off + |data| < |c| then c[off + |data|..] else [])
  }

  /** A write that was not cut short by its source is a splice. */
  lemma WroteIsSplice(f: File, g: File, off: nat, data: seq<Byte>, tot: nat)
    requires Wrote(f, g, off, data, tot, tot) && off <= f.size
    ensures Contents(g) == Spliced(Contents(f), off, data[..tot])
  {
    var c, r := Contents(g), Spliced(Contents(f), off, data[..tot]);
    assert |c| == |r|;
    forall j: nat | j < |c|
      ensures c[j] == r[j]
    {
      SliceAt(g.blocks, 0, g.size, j);
      assert ByteOf(g.blocks, j) == if off <= j < off + tot then data[j - off] else ByteOf(f.blocks, j);
      if j < f.size {
        SliceAt(f.blocks, 0, f.size, j);
      }
    }
  }

  ghost predicate GoodView(v: View) {
    && v.hands == {}
    && forall i :: 0 <= i < |v.files| ==> GoodFile(v.files[i])
  }

  ghost predicate GoodFile(f: File) {
    GoodBlocks(f.blocks) && HoleFree(f) && f.size <= MAXBYTES
  }

  ghost function ContentsOr(f: File): seq<Byte> {
    if GoodBlocks(f.blocks) then Contents(f) else []
  }

  /** All files as byte arrays. */
  ghost function Arrays(v: View): seq<seq<Byte>> {
    seq(|v.files|, i requires 0 <= i < |v.files| => ContentsOr(v.files[i]))
  }

  // ---------------------------------------------------------------------------
  // Operations on byte arrays
  // ---------------------------------------------------------------------------

  datatype Op = Write(i: nat, off: nat, data: seq<Byte>) | Read(i: nat, off: nat, n: nat) | Trunc(i: nat)
  datatype Res = Count(n: int) | Bytes(data: seq<Byte>) | Done

  predicate OpOk(op: Op, nfiles: nat) {
    && op.i < nfiles
    && (op.Write? ==> op.off < UINT && |op.data| < UINT)
    && (op.Read? ==> op.off < UINT && op.n < UINT)
  }

  ghost function AbsStep(fs: seq<seq<Byte>>, op: Op): seq<seq<Byte>>
    requires op.i < |fs|
  {
    match op
    case Write(i, off, data) => if BadWrite(|fs[i]|, off, |data|) then fs else fs[i := Spliced(fs[i], off, data)]
    case Read(i, off, n) => fs
    case Trunc(i) => fs[i := []]
  }

  /** The bytes of `c` from `off` up to `off + n`, as far as there are any. */
  ghost function Part(c: seq<Byte>, off: nat, n: nat): (d: seq<Byte>)
    ensures d != [] ==> off + |d| <= |c| && d == c[off..off + |d|]
    ensures off <= |c| && off + n < UINT ==> |d| == n || off + |d| == |c|
  {
    if off > |c| || off + n >= UINT then []
    else if off + n <= |c| then c[off..off + n] else c[off..]
  }

  ghost function AbsRes(fs: seq<seq<Byte>>, op: Op): Res
    requires op.i < |fs|
  {
    match op
    case Write(i, off, data) => Count(if BadWrite(|fs[i]|, off, |data|) then -1 else |data|)
    case Read(i, off, n) => Bytes(Part(fs[i], off, n))
    case Trunc(i) => Done
  }

  /** A read returns what the write before it has written. */
  lemma ReadBack(fs: seq<seq<Byte>>, i: nat, off: nat, data: seq<Byte>)
    requires i < |fs| && AbsRes(fs, Write(i, off, data)) == Count(|data|)
    ensures AbsRes(AbsStep(fs, Write(i, off, data)), Read(i, off, |data|)) == Bytes(data)
  {
  }

  /** Reads of `n` bytes at a time, from `off` on, until one returns nothing. */
  ghost function ReadOn(c: seq<Byte>, off: nat, n: nat): seq<Byte>
    requires n > 0
    decreases if off < |c| then |c| - off else 0
  {
    var d := Part(c, off, n);
    if d == [] then [] else d + ReadOn(c, off + |d|, n)
  }

  /** They return the rest of the file, whatever `n` is. */
  lemma {:induction false} ReadOnIsRest(c: seq<Byte>, off: nat, n: nat)
    requires n > 0 && off <= |c| && |c| + n < UINT
    ensures ReadOn(c, off, n) == c[off..]
    decreases |c| - off
  {
    var d := Part(c, off, n);
    if d != [] { ReadOnIsRest(c, off + |d|, n); }
  }

  lemma ArraysChanged(v: View, w: View, i: nat)
    requires i < |v.files| == |w.files| && w.files == v.files[i := w.files[i]]
    ensures Arrays(w) == Arrays(v)[i := ContentsOr(w.files[i])]
  {
  }

  lemma ArraysSame(v: View, i: nat)
    requires i < |v.files|
    ensures Arrays(v)[i := ContentsOr(v.files[i])] == Arrays(v)
  {
  }

  /** As many free blocks as an operation can use up: two for every block it writes, as
      the indirect block may be missing. */
  function Need(op: Op): (n: nat) {
    if op.Write? then 2 * BlocksOf(op.off, |op.data|) else 0
  }

  function Needs(ops: seq<Op>): (n: nat) {
    if ops == [] then 0 else Need(ops[0]) + Needs(ops[1..])
  }

  /** A volume on which every file is a byte array and every inode is on the disk. */
  ghost predicate GoodVolume(vol: Volume)
    reads vol
  {
    vol.Valid() && GoodView(vol.view) && vol.dinodes == vol.inodes
  }

  /** The view `w` after an operation on `v`, as on byte arrays unless the disk is full. */
  ghost predicate Stepped(v: View, w: View, op: Op, r: Res, full: bool) {
    && op.i < |Arrays(v)|
    && (!full ==> Arrays(w) == AbsStep(Arrays(v), op) && r == AbsRes(Arrays(v), op))
    && (full ==> op.Write? && w.free == {})
    && |w.free| + Need(op) >= |v.free|
  }

  method StepWrite(vol: Volume, i: nat, off: nat, data: seq<Byte>) returns (r: Res, ghost full: bool)
    requires GoodVolume(vol) && OpOk(Write(i, off, data), |vol.inodes|)
    modifies vol
    ensures GoodVolume(vol) && |vol.inodes| == |old(vol.inodes)|
    ensures Stepped(old(vol.view), vol.view, Write(i, off, data), r, full)
  {
    ghost var v := vol.view;
    ghost var f := v.files[i];
    assert GoodFile(f);
    full := false;
    var tot;
    ghost var w;
    tot, w := Writei(vol, i, off, data, |data|);
    if tot != -1 {
      full := tot < |data|;
      WroteIsSplice(f, vol.view.files[i], off, data, tot);
      SameInodes(vol.S(), v, vol.view, i);
      assert data[..|data|] == data;
    }
    ArraysChanged(v, vol.view, i);
    ArraysSame(v, i);
    r := Count(tot);
  }

  method StepRead(vol: Volume, i: nat, off: nat, n: nat) returns (r: Res)
    requires GoodVolume(vol) && OpOk(Read(i, off, n), |vol.inodes|)
    modifies vol
    ensures GoodVolume(vol) && |vol.inodes| == |old(vol.inodes)|
    ensures Stepped(old(vol.view), vol.view, Read(i, off, n), r, false)
  {
    ghost var f := vol.view.files[i];
    assert GoodFile(f);
    var data, ret := Readi(vol, i, off, n, n);
    r := Bytes(data);
  }

  method StepTrunc(vol: Volume, i: nat) returns (r: Res)
    requires GoodVolume(vol) && OpOk(Trunc(i), |vol.inodes|)
    modifies vol
    ensures GoodVolume(vol) && |vol.inodes| == |old(vol.inodes)|
    ensures Stepped(old(vol.view), vol.view, Trunc(i), r, false)
  {
    ghost var v := vol.view;
    vol.Itrunc(i);
    SubsetSize(v.free, vol.view.free);
    ArraysChanged(v, vol.view, i);
    r := Done;
  }

  /** One operation: as on byte arrays, unless the disk is full. */
  method Step(vol: Volume, op: Op) returns (r: Res, ghost full: bool)
    requires GoodVolume(vol) && OpOk(op, |vol.inodes|)
    modifies vol
    ensures GoodVolume(vol) && |vol.inodes| == |old(vol.inodes)|
    ensures Stepped(old(vol.view), vol.view, op, r, full)
  {
    full := false;
    match op
    case Write(i, off, data) => r, full := StepWrite(vol, i, off, data);
    case Read(i, off, n) => r := StepRead(vol, i, off, n);
    case Trunc(i) => r := StepTrunc(vol, i);
  }

  lemma SameInodes(s: Fs, v: View, w: View, i: nat)
    requires Rep(s, w) && GoodView(v) && OnlyFile(v, w, i) && GoodFile(w.files[i])
    ensures GoodView(w)
  {
  }

  // ---------------------------------------------------------------------------
  // Runs
  // ---------------------------------------------------------------------------

  ghost predicate AllOk(ops: seq<Op>, nfiles: nat) {
    forall k :: 0 <= k < |ops| ==> OpOk(ops[k], nfiles)
  }

  ghost function AbsRun(fs: seq<seq<Byte>>, ops: seq<Op>): seq<seq<Byte>>
    requires AllOk(ops, |fs|)
    decreases |ops|
  {
    if ops == [] then fs else AbsRun(AbsStep(fs, ops[0]), ops[1..])
  }

  ghost function AbsResults(fs: seq<seq<Byte>>, ops: seq<Op>): seq<Res>
    requires AllOk(ops, |fs|)
    decreases |ops|
  {
    if ops == [] then [] else [AbsRes(fs, ops[0])] + AbsResults(AbsStep(fs, ops[0]), ops[1..])
  }

  /** Any run of reads, writes and truncations of any files, as long as the disk does
      not fill up, is the same run on independent byte arrays; and in any case the
      invariant of the volume holds at the end. It does not fill up with enough free
      blocks. */
  method Run(vol: Volume, ops: seq<Op>) returns (rs: seq<Res>, ghost full: bool)
    requires GoodVolume(vol) && AllOk(ops, |vol.inodes|)
    modifies vol
    ensures GoodVolume(vol)
    ensures AllOk(ops, |Arrays(old(vol.view))|)
    ensures !full ==>
              Arrays(vol.view) == AbsRun(Arrays(old(vol.view)), ops) && rs == AbsResults(Arrays(old(vol.view)), ops)
    ensures |old(vol.view).free| > Needs(ops) ==> !full
  {
    ghost var a := Arrays(vol.view);
    rs := [];
    full := false;
    for k := 0 to |ops|
      invariant GoodVolume(vol) && |vol.inodes| == |a|
      invariant !full ==> AbsRun(a, ops) == AbsRun(Arrays(vol.view), ops[k..])
      invariant !full ==> AbsResults(a, ops) == rs + AbsResults(Arrays(vol.view), ops[k..])
      invariant |old(vol.view).free| > Needs(ops) ==> !full && |vol.view.free| > Needs(ops[k..])
    {
      assert ops[k..][1..] == ops[k + 1..];
      var r;
      ghost var f;
      r, f := Step(vol, ops[k]);
      full := full || f;
      rs := rs + [r];
    }
    assert ops[|ops|..] == [];
  }

  // ---------------------------------------------------------------------------
  // filewrite
  // ---------------------------------------------------------------------------

  /** The file after `done` bytes of filewrite, of which `w` are in place. */
  ghost predicate FileWritten(f: File, g: File, off: nat, data: seq<Byte>, done: nat, w: nat) {
    && GoodFile(g) && done <= w <= |data|
    && Overwritten(f.blocks, g.blocks, off, data[..w])
    && g.size == (if done > 0 && off + done > f.size then off + done else f.size)
  }

  lemma FileWrittenMore(f: File, g: File, h: File, off: nat, data: seq<Byte>, done: nat, n: nat, tot: nat, w: nat)
    requires FileWritten(f, g, off, data, done, done) && done + n <= |data| && off + done <= g.size
             && off + done + n <= MAXBYTES
    requires Wrote(g, h, off + done, data[done..done + n], tot, w)
    ensures FileWritten(f, h, off, data, done + tot, done + w)
  {
    assert data[..done] + data[done..done + n][..w] == data[..done + w];
    OverwrittenMore(f.blocks, g.blocks, h.blocks, off, data[..done], data[done..done + n][..w]);
  }

  /** One transaction of filewrite: writei of a chunk, within the log budget. */
  method WriteTransaction(vol: Volume, i: nat, off: nat, part: seq<Byte>, fault: nat) returns (r: int, ghost w: nat)
    requires vol.Valid() && i < |vol.view.files| && off < UINT && |part| <= MAXCHUNK && GoodFile(vol.view.files[i])
    modifies vol
    ensures vol.Valid() && OnlyFile(old(vol.view), vol.view, i)
    ensures r == -1 <==> BadWrite(old(vol.view).files[i].size, off, |part|)
    ensures r == -1 ==> vol.view == old(vol.view)
    ensures r != -1 ==> 0 <= r && Wrote(old(vol.view).files[i], vol.view.files[i], off, part, r, w)
    ensures r != -1 ==> Stopped(r, w, |part|, fault, vol.view.free)
    ensures |vol.logged| <= MAXOPBLOCKS
    ensures Tracked(vol.bmapstart, old(vol.S()), vol.S(), {}, vol.logged)
    ensures TrackedInodes(vol.inodestart, old(vol.dinodes), vol.dinodes, vol.logged)
  {
    vol.logged := {};
    r, w := Writei(vol, i, off, part, fault);
  }

  lemma {:induction false} BitmapFew(start: nat, bs: set<nat>, n: nat)
    requires forall b :: b in bs ==> b < n * BPB
    ensures |BitmapOf(start, bs)| <= n
  {
    if n == 0 {
      assert BitmapOf(start, bs) == {};
    } else {
      var low := set b | b in bs && b < (n - 1) * BPB;
      BitmapFew(start, low, n - 1);
      forall x | x in BitmapOf(start, bs) ensures x in BitmapOf(start, low) + {n - 1 + start} {
        var b :| b in bs && x == b / BPB + start;
        assert b in low || b / BPB == n - 1;
      }
      SubsetSize(BitmapOf(start, bs), BitmapOf(start, low) + {n - 1 + start});
      UnionSize(BitmapOf(start, low), {n - 1 + start});
    }
  }

  /** Truncation as a transaction: it fits the log of one operation on every disk with at
      most nine bitmap blocks, whatever the file. */
  method TruncTransaction(vol: Volume, i: nat)
    requires vol.Valid() && i < |vol.view.files|
    modifies vol
    ensures vol.Valid()
    ensures var fs := old(vol.view).files;
            vol.view.files == fs[i := fs[i].(size := 0, ind := false, blocks := map[])]
    ensures vol.logged == BitmapOf(vol.bmapstart, FileBlocks(old(vol.owner), i)) + {vol.IBlock(i)}
    ensures vol.size <= (MAXOPBLOCKS - 1) * BPB ==> |vol.logged| <= MAXOPBLOCKS
    ensures Tracked(vol.bmapstart, old(vol.S()), vol.S(), {}, vol.logged)
    ensures TrackedInodes(vol.inodestart, old(vol.dinodes), vol.dinodes, vol.logged)
  {
    ghost var bs := FileBlocks(vol.owner, i);
    vol.logged := {};
    vol.Itrunc(i);
    ghost var bitmap := BitmapOf(vol.bmapstart, bs);
    if vol.size <= (MAXOPBLOCKS - 1) * BPB {
      BitmapFew(vol.bmapstart, bs, MAXOPBLOCKS - 1);
    }
    UnionSize(bitmap, {vol.IBlock(i)});
    assert vol.logged == bitmap + {vol.IBlock(i)};
  }

  /** Why filewrite stops early. */
  ghost predicate CutShort(f: File, off: nat, n: nat, fault: nat, free: set<nat>) {
    free == {} || fault < n || off > f.size || off + n > MAXBYTES
  }

  /** Where filewrite stands after `done` bytes. */
  ghost predicate Filling(v: View, u: View, i: nat, off: nat, data: seq<Byte>, done: nat) {
    && OnlyFile(v, u, i) && FileWritten(v.files[i], u.files[i], off, data, done, done)
    && (done > 0 ==> off <= v.files[i].size && off + done <= MAXBYTES)
  }

  /** What a round of filewrite leaves behind when its transaction returns `r`. */
  ghost predicate FillEnd(v: View, u: View, i: nat, off: nat, data: seq<Byte>, fault: nat, done: nat, n: nat, r: int,
                          w: nat) {
    && i < |v.files| && OnlyFile(v, u, i) && -1 <= r <= n
    && (r == n ==> Filling(v, u, i, off, data, done + n))
    && (r != n ==> FileWritten(v.files[i], u.files[i], off, data, if r == -1 then done else done + r, w))
    && (r != n ==> CutShort(v.files[i], off, |data|, fault, u.free))
  }

  lemma FillRefused(v: View, a: View, i: nat, off: nat, data: seq<Byte>, fault: nat, done: nat, n: nat)
    requires i < |v.files| && Filling(v, a, i, off, data, done) && done + n <= |data|
             && BadWrite(a.files[i].size, off + done, n)
    ensures FillEnd(v, a, i, off, data, fault, done, n, -1, done)
  {
  }

  lemma FillResult(v: View, a: View, b: View, i: nat, off: nat, data: seq<Byte>, fault: nat, done: nat, n: nat,
                   tot: nat, w: nat)
    requires i < |v.files| && Filling(v, a, i, off, data, done) && OnlyFile(v, b, i) && 0 < n && done + n <= |data|
    requires !BadWrite(a.files[i].size, off + done, n)
             && Wrote(a.files[i], b.files[i], off + done, data[done..done + n], tot, w)
    requires Stopped(tot, w, n, if fault > done then fault - done else 0, b.free)
    ensures FillEnd(v, b, i, off, data, fault, done, n, tot, done + w)
  {
    FileWrittenMore(v.files[i], a.files[i], b.files[i], off, data, done, n, tot, w);
  }

  /** One round of filewrite. */
  method FillMore(vol: Volume, i: nat, off: nat, data: seq<Byte>, fault: nat, done: nat, ghost v: View)
    returns (n: nat, r: int, ghost w: nat)
    requires vol.Valid() && i < |v.files| && Filling(v, vol.view, i, off, data, done) && off < UINT && done < |data|
    modifies vol
    ensures vol.Valid() && 0 < n && done + n <= |data| && FillEnd(v, vol.view, i, off, data, fault, done, n, r, w)
  {
    n := if |data| - done > MAXCHUNK then MAXCHUNK else |data| - done;
    ghost var a := vol.view;
    ghost var u;
    r, u := WriteTransaction(vol, i, off + done, data[done..done + n], if fault > done then fault - done else 0);
    FillTurn(v, a, vol.view, i, off, data, fault, done, n, r, u);
    w := if r == -1 then done else done + u;
  }

  /** What one transaction means for filewrite. */
  lemma FillTurn(v: View, a: View, b: View, i: nat, off: nat, data: seq<Byte>, fault: nat, done: nat, n: nat, r: int,
                 u: nat)
    requires i < |v.files| && Filling(v, a, i, off, data, done) && OnlyFile(a, b, i) && 0 < n && done + n <= |data|
    requires r == -1 <==> BadWrite(a.files[i].size, off + done, n)
    requires r == -1 ==> b == a
    requires r != -1 ==> 0 <= r && Wrote(a.files[i], b.files[i], off + done, data[done..done + n], r, u)
    requires r != -1 ==> Stopped(r, u, n, if fault > done then fault - done else 0, b.free)
    ensures FillEnd(v, b, i, off, data, fault, done, n, r, if r == -1 then done else done + u)
  {
    OnlyFileTrans(v, a, b, i);
    if r == -1 {
      FillRefused(v, a, i, off, data, fault, done, n);
    } else {
      FillResult(v, a, b, i, off, data, fault, done, n, r, u);
    }
  }

  /** The inode branch of filewrite. Returns the count or -1, and the new offset; every
      transaction stays within the budget of the log. */
  method Filewrite(vol: Volume, i: nat, off: nat, data: seq<Byte>, fault: nat)
    returns (ret: int, end: nat, ghost w: nat)
    requires vol.Valid() && i < |vol.view.files| && off < UINT && GoodFile(vol.view.files[i])
    modifies vol
    ensures vol.Valid() && OnlyFile(old(vol.view), vol.view, i)
    ensures off <= end && FileWritten(old(vol.view).files[i], vol.view.files[i], off, data, end - off, w)
    ensures ret == |data| || (ret == -1 && end < off + |data|)
    ensures ret == |data| ==> end == off + |data| && w == |data|
    ensures ret == -1 ==> CutShort(old(vol.view).files[i], off, |data|, fault, vol.view.free)
  {
    ghost var v := vol.view;
    FillingStart(v, i, off, data);
    var done := 0;
    while done < |data|
      invariant vol.Valid() && done <= |data| && Filling(v, vol.view, i, off, data, done)
    {
      var n, r;
      n, r, w := FillMore(vol, i, off, data, fault, done, v);
      if r != n {
        end := if r == -1 then off + done else off + done + r;
        return -1, end, w;
      }
      done := done + n;
    }
    ret, end, w := |data|, off + done, done;
  }

  lemma FillingStart(v: View, i: nat, off: nat, data: seq<Byte>)
    requires i < |v.files| && GoodFile(v.files[i])
    ensures Filling(v, v, i, off, data, 0)
  {
    OverwrittenNot(v.files[i].blocks, off);
    assert data[..0] == [];
  }

  lemma OnlyFileTrans(a: View, b: View, c: View, i: nat)
    requires OnlyFile(a, b, i) && OnlyFile(b, c, i)
    ensures OnlyFile(a, c, i)
  {
  }

  lemma FileWrittenIsSplice(f: File, g: File, off: nat, data: seq<Byte>)
    requires FileWritten(f, g, off, data, |data|, |data|) && off <= f.size && GoodFile(f)
    ensures Contents(g) == Spliced(Contents(f), off, data)
  {
    var h := g.(kind := f.kind, nlink := f.nlink);
    WroteIsSplice(f, h, off, data, |data|);
    assert data[..|data|] == data;
  }
}
