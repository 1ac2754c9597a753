/** mkfs (xv6/mkfs/mkfs.c): the image it writes satisfies the invariant of the inode
    layer, with the files as given. Blocks are handed out in order, and the bitmap is
    written once at the end. */
module FsImage {
  import opened FsBlocks
  import opened FsFiles
  import opened FsCode
  import opened FsIo
  import opened FsRuns

  const ROOTINO: nat := 1
  const DIRSIZ: nat := 14
  const DIRENT: nat := 16

  /** A directory entry: the inode number and the name, padded with zeroes. */
  function Dirent(inum: nat, name: seq<Byte>): (d: seq<Byte>)
    requires |name| <= DIRSIZ
    ensures |d| == DIRENT
  {
    [inum % 0x100, inum / 0x100 % 0x100] + name + seq(DIRSIZ - |name|, _ => 0)
  }

  function NoBlocks(): (a: seq<nat>)
    ensures |a| == NDIRECT + 1
  {
    seq(NDIRECT + 1, _ => 0)
  }

  ghost function Bits(size: nat, n: nat): seq<bool> {
    seq(size, b => b < n)
  }

  /** The file has exactly the blocks that its size asks for. */
  ghost predicate Exact(f: File) {
    GoodBlocks(f.blocks) && forall k: nat :: k in f.blocks <==> k < NBlocks(f.size)
  }

  ghost predicate AllExact(v: View) {
    v.hands == {} && forall i :: 0 <= i < |v.files| ==> Exact(v.files[i])
  }

  /** Blocks are handed out in order from `n`, and those to come are zero. */
  ghost predicate CoreOf(s: Fs, v: View, n: nat) {
    && Rep(s, v) && s.nmeta <= n <= s.size
    && (forall b: nat :: b < s.size ==> (b in v.free <==> n <= b))
    && (forall b: nat :: n <= b < s.size ==> s.disk[b] == Zero())
  }

  class Builder {
    const size: nat
    const nmeta: nat
    var disk: seq<Blk>
    var inodes: seq<Inode>
    var freeblock: nat
    var freeinode: nat
    ghost var owner: seq<Owner>
    ghost var view: View

    ghost function S(): Fs
      reads this
    {
      Fs(size, nmeta, Bits(size, freeblock), disk, inodes, owner)
    }

    ghost predicate Valid()
      reads this
    {
      Core() && AllExact(view)
    }

    ghost predicate Core()
      reads this
    {
      CoreOf(S(), view, freeblock)
    }

    /** The zeroed image. */
    constructor (size: nat, nmeta: nat, ninodes: nat)
      requires 1 <= nmeta <= size < 0x1_0000_0000
      ensures Valid() && this.size == size && this.nmeta == nmeta && freeinode == 1 && |inodes| == ninodes
              && freeblock == nmeta
      ensures forall i :: 0 <= i < ninodes ==> view.files[i] == File(0, 0, 0, false, map[])
    {
      this.size := size;
      this.nmeta := nmeta;
      disk := seq(size, _ => Zero());
      inodes := seq(ninodes, _ => Inode(0, 0, 0, NoBlocks()));
      freeblock := nmeta;
      freeinode := 1;
      owner := seq(size, b => if b < nmeta then Meta else Free);
      new;
      view := View(seq(ninodes, _ => File(0, 0, 0, false, map[])), FreeSet(S()), {});
      ZeroImage(S(), view);
    }

    /** ialloc. */
    method Ialloc(kind: nat) returns (inum: nat)
      requires Valid() && freeinode < |inodes| && view.files[freeinode].blocks == map[]
               && view.files[freeinode].size == 0
      requires !view.files[freeinode].ind
      modifies this
      ensures Valid() && inum == old(freeinode) && freeinode == inum + 1 && |inodes| == |old(inodes)|
              && freeblock == old(freeblock)
      ensures view == WithFile(old(view), inum, File(kind, 1, 0, false, map[]))
    {
      inum := freeinode;
      freeinode := freeinode + 1;
      ghost var s, v := S(), view;
      assert FileRep(s, inum, v.files[inum]);
      EmptyInode(s, v, inum);
      RepSetStat(s, v, inum, kind, 1, 0);
      view := WithFile(v, inum, v.files[inum].(kind := kind, nlink := 1, size := 0));
      inodes := inodes[inum := Inode(kind, 1, 0, NoBlocks())];
      assert S() == SetStat(s, inum, kind, 1, 0);
    }

    /** freeblock++. */
    method Grab() returns (b: nat)
      requires Core() && freeblock < size
      modifies this
      ensures b == old(freeblock) && b < |old(owner)| && S() == Take(old(S()), b) && b in old(view).free && b != 0
      ensures Core() && freeblock == b + 1 && inodes == old(inodes) && disk == old(disk) && freeinode == old(freeinode)
      ensures view == old(view).(free := old(view).free - {b}, hands := old(view).hands + {b}) && b !in old(view).hands
    {
      b := freeblock;
      RepTake(S(), view, b);
      ghost var s := S();
      freeblock := freeblock + 1;
      owner := owner[b := Hand];
      view := view.(free := view.free - {b}, hands := view.hands + {b});
      assert Bits(size, freeblock) == Bits(size, b)[b := true];
      assert disk == s.disk[b := Zero()];
      assert S() == Take(s, b);
    }

    /** The direct half of the block lookup in iappend. */
    method MapDirect(i: nat, k: nat) returns (x: nat, fits: bool)
      requires Core() && i < |view.files| && k < NDIRECT
      modifies this
      ensures Core() && freeinode == old(freeinode) && OnlyBlocks(old(view), view, i) && SizesKept(old(inodes), inodes)
      ensures fits ==> x == BlockAt(S(), i, k) && Added(old(view).files[i].blocks, view.files[i].blocks, k)
      ensures !fits ==> freeblock == size
      ensures freeblock <= old(freeblock) + 1
    {
      BlockHere(S(), view, i, k);
      x := inodes[i].addrs[k];
      if x != 0 {
        return x, true;
      }
      if freeblock == size {
        return 0, false;
      }
      x := Grab();
      RepLinkDirect(S(), view, i, k, x);
      inodes := inodes[i := inodes[i].(addrs := inodes[i].addrs[k := x])];
      owner := owner[x := At(i, k)];
      view := WithFile(view, i, Linked(view.files[i], k, disk[x])).(hands := view.hands - {x});
      fits := true;
    }

    /** The indirect block, allocated if missing. */
    method MapIndirect(i: nat) returns (ind: nat, fits: bool)
      requires Core() && i < |view.files|
      modifies this
      ensures Core() && freeinode == old(freeinode) && OnlyBlocks(old(view), view, i) && SizesKept(old(inodes), inodes)
      ensures view.files[i].blocks == old(view).files[i].blocks
      ensures fits ==> ind == IndOf(S(), i) && ind != 0
      ensures !fits ==> freeblock == size
      ensures freeblock <= old(freeblock) + 1
    {
      BlockHere(S(), view, i, 0);
      ind := inodes[i].addrs[NDIRECT];
      if ind != 0 {
        return ind, true;
      }
      if freeblock == size {
        return 0, false;
      }
      ind := Grab();
      RepLinkInd(S(), view, i, ind);
      inodes := inodes[i := inodes[i].(addrs := inodes[i].addrs[NDIRECT := ind])];
      owner := owner[ind := Ind(i)];
      view := WithFile(view, i, view.files[i].(ind := true)).(hands := view.hands - {ind});
      fits := true;
    }

    /** Entry `j` of the indirect block. */
    method MapLeaf(i: nat, j: nat, ind: nat) returns (x: nat, fits: bool)
      requires Core() && i < |view.files| && j < NINDIRECT && ind == IndOf(S(), i) && ind != 0
      modifies this
      ensures Core() && freeinode == old(freeinode) && OnlyBlocks(old(view), view, i) && SizesKept(old(inodes), inodes)
      ensures fits ==>
                x == BlockAt(S(), i, NDIRECT + j) && Added(old(view).files[i].blocks, view.files[i].blocks, NDIRECT + j)
      ensures !fits ==> freeblock == size
      ensures freeblock <= old(freeblock) + 1
    {
      BlockHere(S(), view, i, NDIRECT + j);
      x := Word(disk[ind], j);
      if x != 0 {
        return x, true;
      }
      if freeblock == size {
        return 0, false;
      }
      x := NewLeaf(i, j, ind);
      fits := true;
    }

    /** A new block behind the indirect block. */
    method NewLeaf(i: nat, j: nat, ind: nat) returns (x: nat)
      requires Core() && i < |view.files| && j < NINDIRECT && ind == IndOf(S(), i) && ind != 0 && freeblock < size
      requires NDIRECT + j !in view.files[i].blocks
      modifies this
      ensures Core() && freeinode == old(freeinode) && inodes == old(inodes) && x == BlockAt(S(), i, NDIRECT + j)
      ensures freeblock == old(freeblock) + 1
      ensures view == WithFile(old(view), i, Linked(old(view).files[i], NDIRECT + j, Zero())).(free :=
          old(view).free - {x})
    {
      ghost var h := view.hands;
      x := Grab();
      LinkNew(i, j, ind, x);
      assert h + {x} - {x} == h;
    }

    /** The entry for a block in hand. */
    method LinkNew(i: nat, j: nat, ind: nat, x: nat)
      requires Core() && i < |view.files| && j < NINDIRECT && ind == IndOf(S(), i) && ind != 0
      requires NDIRECT + j !in view.files[i].blocks && x in view.hands && x < |disk| && disk[x] == Zero()
      modifies this
      ensures Core() && freeinode == old(freeinode) && inodes == old(inodes) && freeblock == old(freeblock)
      ensures view == WithFile(old(view), i, Linked(old(view).files[i], NDIRECT + j, Zero())).(hands :=
          old(view).hands - {x})
      ensures BlockAt(S(), i, NDIRECT + j) == x
    {
      ghost var s, v := S(), view;
      LeafLinked(s, v, i, j, x, freeblock);
      disk := disk[ind := SetWord(disk[ind], j, x)];
      owner := owner[x := At(i, NDIRECT + j)];
      view := WithFile(v, i, Linked(v.files[i], NDIRECT + j, Zero())).(hands := v.hands - {x});
      assert S() == LinkLeaf(s, i, j, x);
    }

    method MapBlock(i: nat, k: nat) returns (x: nat, fits: bool)
      requires Core() && i < |view.files| && k < MAXFILE
      modifies this
      ensures Core() && freeinode == old(freeinode) && OnlyBlocks(old(view), view, i) && SizesKept(old(inodes), inodes)
      ensures fits ==> x == BlockAt(S(), i, k) && Added(old(view).files[i].blocks, view.files[i].blocks, k)
      ensures !fits ==> freeblock == size
      ensures freeblock <= old(freeblock) + 2
    {
      if k < NDIRECT {
        x, fits := MapDirect(i, k);
      } else {
        x, fits := MapBehind(i, k - NDIRECT);
        assert NDIRECT + (k - NDIRECT) == k;
      }
    }

    /** A block behind the indirect block. */
    method MapBehind(i: nat, j: nat) returns (x: nat, fits: bool)
      requires Core() && i < |view.files| && j < NINDIRECT
      modifies this
      ensures Core() && freeinode == old(freeinode) && OnlyBlocks(old(view), view, i) && SizesKept(old(inodes), inodes)
      ensures fits ==>
                x == BlockAt(S(), i, NDIRECT + j) && Added(old(view).files[i].blocks, view.files[i].blocks, NDIRECT + j)
      ensures !fits ==> freeblock == size
      ensures freeblock <= old(freeblock) + 2
    {
      ghost var v := view;
      var ind;
      ind, fits := MapIndirect(i);
      if !fits {
        return 0, false;
      }
      ghost var a := view;
      x, fits := MapLeaf(i, j, ind);
      OnlyTrans(v, a, view, i);
    }

    /** One round of iappend: the block, and the bytes into it. */
    method AppendBlock(i: nat, off: nat, part: seq<Byte>) returns (fits: bool)
      requires Core() && i < |view.files| && off / BSIZE < MAXFILE && off % BSIZE + |part| <= BSIZE
      modifies this
      ensures Core() && freeinode == old(freeinode) && OnlyBlocks(old(view), view, i) && SizesKept(old(inodes), inodes)
      ensures fits ==> Overwritten(old(view).files[i].blocks, view.files[i].blocks, off, part)
      ensures fits ==> view.files[i].blocks.Keys == old(view).files[i].blocks.Keys + {off / BSIZE}
      ensures !fits ==> freeblock == size
      ensures freeblock <= old(freeblock) + 2
    {
      var k := off / BSIZE;
      ghost var v := view;
      ghost var bl := v.files[i].blocks;
      ViewGood(S(), v, i);
      var x;
      x, fits := MapBlock(i, k);
      if !fits {
        return;
      }
      ghost var a := view;
      ghost var c := a.files[i].blocks;
      if k in bl {
        OverwrittenNot(bl, off);
      } else {
        ZeroFillsHole(bl, k);
      }
      ViewGood(S(), a, i);
      SplicedBytes(c, off, part);
      PutBytes(i, k, x, off % BSIZE, part);
      OverwrittenAfter(bl, c, view.files[i].blocks, off, part);
      OnlyTrans(v, a, view, i);
    }

    method PutBytes(i: nat, k: nat, x: nat, o: nat, part: seq<Byte>)
      requires Core() && i < |view.files| && k in view.files[i].blocks && x == BlockAt(S(), i, k) && k < MAXFILE
      requires o + |part| <= BSIZE && |view.files[i].blocks[k]| == BSIZE
      modifies this
      ensures Core() && freeinode == old(freeinode) && inodes == old(inodes) && freeblock == old(freeblock)
      ensures view == WithFile(old(view), i, Linked(old(view).files[i], k, Splice(old(view).files[i].blocks[k], o,
          part)))
    {
      ghost var s, v := S(), view;
      assert FileRep(s, i, v.files[i]);
      BlockHere(s, v, i, k);
      DataIsNotFree(s, v, i, k, freeblock);
      ghost var z := Splice(v.files[i].blocks[k], o, part);
      RepPoke(s, v, i, k, z);
      disk := disk[x := Splice(disk[x], o, part)];
      view := WithFile(v, i, Linked(v.files[i], k, z));
      assert S() == Poke(s, x, z);
    }

    /** One turn of the loop of iappend, for one more block. */
    method AppendTurn(i: nat, off: nat, data: seq<Byte>, done: nat, ghost v: View, ghost first: nat, ghost next: nat)
      returns (m: nat, fits: bool)
      requires Core() && i < |v.files| && Written(v, view, i, off, data, done, first, next)
               && Pos(off, done, |data|, first, next)
      requires done < |data|
      modifies this
      ensures Core() && freeinode == old(freeinode) && SizesKept(old(inodes), inodes)
      ensures fits ==> 0 < m && done + m <= |data| && Written(v, view, i, off, data, done + m, first, next + 1)
      ensures fits ==> Pos(off, done + m, |data|, first, next + 1)
      ensures !fits ==> freeblock == size || off + |data| > MAXBYTES
      ensures freeblock <= old(freeblock) + 2 && next * BSIZE < off + |data|
    {
      var fbn := (off + done) / BSIZE;
      m := Chunk(off + done, |data| - done);
      PosNext(off, done, |data|, first, next);
      if fbn >= MAXFILE {
        return m, false;
      }
      ghost var a := view;
      fits := AppendBlock(i, off + done, data[done..done + m]);
      OnlyTrans(v, a, view, i);
      if fits {
        assert data[..done] + data[done..done + m] == data[..done + m];
        OverwrittenMore(v.files[i].blocks, a.files[i].blocks, view.files[i].blocks, off, data[..done],
                        data[done..done + m]);
      }
    }

    /** The loop of iappend. */
    method AppendLoop(i: nat, off: nat, data: seq<Byte>, ghost first: nat) returns (fits: bool, ghost next: nat)
      requires Core() && i < |view.files| && Pos(off, 0, |data|, first, first)
      modifies this
      ensures Core() && freeinode == old(freeinode) && SizesKept(old(inodes), inodes)
      ensures fits ==>
                Written(old(view), view, i, off, data, |data|, first, next) && Pos(off, |data|, |data|, first, next)
      ensures !fits ==> freeblock == size || off + |data| > MAXBYTES
      ensures freeblock <= old(freeblock) + 2 * BlocksOf(off, |data|)
    {
      ghost var v := view;
      WrittenStart(S(), v, i, off, data, first);
      next := first;
      var done := 0;
      fits := true;
      while done < |data|
        invariant Core() && freeinode == old(freeinode) && SizesKept(old(inodes), inodes)
        invariant Written(v, view, i, off, data, done, first, next) && Pos(off, done, |data|, first, next)
        invariant freeblock <= old(freeblock) + 2 * (next - first)
      {
        var m;
        m, fits := AppendTurn(i, off, data, done, v, first, next);
        if !fits {
          FirstIs(off, first);
          LastBlock(off, |data|, next + 1);
          return;
        }
        next := next + 1;
        done := done + m;
      }
      FirstIs(off, first);
      LastBlock(off, |data|, next);
      fits := true;
    }

    /** iappend: the file grows by `data`; no other file changes. Fails only when the
        image or the file is full. */
    method Iappend(i: nat, data: seq<Byte>) returns (fits: bool)
      requires Valid() && i < |view.files|
      modifies this
      ensures fits ==>
                Valid() && freeinode == old(freeinode) && OnlyFile(old(view), view, i) && |inodes| == |old(inodes)|
      ensures fits ==> Appended(old(view).files[i], view.files[i], data)
      ensures !fits ==> freeblock == size || old(view).files[i].size + |data| > MAXBYTES
      ensures freeblock <= old(freeblock) + 2 * BlocksOf(old(view).files[i].size, |data|)
    {
      ghost var v := view;
      assert FileRep(S(), i, v.files[i]);
      var off := inodes[i].size;
      PosStart(off, |data|);
      ghost var next;
      fits, next := AppendLoop(i, off, data, off / BSIZE);
      if fits {
        SetSize(i, off + |data|);
        ExactAfter(v.files[i], view.files[i], data, off / BSIZE, next);
      }
    }

    /** The new size of the file. */
    method SetSize(i: nat, n: nat)
      requires Core() && i < |view.files|
      modifies this
      ensures Core() && freeinode == old(freeinode) && freeblock == old(freeblock) && |inodes| == |old(inodes)|
      ensures view == WithFile(old(view), i, old(view).files[i].(size := n))
    {
      assert FileRep(S(), i, view.files[i]);
      RepSetStat(S(), view, i, inodes[i].kind, inodes[i].nlink, n);
      view := WithFile(view, i, view.files[i].(size := n));
      inodes := inodes[i := inodes[i].(size := n)];
    }

    /** The file `i` after `done` bytes of `data`. */
    ghost predicate Copying(v: View, i: nat, data: seq<Byte>, done: nat, start: nat)
      reads this
    {
      && i < |v.files| && OnlyFile(v, view, i) && done <= |data| && Appended(v.files[i], view.files[i], data[..done])
      && (done < |data| ==> done % BSIZE == 0) && freeblock <= start + 2 * NBlocks(done)
    }

    /** One block of a file. */
    method AppendChunk(i: nat, data: seq<Byte>, done: nat, ghost v: View, ghost start: nat)
      returns (cc: nat, fits: bool)
      requires Valid() && Copying(v, i, data, done, start) && done < |data| && v.files[i].size == 0
      modifies this
      ensures 0 < cc && done + cc <= |data|
      ensures fits ==>
                Valid() && freeinode == old(freeinode) && |inodes| == |old(inodes)|
                && Copying(v, i, data, done + cc, start)
      ensures !fits ==> freeblock == size || |data| > MAXBYTES
      ensures freeblock <= start + 2 * NBlocks(|data|)
    {
      cc := Min(BSIZE, |data| - done);
      ghost var a := view;
      AppendedSize(v.files[i], a.files[i], data[..done]);
      BlockAfter(done, |data|);
      fits := Iappend(i, data[done..done + cc]);
      if fits {
        OnlyFileTrans(v, a, view, i);
        AppendedMore(v.files[i], a.files[i], view.files[i], data, done, cc);
      }
    }

    /** The loop of main that copies a file in blocks. */
    method AppendFile(i: nat, data: seq<Byte>) returns (fits: bool)
      requires Valid() && i < |view.files| && view.files[i].size == 0
      modifies this
      ensures fits ==>
                Valid() && freeinode == old(freeinode) && OnlyFile(old(view), view, i) && |inodes| == |old(inodes)|
      ensures fits ==> Appended(old(view).files[i], view.files[i], data)
      ensures !fits ==> freeblock == size || |data| > MAXBYTES
      ensures freeblock <= old(freeblock) + 2 * NBlocks(|data|)
    {
      ghost var v := view;
      var done := 0;
      assert data[..0] == [];
      while done < |data|
        invariant Valid() && freeinode == old(freeinode) && |inodes| == |old(inodes)| && done <= |data|
        invariant Copying(v, i, data, done, old(freeblock))
      {
        var cc;
        cc, fits := AppendChunk(i, data, done, v, old(freeblock));
        if !fits {
          return;
        }
        done := done + cc;
      }
      assert data[..|data|] == data;
      fits := true;
    }

    /** The fix of the root directory's size at the end of main. */
    method RoundRoot()
      requires Valid() && ROOTINO < |view.files|
      modifies this
      ensures Core() && freeblock == old(freeblock) && view.hands == {}
      ensures view == WithFile(old(view), ROOTINO, Rounded(old(view).files[ROOTINO]))
    {
      assert FileRep(S(), ROOTINO, view.files[ROOTINO]);
      var off := inodes[ROOTINO].size;
      off := (off / BSIZE + 1) * BSIZE;
      RepSetStat(S(), view, ROOTINO, inodes[ROOTINO].kind, inodes[ROOTINO].nlink, off);
      inodes := inodes[ROOTINO := inodes[ROOTINO].(size := off)];
      view := WithFile(view, ROOTINO, view.files[ROOTINO].(size := off));
    }
  }

  lemma FirstIs(off: nat, first: nat)
    requires first * BSIZE <= off < (first + 1) * BSIZE
    ensures first == off / BSIZE
  {
  }

  lemma AppendedSize(f: File, g: File, data: seq<Byte>)
    requires Appended(f, g, data)
    ensures g.size == f.size + |data|
  {
  }

  lemma AppendedMore(f: File, g: File, h: File, data: seq<Byte>, done: nat, cc: nat)
    requires done + cc <= |data| && Appended(f, g, data[..done]) && Appended(g, h, data[done..done + cc])
    ensures Appended(f, h, data[..done + cc])
  {
    assert data[..done] + data[done..done + cc] == data[..done + cc];
  }

  /** One more block of a file of `n` bytes. */
  lemma BlockAfter(done: nat, n: nat)
    requires done % BSIZE == 0 && done < n
    ensures var cc := Min(BSIZE, n - done);
            && BlocksOf(done, cc) == 1 && NBlocks(done + cc) == NBlocks(done) + 1 <= NBlocks(n)
            && (done + cc < n ==> (done + cc) % BSIZE == 0)
  {
  }

  /** A directory entry is in one block. */
  lemma DirentBlock(k: nat)
    ensures BlocksOf(DIRENT * k, DIRENT) == 1
  {
  }

  ghost function Rounded(f: File): File {
    f.(size := (f.size / BSIZE + 1) * BSIZE)
  }

  /** Rounding the size up leaves no hole unless the size was a whole number of blocks
      already. */
  lemma RoundedHole(f: File)
    requires Exact(f)
    ensures GoodFile(f)
    ensures GoodFile(Rounded(f)) <==> f.size % BSIZE != 0
  {
    PosIs(f.size);
    var q := f.size / BSIZE;
    if f.size > 0 {
      assert NBlocks(f.size) - 1 in f.blocks;
    }
    if f.size % BSIZE == 0 {
      assert NBlocks(f.size) == q && NBlocks((q + 1) * BSIZE) == q + 1;
      assert q !in f.blocks;
    } else {
      assert NBlocks(f.size) == q + 1 && NBlocks((q + 1) * BSIZE) == q + 1;
    }
  }

  /** mkfs's balloc: the first `n` bits, which it insists on finding in one block. */
  method WriteBitmap(size: nat, n: nat) returns (bits: seq<bool>)
    requires n <= size && n < BPB
    ensures bits == Bits(size, n)
  {
    bits := seq(size, _ => false);
    for i := 0 to n
      invariant |bits| == size && forall b :: 0 <= b < size ==> bits[b] == (b < i)
    {
      bits := bits[i := true];
    }
  }

  const DOT: seq<Byte> := [46]
  const DOTDOT: seq<Byte> := [46, 46]

  ghost predicate NamesOk(names: seq<seq<Byte>>) {
    forall k :: 0 <= k < |names| ==> |names[k]| <= DIRSIZ
  }

  /** The root directory: itself twice, then one entry for each file. */
  ghost function Directory(names: seq<seq<Byte>>): (d: seq<Byte>)
    requires NamesOk(names)
    ensures |d| == DIRENT * (2 + |names|)
  {
    if names == [] then Dirent(ROOTINO, DOT) + Dirent(ROOTINO, DOTDOT)
    else Directory(names[..|names| - 1]) + Dirent(1 + |names|, names[|names| - 1])
  }

  /** Entry `k` of a directory as the kernel reads it: a little-endian inode number, and a name
      that ends at its first zero or after 14 bytes. */
  ghost predicate EntryIs(d: seq<Byte>, k: nat, inum: nat, name: seq<Byte>) {
    && 16 * (k + 1) <= |d| && |name| <= 14
    && (d[16 * k] as int) + 0x100 * (d[16 * k + 1] as int) == inum
    && d[16 * k + 2..16 * k + 2 + |name|] == name
    && forall j :: 16 * k + 2 + |name| <= j < 16 * (k + 1) ==> d[j] == 0
  }

  lemma DirentIs(inum: nat, name: seq<Byte>)
    requires |name| <= DIRSIZ && inum < 0x1_0000
    ensures EntryIs(Dirent(inum, name), 0, inum, name)
  {
  }

  lemma EntryStays(d: seq<Byte>, e: seq<Byte>, k: nat, inum: nat, name: seq<Byte>)
    requires EntryIs(d, k, inum, name)
    ensures EntryIs(d + e, k, inum, name)
  {
    assert (d + e)[16 * k + 2..16 * k + 2 + |name|] == d[16 * k + 2..16 * k + 2 + |name|];
  }

  lemma EntryAdded(d: seq<Byte>, e: seq<Byte>, k: nat, inum: nat, name: seq<Byte>)
    requires |d| == 16 * k && EntryIs(e, 0, inum, name)
    ensures EntryIs(d + e, k, inum, name)
  {
    assert (d + e)[16 * k + 2..16 * k + 2 + |name|] == e[2..2 + |name|];
    forall j | 16 * k + 2 + |name| <= j < 16 * (k + 1)
      ensures (d + e)[j] == 0
    {
      assert (d + e)[j] == e[j - 16 * k];
    }
  }

  /** The root directory names itself twice and every file by its inode. */
  lemma {:induction false} DirectoryEntries(names: seq<seq<Byte>>, k: nat)
    requires NamesOk(names) && k < 2 + |names| < 0x1_0000
    ensures EntryIs(Directory(names), k, if k < 2 then 1 else k, if k == 0 then [46] else if k == 1 then [46, 46]
              else names[k - 2])
  {
    var n := |names|;
    if n == 0 {
      DirentIs(ROOTINO, DOT);
      DirentIs(ROOTINO, DOTDOT);
      if k == 0 {
        EntryStays(Dirent(ROOTINO, DOT), Dirent(ROOTINO, DOTDOT), 0, 1, [46]);
      } else {
        EntryAdded(Dirent(ROOTINO, DOT), Dirent(ROOTINO, DOTDOT), 1, 1, [46, 46]);
      }
    } else {
      var d, e := Directory(names[..n - 1]), Dirent(1 + n, names[n - 1]);
      if k == 1 + n {
        DirentIs(1 + n, names[n - 1]);
        EntryAdded(d, e, k, k, names[n - 1]);
      } else {
        DirectoryEntries(names[..n - 1], k);
        EntryStays(d, e, k, if k < 2 then 1 else k, if k == 0 then [46] else if k == 1 then [46, 46] else names[k - 2]);
      }
    }
  }

  const EMPTYFILE := File(0, 0, 0, false, map[])

  /** main has made the root directory and the first |files| files. */
  ghost predicate Built(v: View, names: seq<seq<Byte>>, files: seq<seq<Byte>>) {
    && NamesOk(names) && |names| == |files| && 2 + |files| <= |v.files| && AllExact(v)
    && Contents(v.files[ROOTINO]) == Directory(names)
    && (forall i :: 2 <= i < 2 + |files| ==> v.files[i].kind == 2 && Contents(v.files[i]) == files[i - 2])
    && (forall i :: 2 + |files| <= i < |v.files| ==> v.files[i] == EMPTYFILE)
  }

  /** As many blocks as a file and its directory entry can take, with indirect blocks. */
  function FileNeed(data: seq<Byte>): (n: nat) { 2 + 2 * NBlocks(|data|) }

  function ImageNeed(files: seq<seq<Byte>>): (n: nat) {
    if files == [] then 4 else ImageNeed(files[..|files| - 1]) + FileNeed(files[|files| - 1])
  }

  /** The root directory or a file is larger than an inode can hold. */
  ghost predicate TooLarge(files: seq<seq<Byte>>) {
    DIRENT * (2 + |files|) > MAXBYTES || exists k :: 0 <= k < |files| && |files[k]| > MAXBYTES
  }

  /** One file of main. */
  method AddFile(b: Builder, name: seq<Byte>, data: seq<Byte>, ghost names: seq<seq<Byte>>, ghost files: seq<seq<Byte>>)
    returns (fits: bool)
    requires b.Valid() && b.freeinode == 2 + |files| && Built(b.view, names, files) && 2 + |files| < |b.view.files|
             && |name| <= DIRSIZ
    modifies b
    ensures fits ==> b.Valid() && b.freeinode == old(b.freeinode) + 1 && |b.view.files| == |old(b.view.files)|
    ensures fits ==> Built(b.view, names + [name], files + [data])
    ensures !fits ==> b.freeblock == b.size || DIRENT * (3 + |files|) > MAXBYTES || |data| > MAXBYTES
    ensures b.freeblock <= old(b.freeblock) + FileNeed(data)
  {
    ghost var v0 := b.view;
    var inum := b.Ialloc(2);
    ghost var v1 := b.view;
    assert |Contents(v1.files[ROOTINO])| == v1.files[ROOTINO].size == DIRENT * (2 + |files|);
    DirentBlock(2 + |files|);
    fits := b.Iappend(ROOTINO, Dirent(inum, name));
    if !fits {
      return;
    }
    ghost var v2 := b.view;
    fits := b.AppendFile(inum, data);
    if !fits {
      return;
    }
    BuiltMore(v0, v1, v2, b.view, names, files, name, data);
  }

  lemma BuiltMore(v0: View, v1: View, v2: View, v3: View, names: seq<seq<Byte>>, files: seq<seq<Byte>>,
                  name: seq<Byte>, data: seq<Byte>)
    requires Built(v0, names, files) && 2 + |files| < |v0.files| && |name| <= DIRSIZ
    requires v1 == WithFile(v0, 2 + |files|, File(2, 1, 0, false, map[]))
    requires OnlyFile(v1, v2, ROOTINO) && Appended(v1.files[ROOTINO], v2.files[ROOTINO], Dirent(2 + |files|, name))
    requires OnlyFile(v2, v3, 2 + |files|) && Appended(v2.files[2 + |files|], v3.files[2 + |files|], data)
             && AllExact(v3)
    ensures Built(v3, names + [name], files + [data])
  {
    var ns, fs := names + [name], files + [data];
    assert ns[..|ns| - 1] == names && ns[|ns| - 1] == name;
    assert Directory(ns) == Directory(names) + Dirent(2 + |files|, name);
    var n := 2 + |files|;
    assert v2.files[n] == v1.files[n] && Contents(v1.files[n]) == [];
    assert forall i :: 0 <= i < |v0.files| && i != n && i != ROOTINO ==> v3.files[i] == v0.files[i];
    forall i | 2 <= i < 2 + |fs|
      ensures v3.files[i].kind == 2 && Contents(v3.files[i]) == fs[i - 2]
    {
      if i != n {
        assert v3.files[i] == v0.files[i];
      }
    }
  }

  /** `g` is `f` with `data` at the end. */
  ghost predicate Appended(f: File, g: File, data: seq<Byte>) {
    && g.kind == f.kind && g.nlink == f.nlink && GoodBlocks(f.blocks) && GoodBlocks(g.blocks)
    && Contents(g) == Contents(f) + data
  }

  lemma BlocksReached(size: nat, n: nat, first: nat, next: nat, k: nat)
    requires Pos(size, n, n, first, next)
    ensures k < NBlocks(size + n) <==> k < NBlocks(size) || first <= k < next
  {
    if n > 0 {
      assert (next - 1) * BSIZE < size + n <= next * BSIZE;
      BlockCount(size + n, next);
      assert first <= NBlocks(size) <= next;
    }
  }

  lemma BlockCount(x: nat, q: nat)
    requires q > 0 && (q - 1) * BSIZE < x <= q * BSIZE
    ensures NBlocks(x) == q
  {
  }

  lemma ExactAfter(f: File, g: File, data: seq<Byte>, first: nat, next: nat)
    requires Exact(f) && Covered(f.blocks, g.blocks, first, next) && Pos(f.size, |data|, |data|, first, next)
    requires Overwritten(f.blocks, g.blocks, f.size, data[..|data|]) && g.size == f.size + |data|
    requires g.kind == f.kind && g.nlink == f.nlink
    ensures Exact(g) && Appended(f, g, data)
  {
    forall k: nat
      ensures k in g.blocks <==> k < NBlocks(g.size)
    {
      BlocksReached(f.size, |data|, first, next, k);
    }
    WroteIsSplice(f, g, f.size, data, |data|);
    assert data[..|data|] == data;
  }

  /** Block `k` is there, and a new one is zero. */
  ghost predicate Added(bl: Blocks, c: Blocks, k: nat) {
    k in c && (if k in bl then c == bl else c == Put(bl, k, Zero()))
  }

  ghost predicate SizesKept(a: seq<Inode>, b: seq<Inode>) {
    |b| == |a| && forall i :: 0 <= i < |a| ==> b[i].size == a[i].size
  }

  lemma DataIsNotFree(s: Fs, v: View, i: nat, k: nat, n: nat)
    requires Rep(s, v) && i < |v.files| && k < MAXFILE && BlockAt(s, i, k) != 0
    requires forall b: nat :: b < s.size ==> (b in v.free <==> n <= b)
    ensures BlockAt(s, i, k) < n && BlockAt(s, i, k) < s.size
  {
    assert InodeOk(s, i);
    assert BlockAt(s, i, k) !in v.free;
  }

  lemma LeafLinked(s: Fs, v: View, i: nat, j: nat, x: nat, n: nat)
    requires CoreOf(s, v, n) && i < |v.files| && j < NINDIRECT && IndOf(s, i) != 0
    requires NDIRECT + j !in v.files[i].blocks && x in v.hands && x < |s.disk| && s.disk[x] == Zero()
    ensures x < |s.owner| && IndOf(s, i) < |s.disk| && |s.disk[IndOf(s, i)]| == BSIZE
    ensures CoreOf(LinkLeaf(s, i, j, x), WithFile(v, i, Linked(v.files[i], NDIRECT + j, Zero())).(hands :=
        v.hands - {x}), n)
    ensures BlockAt(LinkLeaf(s, i, j, x), i, NDIRECT + j) == x
  {
    BlockHere(s, v, i, NDIRECT + j);
    RepLinkLeaf(s, v, i, j, x);
    LinkLeafInv(s, i, j, x);
    LeafIsNotFree(s, v, i, n);
  }

  lemma LeafIsNotFree(s: Fs, v: View, i: nat, n: nat)
    requires Rep(s, v) && i < |v.files| && IndOf(s, i) != 0
    requires forall b: nat :: b < s.size ==> (b in v.free <==> n <= b)
    ensures IndOf(s, i) < n && IndOf(s, i) < s.size
  {
    assert InodeOk(s, i);
    assert IndOf(s, i) !in v.free;
  }

  /** An inode without blocks has no block numbers. */
  lemma EmptyInode(s: Fs, v: View, i: nat)
    requires Rep(s, v) && i < |v.files| && v.files[i].blocks == map[] && !v.files[i].ind
    ensures s.inodes[i].addrs == NoBlocks()
  {
    assert FileRep(s, i, v.files[i]);
    forall k: nat | k < NDIRECT + 1
      ensures s.inodes[i].addrs[k] == 0
    {
      if k < NDIRECT {
        assert BlockAt(s, i, k) == s.inodes[i].addrs[k];
      }
    }
  }

  lemma ZeroImage(s: Fs, v: View)
    requires Shape(s) && s.used == Bits(s.size, s.nmeta)
    requires forall i :: 0 <= i < |s.inodes| ==> s.inodes[i] == Inode(0, 0, 0, NoBlocks())
    requires forall b :: 0 <= b < s.size ==> s.owner[b] == if b < s.nmeta then Meta else Free
    requires |v.files| == |s.inodes| && (forall i :: 0 <= i < |v.files| ==> v.files[i] == EMPTYFILE)
    requires v.hands == {} && v.free == FreeSet(s)
    ensures Rep(s, v) && AllExact(v)
  {
    forall i: nat, k: nat | i < |s.inodes| && k < MAXFILE
      ensures BlockAt(s, i, k) == 0
    {
    }
    forall b: nat | b < s.size
      ensures BlockOk(s, b)
    {
    }
    forall i: nat | i < |s.inodes|
      ensures InodeOk(s, i)
    {
    }
    assert HandSet(s) == {};
    forall i: nat | i < |v.files|
      ensures FileRep(s, i, v.files[i])
    {
    }
  }

  /** main: the root directory before any file. */
  method StartImage(size: nat, nmeta: nat, ninodes: nat) returns (b: Builder, fits: bool)
    requires 1 <= nmeta <= size < 0x1_0000_0000 && 2 <= ninodes
    ensures fresh(b) && b.size == size && b.nmeta == nmeta
    ensures fits ==> b.Valid() && b.freeinode == 2 && |b.view.files| == ninodes && Built(b.view, [], [])
    ensures b.freeblock <= nmeta + 4 && (!fits ==> b.freeblock == size)
  {
    b := new Builder(size, nmeta, ninodes);
    var root := b.Ialloc(1);
    ghost var v := b.view;
    DirentBlock(0);
    DirentBlock(1);
    fits := b.Iappend(root, Dirent(root, DOT));
    if fits {
      AppendedSize(v.files[ROOTINO], b.view.files[ROOTINO], Dirent(root, DOT));
      fits := b.Iappend(root, Dirent(root, DOTDOT));
      if fits {
        assert Contents(v.files[ROOTINO]) == [];
        assert Contents(b.view.files[ROOTINO]) == Directory([]);
      }
    }
  }

  /** The inodes that the inode blocks of mkfs hold. An inode beyond them would be written
      over the bitmap or the data behind it. */
  function Slots(ninodes: nat): nat { (ninodes / IPB + 1) * IPB }

  /** mkfs: with enough inodes, and enough blocks in one bitmap block, for files that an inode
      can hold, the volume is in order and holds them. It has no holes, so that everything
      proved of such volumes holds of it, exactly when the directory does not fill its last
      block. */
  method Mkfs(size: nat, nmeta: nat, ninodes: nat, inodestart: nat, bmapstart: nat, names: seq<seq<Byte>>,
              files: seq<seq<Byte>>)
    returns (vol: Volume?, ghost root: File)
    requires 1 <= nmeta <= size < 0x1_0000_0000 && NamesOk(names) && |names| == |files|
    ensures vol != null ==>
              && vol.Valid() && vol.dinodes == vol.inodes && vol.view.hands == {}
              && |vol.view.files| == Slots(ninodes) >= 2 + |files|
    ensures vol != null ==> forall i :: 2 <= i < 2 + |files| ==>
              GoodFile(vol.view.files[i]) && Contents(vol.view.files[i]) == files[i - 2]
    ensures vol != null ==>
              vol.view.files[ROOTINO] == Rounded(root) && Exact(root) && Contents(root) == Directory(names)
    ensures vol != null ==> (GoodView(vol.view) <==> DIRENT * (2 + |files|) % BSIZE != 0)
    ensures vol == null ==>
              || size <= nmeta + ImageNeed(files) || BPB <= nmeta + ImageNeed(files) || TooLarge(files)
              || 2 + |files| > Slots(ninodes)
  {
    root := EMPTYFILE;
    if 2 + |files| > Slots(ninodes) {
      return null, root;
    }
    var b, fits := StartImage(size, nmeta, Slots(ninodes));
    NeedGrows(files, 0);
    if !fits {
      return null, root;
    }
    fits := AddFiles(b, names, files);
    if !fits {
      return null, root;
    }
    root := b.view.files[ROOTINO];
    if b.freeblock >= BPB {
      return null, root;
    }
    vol := Finish(b, inodestart, bmapstart, names, files);
  }

  lemma {:induction false} EmptyNeed(files: seq<seq<Byte>>)
    requires forall k :: 0 <= k < |files| ==> files[k] == []
    ensures ImageNeed(files) == 4 + 2 * |files|
  {
    if files != [] { EmptyNeed(files[..|files| - 1]); }
  }

  /** With 62 files the directory fills a block, and the image has a hole: an image of 2000
      blocks, 47 of them for metadata, as in xv6, and empty files. */
  method HoleImage() returns (vol: Volume)
    ensures vol.Valid() && |vol.view.files| == 208 && !GoodView(vol.view)
    ensures var root := vol.view.files[ROOTINO]; root.size == 2 * BSIZE && 0 in root.blocks && 1 !in root.blocks
  {
    var names: seq<seq<Byte>> := seq(62, _ => [65]);
    var files: seq<seq<Byte>> := seq(62, _ => []);
    EmptyNeed(files);
    var v: Volume?;
    ghost var root;
    v, root := Mkfs(2000, 47, 200, 33, 46, names, files);
    vol := v;
  }

  lemma {:induction false} NeedGrows(files: seq<seq<Byte>>, k: nat)
    requires k <= |files|
    ensures ImageNeed(files[..k]) <= ImageNeed(files)
    decreases |files| - k
  {
    if k == |files| {
      assert files[..k] == files;
    } else {
      assert files[..k + 1][..k] == files[..k];
      NeedGrows(files, k + 1);
    }
  }

  lemma NeedNext(files: seq<seq<Byte>>, k: nat)
    requires k < |files|
    ensures ImageNeed(files[..k]) + FileNeed(files[k]) == ImageNeed(files[..k + 1]) <= ImageNeed(files)
  {
    assert files[..k + 1][..k] == files[..k];
    NeedGrows(files, k + 1);
  }

  lemma OneMore(s: seq<seq<Byte>>, k: nat)
    requires k < |s|
    ensures s[..k] + [s[k]] == s[..k + 1]
  {
  }

  /** The loop of main. */
  method AddFiles(b: Builder, names: seq<seq<Byte>>, files: seq<seq<Byte>>) returns (fits: bool)
    requires b.Valid() && b.freeinode == 2 && Built(b.view, [], []) && NamesOk(names) && |names| == |files|
    requires 2 + |files| <= |b.view.files|
    modifies b
    ensures fits ==> b.Valid() && |b.view.files| == |old(b.view).files| && Built(b.view, names, files)
    ensures !fits ==> b.size + 4 <= old(b.freeblock) + ImageNeed(files) || TooLarge(files)
    ensures fits ==> b.freeblock + 4 <= old(b.freeblock) + ImageNeed(files)
  {
    assert names[..0] == [] && files[..0] == [];
    for k := 0 to |files|
      invariant b.Valid() && b.freeinode == 2 + k && |b.view.files| == |old(b.view).files|
      invariant Built(b.view, names[..k], files[..k]) && b.freeblock + 4 <= old(b.freeblock) + ImageNeed(files[..k])
    {
      NeedNext(files, k);
      fits := AddFile(b, names[k], files[k], names[..k], files[..k]);
      if !fits {
        return;
      }
      OneMore(names, k);
      OneMore(files, k);
    }
    assert names[..|files|] == names && files[..|files|] == files;
    fits := true;
  }

  /** The end of main. */
  method Finish(b: Builder, inodestart: nat, bmapstart: nat, ghost names: seq<seq<Byte>>, ghost files: seq<seq<Byte>>)
    returns (vol: Volume)
    requires b.Valid() && Built(b.view, names, files) && b.freeblock < BPB
    modifies b
    ensures vol.Valid() && vol.dinodes == vol.inodes && vol.view.hands == {}
    ensures vol.view == WithFile(old(b.view), ROOTINO, Rounded(old(b.view).files[ROOTINO]))
    ensures forall i :: 0 <= i < |vol.view.files| && i != ROOTINO ==> GoodFile(vol.view.files[i])
    ensures GoodView(vol.view) <==> DIRENT * (2 + |files|) % BSIZE != 0
  {
    ghost var v := b.view;
    b.RoundRoot();
    AllGood(v, b.view, names, files);
    var bits := WriteBitmap(b.size, b.freeblock);
    vol := new Volume(b.size, b.nmeta, bits, b.disk, b.inodes, b.owner, b.view, inodestart, bmapstart);
  }

  lemma AllGood(v: View, w: View, names: seq<seq<Byte>>, files: seq<seq<Byte>>)
    requires Built(v, names, files) && w == WithFile(v, ROOTINO, Rounded(v.files[ROOTINO]))
    ensures forall i :: 0 <= i < |v.files| && i != ROOTINO ==> GoodFile(w.files[i])
    ensures GoodView(w) <==> DIRENT * (2 + |files|) % BSIZE != 0
  {
    forall i | 0 <= i < |v.files|
      ensures GoodFile(v.files[i])
              && (i == ROOTINO ==> (GoodFile(Rounded(v.files[i])) <==> v.files[i].size % BSIZE != 0))
    {
      RoundedHole(v.files[i]);
    }
    assert |Contents(v.files[ROOTINO])| == v.files[ROOTINO].size == DIRENT * (2 + |files|);
    assert w.files[ROOTINO] == Rounded(v.files[ROOTINO]);
    assert GoodView(w) <==> GoodFile(w.files[ROOTINO]);
  }
}
