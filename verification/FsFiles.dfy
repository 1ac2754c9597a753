/** What the blocks amount to: for every inode its size and its file blocks, and the
    sets of free blocks and blocks in hand. */
module FsFiles {
  import opened FsBlocks

  type Blocks = map<nat, Blk>

  /** `ind`: there is an indirect block. */
  datatype File = File(kind: nat, nlink: nat, size: nat, ind: bool, blocks: Blocks)

  datatype View = View(files: seq<File>, free: set<nat>, hands: set<nat>)

  ghost predicate BlocksRep(s: Fs, i: nat, bl: Blocks) {
    && (forall k: nat {:trigger BlockAt(s, i, k)} :: k < MAXFILE ==>
          && (k in bl <==> BlockAt(s, i, k) != 0)
          && (k in bl ==> BlockAt(s, i, k) < |s.disk| && bl[k] == s.disk[BlockAt(s, i, k)]))
    && (forall k :: k in bl ==> k < MAXFILE)
  }

  ghost predicate FileRep(s: Fs, i: nat, f: File) {
    && i < |s.inodes|
    && f.kind == s.inodes[i].kind && f.nlink == s.inodes[i].nlink && f.size == s.inodes[i].size
    && (f.ind <==> IndOf(s, i) != 0)
    && BlocksRep(s, i, f.blocks)
  }

  ghost function FreeSet(s: Fs): set<nat> {
    set b: nat | b < |s.owner| && s.owner[b] == Free
  }

  ghost function HandSet(s: Fs): set<nat> {
    set b: nat | b < |s.owner| && s.owner[b] == Hand
  }

  ghost predicate Rep(s: Fs, v: View) {
    && Inv(s) && |v.files| == |s.inodes| && v.free == FreeSet(s) && v.hands == HandSet(s)
    && forall i: nat {:trigger FileRep(s, i, v.files[i])} :: i < |v.files| ==> FileRep(s, i, v.files[i])
  }

  ghost function WithFile(v: View, i: nat, f: File): View
    requires i < |v.files|
  {
    v.(files := v.files[i := f])
  }

  ghost function Put(bl: Blocks, k: nat, b: Blk): Blocks {
    bl[k := b]
  }

  ghost function Drop(bl: Blocks, k: nat): Blocks {
    map j | j in bl && j != k :: bl[j]
  }

  ghost function Direct(bl: Blocks): Blocks {
    map j | j in bl && j < NDIRECT :: bl[j]
  }

  /** The data blocks of file `i` have the same contents in `n`. */
  ghost predicate SameData(s: Fs, n: Fs, i: nat) {
    && |n.disk| == |s.disk| == |s.owner|
    && forall b: nat :: b < |s.owner| && s.owner[b].At? && s.owner[b].ino == i ==> n.disk[b] == s.disk[b]
  }

  ghost predicate SameStat(s: Fs, n: Fs, i: nat) {
    && i < |n.inodes| && i < |s.inodes|
    && n.inodes[i].kind == s.inodes[i].kind && n.inodes[i].nlink == s.inodes[i].nlink
       && n.inodes[i].size == s.inodes[i].size
  }

  /** A file whose blocks stay where they are and keep their contents. */
  lemma FileSame(s: Fs, n: Fs, i: nat, f: File)
    requires Inv(s) && FileRep(s, i, f) && SameStat(s, n, i) && SameData(s, n, i) && IndOf(n, i) == IndOf(s, i)
    requires forall k: nat :: k < MAXFILE ==> BlockAt(n, i, k) == BlockAt(s, i, k)
    ensures FileRep(n, i, f)
  {
    assert InodeOk(s, i);
  }

  // ---------------------------------------------------------------------------
  // The small updates, as seen in the view
  // ---------------------------------------------------------------------------

  lemma RepTake(s: Fs, v: View, b: nat)
    requires Rep(s, v) && b in v.free
    ensures b < s.size && b != 0 && b !in v.hands
    ensures Rep(Take(s, b), v.(free := v.free - {b}, hands := v.hands + {b})) && Take(s, b).disk[b] == Zero()
  {
    TakeInv(s, b);
    HandIsData(s, b);
    var n := Take(s, b);
    assert FreeSet(n) == FreeSet(s) - {b} && HandSet(n) == HandSet(s) + {b};
    forall i: nat | i < |v.files|
      ensures FileRep(n, i, v.files[i])
    {
      FileSame(s, n, i, v.files[i]);
    }
  }

  lemma RepGive(s: Fs, v: View, b: nat)
    requires Rep(s, v) && b in v.hands
    ensures b < s.size && s.used[b] && b !in v.free
    ensures Rep(Give(s, b), v.(free := v.free + {b}, hands := v.hands - {b}))
  {
    assert BlockOk(s, b);
    GiveInv(s, b);
    var n := Give(s, b);
    assert FreeSet(n) == FreeSet(s) + {b} && HandSet(n) == HandSet(s) - {b};
    forall i: nat | i < |v.files|
      ensures FileRep(n, i, v.files[i])
    {
      FileSame(s, n, i, v.files[i]);
    }
  }

  /** Block `k` of the file now is `b`. */
  ghost function Linked(f: File, k: nat, b: Blk): File {
    f.(blocks := Put(f.blocks, k, b))
  }

  lemma LinkedRep(s: Fs, n: Fs, v: View, i: nat, k: nat, b: nat)
    requires Rep(s, v) && Inv(n) && BlocksExcept(s, n, i, k, b) && SameInds(s, n) && i < |v.files| && k < MAXFILE
    requires b in v.hands && |n.disk| == |s.disk| && OwnersExcept(s, n, b) && Owned(n, b, At(i, k))
    requires forall x: nat :: x < |s.inodes| ==> SameStat(s, n, x) && SameData(s, n, x)
    requires n.disk[b] == s.disk[b] && b != 0
    ensures Rep(n, WithFile(v, i, Linked(v.files[i], k, s.disk[b])).(hands := v.hands - {b}))
  {
    assert FreeSet(n) == FreeSet(s) && HandSet(n) == HandSet(s) - {b};
    var w := WithFile(v, i, Linked(v.files[i], k, s.disk[b])).(hands := v.hands - {b});
    forall x: nat | x < |w.files|
      ensures FileRep(n, x, w.files[x])
    {
      assert FileRep(s, x, v.files[x]);
      if x == i {
        LinkedFile(s, n, i, k, b, v.files[i]);
      } else {
        FileSame(s, n, x, v.files[x]);
      }
    }
  }

  lemma LinkedFile(s: Fs, n: Fs, i: nat, k: nat, b: nat, f: File)
    requires Inv(s) && FileRep(s, i, f) && BlocksExcept(s, n, i, k, b) && k < MAXFILE && b < |s.disk| && b != 0
    requires SameStat(s, n, i) && SameData(s, n, i) && IndOf(n, i) == IndOf(s, i) && n.disk[b] == s.disk[b]
    ensures FileRep(n, i, Linked(f, k, s.disk[b]))
  {
    assert InodeOk(s, i);
  }

  lemma RepLinkDirect(s: Fs, v: View, i: nat, k: nat, b: nat)
    requires Rep(s, v) && i < |v.files| && k < NDIRECT && k !in v.files[i].blocks && b in v.hands
    ensures b < |s.owner| && NDIRECT < |s.inodes[i].addrs|
    ensures Rep(LinkDirect(s, i, k, b), WithFile(v, i, Linked(v.files[i], k, s.disk[b])).(hands := v.hands - {b}))
  {
    assert FileRep(s, i, v.files[i]);
    assert BlockAt(s, i, k) == 0;
    HandIsData(s, b);
    LinkDirectInv(s, i, k, b);
    LinkedRep(s, LinkDirect(s, i, k, b), v, i, k, b);
  }

  lemma RepLinkLeaf(s: Fs, v: View, i: nat, j: nat, b: nat)
    requires Rep(s, v) && i < |v.files| && j < NINDIRECT && NDIRECT + j !in v.files[i].blocks && v.files[i].ind
             && b in v.hands
    ensures b < |s.owner| && IndOf(s, i) < |s.disk| && |s.disk[IndOf(s, i)]| == BSIZE
    ensures Rep(LinkLeaf(s, i, j, b), WithFile(v, i, Linked(v.files[i], NDIRECT + j, s.disk[b])).(hands :=
        v.hands - {b}))
  {
    assert FileRep(s, i, v.files[i]);
    assert BlockAt(s, i, NDIRECT + j) == 0;
    assert InodeOk(s, i);
    HandIsData(s, b);
    LinkLeafInv(s, i, j, b);
    LinkedRep(s, LinkLeaf(s, i, j, b), v, i, NDIRECT + j, b);
  }

  lemma RepLinkInd(s: Fs, v: View, i: nat, b: nat)
    requires Rep(s, v) && i < |v.files| && !v.files[i].ind && b in v.hands && s.disk[b] == Zero()
    ensures b < |s.owner| && NDIRECT < |s.inodes[i].addrs|
    ensures Rep(LinkInd(s, i, b), WithFile(v, i, v.files[i].(ind := true)).(hands := v.hands - {b}))
    ensures IndOf(LinkInd(s, i, b), i) == b
  {
    assert FileRep(s, i, v.files[i]);
    HandIsData(s, b);
    LinkIndInv(s, i, b);
    var n := LinkInd(s, i, b);
    var w := WithFile(v, i, v.files[i].(ind := true)).(hands := v.hands - {b});
    assert FreeSet(n) == FreeSet(s) && HandSet(n) == HandSet(s) - {b};
    forall x: nat | x < |w.files|
      ensures FileRep(n, x, w.files[x])
    {
      assert FileRep(s, x, v.files[x]);
      if x == i {
        assert InodeOk(s, i);
      } else {
        FileSame(s, n, x, v.files[x]);
      }
    }
  }

  lemma RepPoke(s: Fs, v: View, i: nat, k: nat, bytes: Blk)
    requires Rep(s, v) && i < |v.files| && k in v.files[i].blocks && |bytes| == BSIZE
    ensures k < MAXFILE && BlockAt(s, i, k) < |s.disk|
    ensures Rep(Poke(s, BlockAt(s, i, k), bytes), WithFile(v, i, Linked(v.files[i], k, bytes)))
  {
    assert FileRep(s, i, v.files[i]);
    var b := BlockAt(s, i, k);
    assert InodeOk(s, i);
    PokeInv(s, b, bytes);
    var n := Poke(s, b, bytes);
    var w := WithFile(v, i, Linked(v.files[i], k, bytes));
    forall x: nat | x < |w.files|
      ensures FileRep(n, x, w.files[x])
    {
      assert FileRep(s, x, v.files[x]);
      if x == i {
        PokedFile(s, i, k, bytes, v.files[i]);
      } else {
        FileSame(s, n, x, v.files[x]);
      }
    }
  }

  lemma PokedFile(s: Fs, i: nat, k: nat, bytes: Blk, f: File)
    requires Inv(s) && FileRep(s, i, f) && k in f.blocks && BlockAt(s, i, k) < |s.disk| && |bytes| == BSIZE
    requires SameBlocks(s, Poke(s, BlockAt(s, i, k), bytes)) && k < MAXFILE
    ensures FileRep(Poke(s, BlockAt(s, i, k), bytes), i, Linked(f, k, bytes))
  {
    assert InodeOk(s, i);
    var n := Poke(s, BlockAt(s, i, k), bytes);
    forall l: nat | l < MAXFILE
      ensures l in f.blocks && l != k ==> n.disk[BlockAt(n, i, l)] == s.disk[BlockAt(s, i, l)]
    {
      if l in f.blocks && l != k {
        assert BlockAt(s, i, l) != BlockAt(s, i, k);
      }
    }
  }

  lemma RepUnlinkDirect(s: Fs, v: View, i: nat, k: nat)
    requires Rep(s, v) && i < |v.files| && k < NDIRECT && k in v.files[i].blocks
    ensures var b := BlockAt(s, i, k);
            && b < |s.owner| && b !in v.hands && b !in v.free && NDIRECT < |s.inodes[i].addrs|
            && Rep(UnlinkDirect(s, i, k),
                   WithFile(v, i, v.files[i].(blocks := Drop(v.files[i].blocks, k))).(hands := v.hands + {b}))
  {
    assert FileRep(s, i, v.files[i]);
    var b := BlockAt(s, i, k);
    assert InodeOk(s, i);
    UnlinkDirectInv(s, i, k);
    var n := UnlinkDirect(s, i, k);
    var w := WithFile(v, i, v.files[i].(blocks := Drop(v.files[i].blocks, k))).(hands := v.hands + {b});
    assert FreeSet(n) == FreeSet(s) && HandSet(n) == HandSet(s) + {b};
    forall x: nat | x < |w.files|
      ensures FileRep(n, x, w.files[x])
    {
      assert FileRep(s, x, v.files[x]);
      if x != i {
        FileSame(s, n, x, v.files[x]);
      }
    }
  }

  /** The indirect block of file `i` and the blocks it refers to. */
  ghost function IndSet(s: Fs, i: nat): set<nat> {
    set b: nat | b < |s.owner| && BelowInd(s.owner[b], i)
  }

  lemma RepDetach(s: Fs, v: View, i: nat)
    requires Rep(s, v) && i < |v.files|
    ensures NDIRECT < |s.inodes[i].addrs|
    ensures Rep(Detach(s, i),
                WithFile(v, i, v.files[i].(ind := false, blocks := Direct(v.files[i].blocks))).(hands :=
                    v.hands + IndSet(s, i)))
  {
    assert FileRep(s, i, v.files[i]);
    DetachInv(s, i);
    var n := Detach(s, i);
    var w := WithFile(v, i, v.files[i].(ind := false, blocks := Direct(v.files[i].blocks))).(hands :=
        v.hands + IndSet(s, i));
    assert FreeSet(n) == FreeSet(s) && HandSet(n) == HandSet(s) + IndSet(s, i);
    forall x: nat | x < |w.files|
      ensures FileRep(n, x, w.files[x])
    {
      assert FileRep(s, x, v.files[x]);
      if x != i {
        FileSame(s, n, x, v.files[x]);
      }
    }
  }

  lemma RepSetStat(s: Fs, v: View, i: nat, kind: nat, nlink: nat, size: nat)
    requires Rep(s, v) && i < |v.files|
    ensures Rep(SetStat(s, i, kind, nlink, size),
                WithFile(v, i, v.files[i].(kind := kind, nlink := nlink, size := size)))
  {
    SetStatInv(s, i, kind, nlink, size);
    var n := SetStat(s, i, kind, nlink, size);
    forall x: nat | x < |v.files|
      ensures FileRep(n, x, WithFile(v, i, v.files[i].(kind := kind, nlink := nlink, size := size)).files[x])
    {
      assert FileRep(s, x, v.files[x]);
    }
  }
}
