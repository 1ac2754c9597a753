/** Disk blocks and who owns them (xv6/kernel/fs.c, kernel/fs.h): the bitmap, the
    direct and indirect block numbers of the inodes, and the one invariant that ties
    them together. Every operation of the inode layer is a chain of the small
    updates defined here. */
module FsBlocks {
  const BSIZE: nat := 1024
  const NDIRECT: nat := 12
  const NINDIRECT: nat := 256
  const MAXFILE: nat := NDIRECT + NINDIRECT

  type Byte = b: nat | b < 256
  type Blk = seq<Byte>

  /** A dinode; addrs[NDIRECT] is the indirect block. */
  datatype Inode = Inode(kind: nat, nlink: nat, size: nat, addrs: seq<nat>)

  /** `Hand`: allocated, not linked yet or not any more. `Ind`: the indirect block of
      an inode. `At`: block `k` of the file of an inode. */
  datatype Owner = Free | Meta | Hand | Ind(ino: nat) | At(ino: nat, k: nat)

  datatype Fs = Fs(size: nat, nmeta: nat, used: seq<bool>, disk: seq<Blk>, inodes: seq<Inode>, owner: seq<Owner>)

  // ---------------------------------------------------------------------------
  // Words of a block
  // ---------------------------------------------------------------------------

  function Zero(): (b: Blk)
    ensures |b| == BSIZE
  {
    seq(BSIZE, _ => 0)
  }

  function Word4(a: Byte, b: Byte, c: Byte, d: Byte): (x: nat) {
    a + 0x100 * b + 0x1_0000 * c + 0x100_0000 * d
  }

  /** Entry `j` of an indirect block, little-endian. */
  function Word(b: Blk, j: nat): (x: nat) {
    if 4 * j + 3 < |b| then Word4(b[4 * j], b[4 * j + 1], b[4 * j + 2], b[4 * j + 3]) else 0
  }

  function SetWord(b: Blk, j: nat, x: nat): (r: Blk)
    requires 4 * j + 3 < |b|
    ensures |r| == |b|
  {
    b[4 * j := x % 0x100][4 * j + 1 := x / 0x100 % 0x100][4 * j + 2 := x / 0x1_0000 % 0x100][4 * j + 3 :=
        x / 0x100_0000 % 0x100]
  }

  lemma Word4RoundTrip(x: nat)
    requires x < 0x1_0000_0000
    ensures Word4(x % 0x100, x / 0x100 % 0x100, x / 0x1_0000 % 0x100, x / 0x100_0000 % 0x100) == x
  {
    var y := x / 0x100;
    var z := y / 0x100;
    assert x == 0x100 * y + x % 0x100;
    assert y == 0x100 * z + y % 0x100;
    assert z == x / 0x1_0000;
    assert z == 0x100 * (z / 0x100) + z % 0x100;
    assert z / 0x100 == x / 0x100_0000;
  }

  lemma SetWordIs(b: Blk, j: nat, x: nat, i: nat)
    requires 4 * j + 3 < |b| && x < 0x1_0000_0000
    ensures Word(SetWord(b, j, x), i) == if i == j then x else Word(b, i)
  {
    Word4RoundTrip(x);
  }

  lemma ZeroWord(j: nat)
    ensures Word(Zero(), j) == 0
  {
  }

  // ---------------------------------------------------------------------------
  // The invariant
  // ---------------------------------------------------------------------------

  /** The disk block that holds block `k` of file `i`, or 0. */
  function BlockAt(s: Fs, i: nat, k: nat): (b: nat) {
    if i >= |s.inodes| || |s.inodes[i].addrs| != NDIRECT + 1 then 0
    else if k < NDIRECT then s.inodes[i].addrs[k]
    else if 0 < s.inodes[i].addrs[NDIRECT] < |s.disk| && k < MAXFILE then Word(s.disk[s.inodes[i].addrs[NDIRECT]],
        k - NDIRECT)
    else 0
  }

  function IndOf(s: Fs, i: nat): (b: nat) {
    if i >= |s.inodes| || |s.inodes[i].addrs| != NDIRECT + 1 then 0 else s.inodes[i].addrs[NDIRECT]
  }

  ghost predicate Owned(s: Fs, b: nat, o: Owner) {
    b < |s.owner| && s.owner[b] == o
  }

  ghost predicate Shape(s: Fs) {
    && 1 <= s.nmeta <= s.size < 0x1_0000_0000
    && |s.used| == |s.disk| == |s.owner| == s.size
    && (forall b :: 0 <= b < |s.disk| ==> |s.disk[b]| == BSIZE)
    && (forall i :: 0 <= i < |s.inodes| ==> |s.inodes[i].addrs| == NDIRECT + 1)
  }

  /** The bitmap bit of `b`, and the one place that refers to it. */
  ghost predicate BlockOk(s: Fs, b: nat)
    requires Shape(s) && b < s.size
  {
    && (s.used[b] <==> s.owner[b] != Free)
    && (s.owner[b] == Meta <==> b < s.nmeta)
    && (s.owner[b].Ind? ==> s.owner[b].ino < |s.inodes| && IndOf(s, s.owner[b].ino) == b)
    && (s.owner[b].At? ==>
           s.owner[b].ino < |s.inodes| && s.owner[b].k < MAXFILE && BlockAt(s, s.owner[b].ino, s.owner[b].k) == b)
  }

  ghost predicate InodeOk(s: Fs, i: nat) {
    && (IndOf(s, i) != 0 ==> Owned(s, IndOf(s, i), Ind(i)))
    && forall k :: 0 <= k < MAXFILE && BlockAt(s, i, k) != 0 ==> Owned(s, BlockAt(s, i, k), At(i, k))
  }

  ghost predicate Inv(s: Fs) {
    && Shape(s)
    && (forall b: nat {:trigger BlockOk(s, b)} :: b < s.size ==> BlockOk(s, b))
    && (forall i: nat {:trigger InodeOk(s, i)} :: i < |s.inodes| ==> InodeOk(s, i))
  }

  /** No block is reachable from two places. */
  lemma OnePlace(s: Fs, i: nat, k: nat, j: nat, l: nat)
    requires Inv(s) && i < |s.inodes| && j < |s.inodes| && k < MAXFILE && l < MAXFILE
    requires BlockAt(s, i, k) != 0 && BlockAt(s, i, k) == BlockAt(s, j, l)
    ensures i == j && k == l && BlockAt(s, i, k) != IndOf(s, i)
  {
    assert InodeOk(s, i) && InodeOk(s, j);
  }

  /** The bitmap marks the metadata, the reachable blocks, and what is in hand. */
  lemma BitmapIsExact(s: Fs, b: nat)
    requires Inv(s) && b < s.size
    ensures s.used[b] <==>
              || b < s.nmeta || s.owner[b] == Hand
              || (exists i :: 0 <= i < |s.inodes| && IndOf(s, i) == b && b != 0)
              || (exists i, k :: 0 <= i < |s.inodes| && 0 <= k < MAXFILE && BlockAt(s, i, k) == b && b != 0)
  {
    assert BlockOk(s, b);
    if b >= s.nmeta {
      if s.owner[b].Ind? {
        assert IndOf(s, s.owner[b].ino) == b;
      }
      if i :| 0 <= i < |s.inodes| && IndOf(s, i) == b && b != 0 {
        assert InodeOk(s, i);
      }
      if i, k :| 0 <= i < |s.inodes| && 0 <= k < MAXFILE && BlockAt(s, i, k) == b && b != 0 {
        assert InodeOk(s, i);
      }
      if s.owner[b].At? {
        assert BlockAt(s, s.owner[b].ino, s.owner[b].k) == b;
      }
    }
  }

  // ---------------------------------------------------------------------------
  // Small updates
  // ---------------------------------------------------------------------------

  /** Mark `b` in the bitmap and zero it. */
  function Take(s: Fs, b: nat): (n: Fs)
    requires b < |s.used| && b < |s.disk| && b < |s.owner|
  {
    s.(used := s.used[b := true], disk := s.disk[b := Zero()], owner := s.owner[b := Hand])
  }

  function Give(s: Fs, b: nat): (n: Fs)
    requires b < |s.used| && b < |s.owner|
  {
    s.(used := s.used[b := false], owner := s.owner[b := Free])
  }

  function WithAddr(s: Fs, i: nat, k: nat, b: nat): (inodes: seq<Inode>)
    requires i < |s.inodes| && k < |s.inodes[i].addrs|
  {
    s.inodes[i := s.inodes[i].(addrs := s.inodes[i].addrs[k := b])]
  }

  /** addrs[k] = b, for a direct block. */
  function LinkDirect(s: Fs, i: nat, k: nat, b: nat): (n: Fs)
    requires i < |s.inodes| && k < NDIRECT < |s.inodes[i].addrs| && b < |s.owner|
  {
    s.(inodes := WithAddr(s, i, k, b), owner := s.owner[b := At(i, k)])
  }

  /** addrs[NDIRECT] = b. */
  function LinkInd(s: Fs, i: nat, b: nat): (n: Fs)
    requires i < |s.inodes| && NDIRECT < |s.inodes[i].addrs| && b < |s.owner|
  {
    s.(inodes := WithAddr(s, i, NDIRECT, b), owner := s.owner[b := Ind(i)])
  }

  /** a[j] = b in the indirect block. */
  function LinkLeaf(s: Fs, i: nat, j: nat, b: nat): (n: Fs)
    requires IndOf(s, i) < |s.disk| && |s.disk[IndOf(s, i)]| == BSIZE && j < NINDIRECT && b < |s.owner|
  {
    s.(disk := s.disk[IndOf(s, i) := SetWord(s.disk[IndOf(s, i)], j, b)], owner := s.owner[b := At(i, NDIRECT + j)])
  }

  /** addrs[k] = 0, for a direct block. */
  function UnlinkDirect(s: Fs, i: nat, k: nat): (n: Fs)
    requires i < |s.inodes| && k < NDIRECT < |s.inodes[i].addrs| && s.inodes[i].addrs[k] < |s.owner|
  {
    s.(inodes := WithAddr(s, i, k, 0), owner := s.owner[s.inodes[i].addrs[k] := Hand])
  }

  /** addrs[NDIRECT] = 0: the indirect block and all it refers to are in hand. */
  ghost function Detach(s: Fs, i: nat): (n: Fs)
    requires i < |s.inodes| && NDIRECT < |s.inodes[i].addrs|
  {
    s.(inodes := WithAddr(s, i, NDIRECT, 0),
       owner := seq(|s.owner|, b requires 0 <= b < |s.owner| => if BelowInd(s.owner[b], i) then Hand else s.owner[b]))
  }

  ghost predicate BelowInd(o: Owner, i: nat) {
    o == Ind(i) || (o.At? && o.ino == i && o.k >= NDIRECT)
  }

  /** New contents for a data block. */
  function Poke(s: Fs, b: nat, bytes: Blk): (n: Fs)
    requires b < |s.disk|
  {
    s.(disk := s.disk[b := bytes])
  }

  /** Kind, links and size of an inode. */
  function SetStat(s: Fs, i: nat, kind: nat, nlink: nat, size: nat): (n: Fs)
    requires i < |s.inodes|
  {
    s.(inodes := s.inodes[i := s.inodes[i].(kind := kind, nlink := nlink, size := size)])
  }

  // ---------------------------------------------------------------------------
  // They keep the invariant
  // ---------------------------------------------------------------------------

  /** Translations of `n` are those of `s`, except block `k0` of file `i0`. */
  ghost predicate BlocksExcept(s: Fs, n: Fs, i0: nat, k0: nat, b: nat) {
    && |n.inodes| == |s.inodes|
    && forall i, k :: 0 <= i < |s.inodes| && 0 <= k < MAXFILE ==>
         BlockAt(n, i, k) == if i == i0 && k == k0 then b else BlockAt(s, i, k)
  }

  ghost predicate SameBlocks(s: Fs, n: Fs) {
    && |n.inodes| == |s.inodes|
    && forall i, k :: 0 <= i < |s.inodes| && 0 <= k < MAXFILE ==> BlockAt(n, i, k) == BlockAt(s, i, k)
  }

  ghost predicate SameInds(s: Fs, n: Fs) {
    forall i :: 0 <= i < |s.inodes| ==> IndOf(n, i) == IndOf(s, i)
  }

  ghost predicate OwnersExcept(s: Fs, n: Fs, b: nat) {
    |n.owner| == |s.owner| && forall q :: 0 <= q < |s.owner| && q != b ==> n.owner[q] == s.owner[q]
  }

  /** An update of one block that no inode refers to, before and after. */
  lemma LooseStep(s: Fs, n: Fs, b: nat)
    requires Inv(s) && Shape(n) && SameBlocks(s, n) && SameInds(s, n) && OwnersExcept(s, n, b) && n.nmeta == s.nmeta
    requires b < s.size && s.owner[b] in {Free, Hand} && n.owner[b] in {Free, Hand}
    requires forall q :: 0 <= q < s.size && q != b ==> n.used[q] == s.used[q]
    requires n.used[b] <==> n.owner[b] != Free
    ensures Inv(n)
  {
    forall q: nat | q < n.size
      ensures BlockOk(n, q)
    {
      assert BlockOk(s, q);
    }
    forall i: nat | i < |n.inodes|
      ensures InodeOk(n, i)
    {
      assert InodeOk(s, i);
    }
  }

  lemma TakeInv(s: Fs, b: nat)
    requires Inv(s) && b < s.size && s.owner[b] == Free
    ensures Inv(Take(s, b)) && SameBlocks(s, Take(s, b)) && SameInds(s, Take(s, b))
  {
    var n := Take(s, b);
    forall i, k | 0 <= i < |s.inodes| && 0 <= k < MAXFILE
      ensures BlockAt(n, i, k) == BlockAt(s, i, k)
    {
      assert InodeOk(s, i);
    }
    LooseStep(s, n, b);
  }

  lemma GiveInv(s: Fs, b: nat)
    requires Inv(s) && b < s.size && s.owner[b] == Hand
    ensures Inv(Give(s, b)) && SameBlocks(s, Give(s, b)) && SameInds(s, Give(s, b))
  {
    LooseStep(s, Give(s, b), b);
  }

  lemma PokeInv(s: Fs, b: nat, bytes: Blk)
    requires Inv(s) && b < s.size && (s.owner[b].At? || s.owner[b].Hand?) && |bytes| == BSIZE
    ensures Inv(Poke(s, b, bytes)) && SameBlocks(s, Poke(s, b, bytes)) && SameInds(s, Poke(s, b, bytes))
  {
    var n := Poke(s, b, bytes);
    forall i, k | 0 <= i < |s.inodes| && 0 <= k < MAXFILE
      ensures BlockAt(n, i, k) == BlockAt(s, i, k)
    {
      assert InodeOk(s, i);
    }
    SamePlaces(s, n);
  }

  lemma SetStatInv(s: Fs, i: nat, kind: nat, nlink: nat, size: nat)
    requires Inv(s) && i < |s.inodes|
    ensures Inv(SetStat(s, i, kind, nlink, size)) && SameBlocks(s, SetStat(s, i, kind, nlink, size))
  {
    SamePlaces(s, SetStat(s, i, kind, nlink, size));
  }

  lemma SamePlaces(s: Fs, n: Fs)
    requires Inv(s) && Shape(n) && SameBlocks(s, n) && SameInds(s, n)
    requires n.owner == s.owner && n.used == s.used && n.nmeta == s.nmeta
    ensures Inv(n)
  {
    forall q: nat | q < n.size
      ensures BlockOk(n, q)
    {
      assert BlockOk(s, q);
    }
    forall i: nat | i < |n.inodes|
      ensures InodeOk(n, i)
    {
      assert InodeOk(s, i);
    }
  }

  /** An update that makes one place refer to block `b`, which was in hand. */
  lemma LinkStep(s: Fs, n: Fs, i0: nat, k0: nat, b: nat)
    requires Inv(s) && Shape(n) && BlocksExcept(s, n, i0, k0, b) && SameInds(s, n) && OwnersExcept(s, n, b)
    requires n.used == s.used && n.nmeta == s.nmeta && i0 < |s.inodes| && k0 < MAXFILE && BlockAt(s, i0, k0) == 0
    requires b < s.size && s.owner[b] == Hand && n.owner[b] == At(i0, k0)
    ensures Inv(n)
  {
    forall q: nat | q < n.size
      ensures BlockOk(n, q)
    {
      assert BlockOk(s, q);
    }
    forall i: nat | i < |n.inodes|
      ensures InodeOk(n, i)
    {
      assert InodeOk(s, i);
    }
  }

  lemma HandIsData(s: Fs, b: nat)
    requires Inv(s) && b < s.size && s.owner[b] != Meta
    ensures b != 0
  {
    assert BlockOk(s, b);
  }

  lemma LinkDirectInv(s: Fs, i: nat, k: nat, b: nat)
    requires Inv(s) && i < |s.inodes| && k < NDIRECT && b < s.size && s.owner[b] == Hand && BlockAt(s, i, k) == 0
    ensures Inv(LinkDirect(s, i, k, b)) && BlocksExcept(s, LinkDirect(s, i, k, b), i, k, b)
    ensures SameInds(s, LinkDirect(s, i, k, b))
  {
    LinkStep(s, LinkDirect(s, i, k, b), i, k, b);
  }

  lemma LinkIndInv(s: Fs, i: nat, b: nat)
    requires Inv(s) && i < |s.inodes| && b < s.size && s.owner[b] == Hand && IndOf(s, i) == 0 && s.disk[b] == Zero()
    ensures Inv(LinkInd(s, i, b)) && SameBlocks(s, LinkInd(s, i, b))
    ensures IndOf(LinkInd(s, i, b), i) == b
  {
    var n := LinkInd(s, i, b);
    HandIsData(s, b);
    forall x, k | 0 <= x < |s.inodes| && 0 <= k < MAXFILE
      ensures BlockAt(n, x, k) == BlockAt(s, x, k)
    {
      if x == i && k >= NDIRECT {
        ZeroWord(k - NDIRECT);
      }
    }
    forall q: nat | q < n.size
      ensures BlockOk(n, q)
    {
      assert BlockOk(s, q);
    }
    forall x: nat | x < |n.inodes|
      ensures InodeOk(n, x)
    {
      assert InodeOk(s, x);
    }
  }

  lemma LinkLeafInv(s: Fs, i: nat, j: nat, b: nat)
    requires Inv(s) && i < |s.inodes| && j < NINDIRECT && b < s.size && s.owner[b] == Hand
    requires IndOf(s, i) != 0 && BlockAt(s, i, NDIRECT + j) == 0
    ensures IndOf(s, i) < s.size && |s.disk[IndOf(s, i)]| == BSIZE
    ensures Inv(LinkLeaf(s, i, j, b)) && BlocksExcept(s, LinkLeaf(s, i, j, b), i, NDIRECT + j, b)
    ensures SameInds(s, LinkLeaf(s, i, j, b))
  {
    assert InodeOk(s, i);
    var n := LinkLeaf(s, i, j, b);
    forall x, k | 0 <= x < |s.inodes| && 0 <= k < MAXFILE
      ensures BlockAt(n, x, k) == if x == i && k == NDIRECT + j then b else BlockAt(s, x, k)
    {
      if k >= NDIRECT {
        assert InodeOk(s, x);
        SetWordIs(s.disk[IndOf(s, i)], j, b, k - NDIRECT);
      }
    }
    LinkStep(s, n, i, NDIRECT + j, b);
  }

  lemma UnlinkDirectInv(s: Fs, i: nat, k: nat)
    requires Inv(s) && i < |s.inodes| && k < NDIRECT && BlockAt(s, i, k) != 0
    ensures BlockAt(s, i, k) < s.size
    ensures Inv(UnlinkDirect(s, i, k)) && BlocksExcept(s, UnlinkDirect(s, i, k), i, k, 0)
    ensures SameInds(s, UnlinkDirect(s, i, k))
  {
    assert InodeOk(s, i);
    var n := UnlinkDirect(s, i, k);
    forall q: nat | q < n.size
      ensures BlockOk(n, q)
    {
      assert BlockOk(s, q);
    }
    forall x: nat | x < |n.inodes|
      ensures InodeOk(n, x)
    {
      assert InodeOk(s, x);
    }
  }

  /** Files other than `i` and the direct blocks of `i` are as before. */
  ghost predicate BlocksDetached(s: Fs, n: Fs, i0: nat) {
    && |n.inodes| == |s.inodes|
    && forall i, k :: 0 <= i < |s.inodes| && 0 <= k < MAXFILE ==>
         BlockAt(n, i, k) == if i == i0 && k >= NDIRECT then 0 else BlockAt(s, i, k)
  }

  lemma DetachInv(s: Fs, i: nat)
    requires Inv(s) && i < |s.inodes|
    ensures Inv(Detach(s, i)) && BlocksDetached(s, Detach(s, i), i)
  {
    var n := Detach(s, i);
    forall q: nat | q < n.size
      ensures BlockOk(n, q)
    {
      assert BlockOk(s, q);
    }
    forall x: nat | x < |n.inodes|
      ensures InodeOk(n, x)
    {
      assert InodeOk(s, x);
    }
  }
}
