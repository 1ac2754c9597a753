/** The block and inode code of xv6/kernel/fs.c, in place on a disk whose blocks are
    read through the buffer cache; log_write is recorded as the set of blocks that
    the transaction has touched. */
module FsCode {
  import opened FsBlocks
  import opened FsFiles

  /** Bits in a bitmap block, inodes in an inode block. */
  const BPB: nat := 8192
  const IPB: nat := 16

  lemma BitmapBlock(b: nat, bi: nat)
    requires b % BPB == 0 && bi < BPB
    ensures (b + bi) / BPB == b / BPB
  {
  }

  /** Every block that `t` has other than `s` was logged on the way, and so was the bitmap block
      of every bit; 8192 bits make a block. */
  ghost predicate Tracked(bmapstart: nat, s: Fs, t: Fs, l: set<nat>, m: set<nat>) {
    && |t.disk| == |s.disk| && |t.used| == |s.used| && l <= m
    && (forall b: nat :: b < |s.disk| && t.disk[b] != s.disk[b] ==> b in m)
    && (forall b: nat :: b < |s.used| && t.used[b] != s.used[b] ==> b / 8192 + bmapstart in m)
  }

  /** And so was the block of every inode that changed on the disk, 16 to a block. */
  ghost predicate TrackedInodes(inodestart: nat, a: seq<Inode>, b: seq<Inode>, m: set<nat>) {
    |b| == |a| && forall i: nat :: i < |a| && b[i] != a[i] ==> i / 16 + inodestart in m
  }

  lemma TrackedThen(bmapstart: nat, s: Fs, t: Fs, u: Fs, l: set<nat>, m: set<nat>, n: set<nat>)
    requires Tracked(bmapstart, s, t, l, m) && Tracked(bmapstart, t, u, m, n)
    ensures Tracked(bmapstart, s, u, l, n)
  {
  }

  /** In-core inodes other than `i` are as before. */
  ghost predicate OthersKept(a: seq<Inode>, b: seq<Inode>, i: nat) {
    |b| == |a| && forall j :: 0 <= j < |a| && j != i ==> b[j] == a[j]
  }

  class Volume {
    const size: nat
    const nmeta: nat
    const inodestart: nat
    const bmapstart: nat
    var used: seq<bool>
    var disk: seq<Blk>
    /** In-core inodes and their copies on disk. */
    var inodes: seq<Inode>
    var dinodes: seq<Inode>
    ghost var owner: seq<Owner>
    ghost var view: View
    ghost var logged: set<nat>

    ghost function S(): Fs
      reads this
    {
      Fs(size, nmeta, used, disk, inodes, owner)
    }

    ghost predicate Valid()
      reads this
    {
      Rep(S(), view) && |dinodes| == |inodes|
    }

    constructor (size: nat, nmeta: nat, used: seq<bool>, disk: seq<Blk>, inodes: seq<Inode>, ghost owner: seq<Owner>,
                 ghost v: View, inodestart: nat, bmapstart: nat)
      requires Rep(Fs(size, nmeta, used, disk, inodes, owner), v)
      ensures Valid() && S() == Fs(size, nmeta, used, disk, inodes, owner) && view == v && dinodes == inodes
              && logged == {}
      ensures this.inodestart == inodestart && this.bmapstart == bmapstart
    {
      this.size := size;
      this.nmeta := nmeta;
      this.inodestart := inodestart;
      this.bmapstart := bmapstart;
      this.used := used;
      this.disk := disk;
      this.inodes := inodes;
      this.dinodes := inodes;
      this.owner := owner;
      this.view := v;
      this.logged := {};
    }

    function BBlock(b: nat): (n: nat) {
      b / BPB + bmapstart
    }

    function IBlock(i: nat): (n: nat) {
      i / IPB + inodestart
    }

    /** balloc: the lowest free block, marked, zeroed and in hand; 0 when none. */
    method Balloc() returns (r: nat)
      requires Valid()
      modifies this
      ensures Valid() && dinodes == old(dinodes)
      ensures r == 0 <==> old(view).free == {}
      ensures r == 0 ==> S() == old(S()) && view == old(view) && logged == old(logged)
      ensures r != 0 ==>
                && r in old(view).free && (forall q :: q in old(view).free ==> r <= q) && r < |old(S()).disk|
                && r < |old(S()).used| && r < |old(S()).owner|
                && S() == Take(old(S()), r)
                   && view == old(view).(free := old(view).free - {r}, hands := old(view).hands + {r})
                && r !in old(view).hands && logged == old(logged) + {BBlock(r), r}
      ensures Tracked(bmapstart, old(S()), S(), old(logged), logged)
    {
      var b := 0;
      while b < size
        invariant b % BPB == 0
        invariant forall q: nat :: q < b && q < size ==> used[q]
      {
        var bi := 0;
        while bi < BPB && b + bi < size
          invariant bi <= BPB
          invariant forall q: nat :: q < b + bi && q < size ==> used[q]
        {
          if !used[b + bi] {
            BitmapBlock(b, bi);
            FreeBits(S(), view);
            r := b + bi;
            RepTake(S(), view, r);
            used := used[r := true];
            logged := logged + {BBlock(b)};
            disk := disk[r := Zero()];
            logged := logged + {r};
            owner := owner[r := Hand];
            view := view.(free := view.free - {r}, hands := view.hands + {r});
            return;
          }
          bi := bi + 1;
        }
        b := b + BPB;
      }
      FreeBits(S(), view);
      r := 0;
    }

    /** bfree. The block is in use, so it does not panic. */
    method Bfree(b: nat)
      requires Valid() && b in view.hands
      modifies this
      ensures Valid() && dinodes == old(dinodes)
      ensures b < |old(S()).used| && b < |old(S()).owner| && S() == Give(old(S()), b) && old(owner)[b] == Hand
      ensures view == old(view).(free := old(view).free + {b}, hands := old(view).hands - {b}) && b !in old(view).free
      ensures logged == old(logged) + {BBlock(b)}
      ensures disk == old(disk) && Tracked(bmapstart, old(S()), S(), old(logged), logged)
    {
      RepGive(S(), view, b);
      assert used[b];
      used := used[b := false];
      logged := logged + {BBlock(b)};
      owner := owner[b := Free];
      view := view.(free := view.free + {b}, hands := view.hands - {b});
    }

    /** What allocating the indirect block of `i` logs. */
    ghost function IndLog(i: nat): set<nat>
      reads this
    {
      if IndOf(S(), i) == 0 then {} else {IndOf(S(), i), BBlock(IndOf(S(), i))}
    }

    /** bmap for a direct block that is not there yet. */
    method MapDirect(i: nat, k: nat) returns (addr: nat)
      requires Valid() && i < |view.files| && k < NDIRECT && k !in view.files[i].blocks
      modifies this
      ensures Valid() && dinodes == old(dinodes) && OthersKept(old(inodes), inodes, i)
              && IndOf(S(), i) == IndOf(old(S()), i)
      ensures addr == 0 ==> view == old(view) && logged == old(logged) && view.free == {}
      ensures addr != 0 ==> addr in old(view).free && addr == BlockAt(S(), i, k)
      ensures addr != 0 ==>
                view == WithFile(old(view), i, Linked(old(view).files[i], k, Zero())).(free := old(view).free - {addr})
      ensures addr != 0 ==> logged == old(logged) + {BBlock(addr), addr}
      ensures Tracked(bmapstart, old(S()), S(), old(logged), logged)
    {
      addr := Balloc();
      if addr == 0 {
        return;
      }
      RepLinkDirect(S(), view, i, k, addr);
      inodes := inodes[i := inodes[i].(addrs := inodes[i].addrs[k := addr])];
      owner := owner[addr := At(i, k)];
      view := WithFile(view, i, Linked(view.files[i], k, Zero())).(hands := view.hands - {addr});
      assert view == WithFile(old(view), i, Linked(old(view).files[i], k, Zero())).(free := old(view).free - {addr});
    }

    /** bmap's first half for the rest: the indirect block, allocated if missing. */
    method MapIndirect(i: nat) returns (ind: nat)
      requires Valid() && i < |view.files|
      modifies this
      ensures Valid() && dinodes == old(dinodes) && OthersKept(old(inodes), inodes, i) && IndOf(S(), i) == ind
      ensures forall k: nat :: k < MAXFILE ==> BlockAt(S(), i, k) == BlockAt(old(S()), i, k)
      ensures ind == 0 ==> view == old(view) && logged == old(logged) && view.free == {}
      ensures IndOf(old(S()), i) != 0 ==> S() == old(S()) && view == old(view) && logged == old(logged)
      ensures ind != 0 ==> view.files == old(view).files[i := old(view).files[i].(ind := true)]
      ensures ind != 0 ==>
                view.hands == old(view).hands && view.free == old(view).free - {ind}
                && logged <= old(logged) + IndLog(i)
      ensures Tracked(bmapstart, old(S()), S(), old(logged), logged)
    {
      assert FileRep(S(), i, view.files[i]);
      ind := inodes[i].addrs[NDIRECT];
      if ind != 0 {
        assert InodeOk(S(), i);
        return;
      }
      ghost var s0 := S();
      ind := Balloc();
      if ind == 0 {
        return;
      }
      TakeInv(s0, ind);
      RepLinkInd(S(), view, i, ind);
      LinkIndInv(S(), i, ind);
      inodes := inodes[i := inodes[i].(addrs := inodes[i].addrs[NDIRECT := ind])];
      owner := owner[ind := Ind(i)];
      view := WithFile(view, i, view.files[i].(ind := true)).(hands := view.hands - {ind});
    }

    /** bmap's second half: entry `j` of the indirect block. */
    method MapLeaf(i: nat, j: nat, ind: nat) returns (addr: nat)
      requires Valid() && i < |view.files| && j < NINDIRECT && ind == IndOf(S(), i) && view.files[i].ind
      requires NDIRECT + j !in view.files[i].blocks
      modifies this
      ensures Valid() && dinodes == old(dinodes) && OthersKept(old(inodes), inodes, i) && IndOf(S(), i) == ind
      ensures addr == 0 ==> view == old(view) && logged == old(logged) && view.free == {}
      ensures addr != 0 ==> addr in old(view).free && addr == BlockAt(S(), i, NDIRECT + j)
      ensures addr != 0 ==>
                view == WithFile(old(view), i, Linked(old(view).files[i], NDIRECT + j, Zero())).(free :=
                    old(view).free - {addr})
      ensures addr != 0 ==> logged == old(logged) + {BBlock(addr), addr, ind}
      ensures Tracked(bmapstart, old(S()), S(), old(logged), logged)
    {
      ghost var s0 := S();
      addr := Balloc();
      if addr == 0 {
        return;
      }
      TakeInv(s0, addr);
      RepLinkLeaf(S(), view, i, j, addr);
      assert FileRep(S(), i, view.files[i]);
      assert BlockAt(S(), i, NDIRECT + j) == 0;
      LinkLeafInv(S(), i, j, addr);
      disk := disk[ind := SetWord(disk[ind], j, addr)];
      logged := logged + {ind};
      owner := owner[addr := At(i, NDIRECT + j)];
      view := WithFile(view, i, Linked(view.files[i], NDIRECT + j, Zero())).(hands := view.hands - {addr});
      assert view == WithFile(old(view), i, Linked(old(view).files[i], NDIRECT + j, Zero())).(free :=
          old(view).free - {addr});
    }

    /** bmap for a block behind the indirect block. */
    method MapBehind(i: nat, bn: nat) returns (addr: nat)
      requires Valid() && i < |view.files| && NDIRECT <= bn < MAXFILE
      modifies this
      ensures Valid() && dinodes == old(dinodes) && OthersKept(old(inodes), inodes, i) && view.hands == old(view).hands
              && view.free <= old(view).free
      ensures |view.free| + 2 >= |old(view).free|
      ensures addr != 0 ==>
                |view.files| == |old(view).files| && bn in view.files[i].blocks && addr == BlockAt(S(), i, bn)
      ensures bn in old(view).files[i].blocks ==>
                addr != 0 && view == old(view) && logged == old(logged) && S() == old(S())
      ensures bn !in old(view).files[i].blocks ==> Mapped(old(view), view, i, bn, addr)
      ensures bn !in old(view).files[i].blocks ==>
                logged <= old(logged) + IndLog(i) + (if addr == 0 then {} else {addr, BBlock(addr)})
      ensures IndOf(old(S()), i) != 0 ==> IndOf(S(), i) == IndOf(old(S()), i)
      ensures Tracked(bmapstart, old(S()), S(), old(logged), logged)
    {
      BlockHere(S(), view, i, bn);
      var ind := MapIndirect(i);
      if ind == 0 {
        return 0;
      }
      ghost var t, m := S(), logged;
      BlockHere(S(), view, i, bn);
      addr := Word(disk[ind], bn - NDIRECT);
      if addr == 0 {
        addr := MapLeaf(i, bn - NDIRECT, ind);
        TrackedThen(bmapstart, old(S()), t, S(), old(logged), m, logged);
      }
    }

    /** bmap: the disk block of block `bn` of file `i`, allocated if missing; 0 when
        the disk is full. */
    method Bmap(i: nat, bn: nat) returns (addr: nat)
      requires Valid() && i < |view.files| && bn < MAXFILE
      modifies this
      ensures Valid() && dinodes == old(dinodes) && OthersKept(old(inodes), inodes, i) && view.hands == old(view).hands
              && view.free <= old(view).free
      ensures |view.free| + 2 >= |old(view).free|
      ensures addr != 0 ==>
                |view.files| == |old(view).files| && bn in view.files[i].blocks && addr == BlockAt(S(), i, bn)
      ensures bn in old(view).files[i].blocks ==>
                addr != 0 && view == old(view) && logged == old(logged) && S() == old(S())
      ensures bn !in old(view).files[i].blocks ==> Mapped(old(view), view, i, bn, addr)
      ensures bn !in old(view).files[i].blocks ==>
                logged <= old(logged) + IndLog(i) + (if addr == 0 then {} else {addr, BBlock(addr)})
      ensures IndOf(old(S()), i) != 0 ==> IndOf(S(), i) == IndOf(old(S()), i)
      ensures Tracked(bmapstart, old(S()), S(), old(logged), logged)
    {
      if bn >= NDIRECT {
        addr := MapBehind(i, bn);
        return;
      }
      BlockHere(S(), view, i, bn);
      addr := inodes[i].addrs[bn];
      if addr == 0 {
        addr := MapDirect(i, bn);
      }
    }

    /** iupdate. */
    method Iupdate(i: nat)
      requires Valid() && i < |inodes|
      modifies this
      ensures Valid() && S() == old(S()) && view == old(view)
      ensures dinodes == old(dinodes)[i := inodes[i]] && logged == old(logged) + {IBlock(i)}
      ensures TrackedInodes(inodestart, old(dinodes), dinodes, logged)
    {
      dinodes := dinodes[i := inodes[i]];
      logged := logged + {IBlock(i)};
    }

    /** Free direct block `k`. */
    method FreeDirect(i: nat, k: nat)
      requires Valid() && i < |view.files| && k < NDIRECT && k in view.files[i].blocks
      modifies this
      ensures Valid() && dinodes == old(dinodes) && OthersKept(old(inodes), inodes, i) && disk == old(disk)
      ensures view.files == old(view).files[i := old(view).files[i].(blocks := Drop(old(view).files[i].blocks, k))]
      ensures |inodes| == |old(inodes)| && |inodes[i].addrs| == |old(inodes)[i].addrs| == NDIRECT + 1
      ensures forall l :: 0 <= l <= NDIRECT && l != k ==> inodes[i].addrs[l] == old(inodes)[i].addrs[l]
      ensures BlockAt(old(S()), i, k) < |owner| && owner == old(owner)[BlockAt(old(S()), i, k) := Free]
      ensures LogsFreed(bmapstart, old(logged), logged, old(owner), owner)
    {
      ghost var l, o := logged, owner;
      BlockHere(S(), view, i, k);
      RepUnlinkDirect(S(), view, i, k);
      var b := inodes[i].addrs[k];
      inodes := inodes[i := inodes[i].(addrs := inodes[i].addrs[k := 0])];
      owner := owner[b := Hand];
      view := WithFile(view, i, view.files[i].(blocks := Drop(view.files[i].blocks, k))).(hands := view.hands + {b});
      LogsNone(bmapstart, l, o, owner);
      LogsNext(bmapstart, l, l, l + {BBlock(b)}, o, owner, owner[b := Free], b);
      Bfree(b);
    }

    /** The first loop of itrunc. */
    method TruncDirect(i: nat)
      requires Valid() && i < |view.files|
      modifies this
      ensures Valid() && dinodes == old(dinodes) && OthersKept(old(inodes), inodes, i)
      ensures view.files == old(view).files[i := old(view).files[i].(blocks := From(old(view).files[i].blocks,
          NDIRECT))]
      ensures OwnersFreed(old(owner), owner, i, 0, NDIRECT) && disk == old(disk)
      ensures LogsFreed(bmapstart, old(logged), logged, old(owner), owner)
    {
      ghost var s0, v0, l0 := S(), view, logged;
      FromAll(v0, i);
      LogsNone(bmapstart, l0, owner, owner);
      for k := 0 to NDIRECT
        invariant Valid() && dinodes == old(dinodes) && OthersKept(old(inodes), inodes, i) && disk == s0.disk
                  && |inodes| == |s0.inodes|
        invariant view.files == v0.files[i := v0.files[i].(blocks := From(v0.files[i].blocks, k))]
        invariant OwnersFreed(s0.owner, owner, i, 0, k) && LogsFreed(bmapstart, l0, logged, s0.owner, owner)
        invariant |inodes[i].addrs| == |s0.inodes[i].addrs| == NDIRECT + 1
        invariant forall l :: k <= l <= NDIRECT ==> inodes[i].addrs[l] == s0.inodes[i].addrs[l]
      {
        BlockHere(S(), view, i, k);
        BlockHere(s0, v0, i, k);
        FromNext(v0.files[i].blocks, k);
        ghost var o, l := owner, logged;
        if inodes[i].addrs[k] != 0 {
          FreeDirect(i, k);
          LogsThen(bmapstart, l0, l, logged, s0.owner, o, owner);
        }
        FreedNext(s0, o, owner, i, k);
      }
    }

    /** The loop of itrunc over the indirect block, which is detached already. */
    method FreeLeaves(i: nat, ind: nat, ghost s: Fs)
      requires Valid() && i < |view.files| && Inv(s) && i < |s.inodes| && ind == IndOf(s, i) && ind != 0
      requires disk == s.disk && owner == Detach(s, i).owner && |disk| == |s.owner| && ind < |disk|
      modifies this
      ensures Valid() && dinodes == old(dinodes) && OthersKept(old(inodes), inodes, i) && inodes == old(inodes)
              && view.files == old(view).files
      ensures LeavesFreed(s.owner, owner, i, NINDIRECT) && ind in view.hands && disk == old(disk)
      ensures LogsFreed(bmapstart, old(logged), logged, s.owner, owner)
    {
      assert InodeOk(s, i);
      LogsNone(bmapstart, logged, s.owner, owner);
      for j := 0 to NINDIRECT
        invariant Valid() && dinodes == old(dinodes) && OthersKept(old(inodes), inodes, i) && inodes == old(inodes)
                  && view.files == old(view).files
        invariant disk == s.disk && LeavesFreed(s.owner, owner, i, j)
        invariant LogsFreed(bmapstart, old(logged), logged, s.owner, owner)
      {
        var w := Word(disk[ind], j);
        assert w == BlockAt(s, i, NDIRECT + j);
        ghost var o, l := owner, logged;
        if w != 0 {
          Bfree(w);
          LogsNext(bmapstart, old(logged), l, logged, s.owner, o, owner, w);
        }
        LeavesNext(s, o, owner, i, j);
      }
      assert ind in HandSet(S());
    }

    /** Take the indirect block out of the inode, with all that is behind it. */
    method Unhook(i: nat)
      requires Valid() && i < |view.files| && IndOf(S(), i) != 0
      modifies this`inodes, this`owner, this`view
      ensures Valid() && OthersKept(old(inodes), inodes, i)
      ensures i < |old(S()).inodes| && S() == Detach(old(S()), i) && |disk| == |owner|
      ensures IndOf(old(S()), i) < |disk|
      ensures view.files == old(view).files[i := old(view).files[i].(ind := false, blocks :=
          Direct(old(view).files[i].blocks))]
    {
      ghost var s := S();
      BlockHere(s, view, i, NDIRECT);
      RepDetach(s, view, i);
      inodes := inodes[i := inodes[i].(addrs := inodes[i].addrs[NDIRECT := 0])];
      owner := Detach(s, i).owner;
      view := WithFile(view, i, view.files[i].(ind := false, blocks := Direct(view.files[i].blocks))).(hands :=
          view.hands + IndSet(s, i));
      assert S() == Detach(s, i);
    }

    /** The indirect block itself, after its leaves. */
    method FreeInd(i: nat, ind: nat, ghost s: Fs, ghost l: set<nat>)
      requires Valid() && Inv(s) && i < |s.inodes| && ind == IndOf(s, i) && ind != 0 && ind in view.hands
      requires LeavesFreed(s.owner, owner, i, NINDIRECT) && LogsFreed(bmapstart, l, logged, s.owner, owner)
      modifies this
      ensures Valid() && dinodes == old(dinodes) && inodes == old(inodes) && view.files == old(view).files
              && disk == old(disk)
      ensures LeavesFreed(s.owner, owner, i, NINDIRECT + 1) && LogsFreed(bmapstart, l, logged, s.owner, owner)
    {
      ghost var o, m := owner, logged;
      Bfree(ind);
      LogsNext(bmapstart, l, m, logged, s.owner, o, owner, ind);
      IndFreed(s, o, owner, i);
    }

    /** The second half of itrunc. */
    method TruncIndirect(i: nat)
      requires Valid() && i < |view.files|
      modifies this
      ensures Valid() && dinodes == old(dinodes) && OthersKept(old(inodes), inodes, i)
      ensures view.files == old(view).files[i := old(view).files[i].(ind := false, blocks :=
          Direct(old(view).files[i].blocks))]
      ensures LeavesFreed(old(owner), owner, i, NINDIRECT + 1) && disk == old(disk)
      ensures LogsFreed(bmapstart, old(logged), logged, old(owner), owner)
    {
      ghost var s := S();
      BlockHere(s, view, i, NDIRECT);
      NoIndirect(s, view, i);
      var ind := inodes[i].addrs[NDIRECT];
      if ind == 0 {
        LogsNone(bmapstart, logged, owner, owner);
        return;
      }
      Unhook(i);
      FreeLeaves(i, ind, s);
      FreeInd(i, ind, s, old(logged));
    }

    /** itrunc: the file is empty, and exactly its blocks are free again; it logs their
        bitmap blocks and the block of the inode. */
    method Itrunc(i: nat)
      requires Valid() && i < |view.files|
      modifies this
      ensures Valid() && i < |inodes| && i < |old(dinodes)| && dinodes == old(dinodes)[i := inodes[i]]
              && OthersKept(old(inodes), inodes, i)
      ensures view.files == old(view).files[i := old(view).files[i].(size := 0, ind := false, blocks := map[])]
      ensures view.free == old(view).free + FileBlocks(old(owner), i) && view.hands == old(view).hands
      ensures old(view).free !! FileBlocks(old(owner), i)
      ensures logged == old(logged) + BitmapOf(bmapstart, FileBlocks(old(owner), i)) + {IBlock(i)}
      ensures Tracked(bmapstart, old(S()), S(), old(logged), logged)
      ensures TrackedInodes(inodestart, old(dinodes), dinodes, logged)
    {
      ghost var o, v, l := owner, view, logged;
      TruncDirect(i);
      ghost var p, m := owner, logged;
      TruncIndirect(i);
      IndexBound(old(S()));
      AllFreed(o, p, owner, i);
      LogsThen(bmapstart, l, m, logged, o, p, owner);
      FreedFile(o, owner, i);
      assert Direct(From(v.files[i].blocks, NDIRECT)) == map[];
      RepSetStat(S(), view, i, inodes[i].kind, inodes[i].nlink, 0);
      assert FileRep(S(), i, view.files[i]);
      inodes := inodes[i := inodes[i].(size := 0)];
      view := WithFile(view, i, view.files[i].(size := 0));
      Iupdate(i);
      TrackedFreed(bmapstart, old(S()), old(view), S(), view, old(logged), logged, FileBlocks(old(owner), i));
    }
  }

  /** The blocks that belong to file `i`: its data and its indirect block. */
  ghost function FileBlocks(o: seq<Owner>, i: nat): set<nat> {
    set b: nat | b < |o| && (o[b] == Ind(i) || (o[b].At? && o[b].ino == i))
  }

  /** The blocks that were in use and are free now, and the bitmap blocks of some blocks. */
  ghost function Freed(o: seq<Owner>, p: seq<Owner>): set<nat>
    requires |p| == |o|
  {
    set b: nat | b < |o| && p[b] == Free && o[b] != Free
  }

  ghost function BitmapOf(start: nat, bs: set<nat>): set<nat> { set b | b in bs :: b / BPB + start }

  /** Exactly the bitmap blocks of the freed blocks were logged. */
  ghost predicate LogsFreed(start: nat, l: set<nat>, m: set<nat>, o: seq<Owner>, p: seq<Owner>) {
    && |p| == |o| && m == l + BitmapOf(start, Freed(o, p))
    && forall b :: 0 <= b < |o| && o[b] == Free ==> p[b] == Free
  }

  lemma LogsNone(start: nat, l: set<nat>, o: seq<Owner>, p: seq<Owner>)
    requires |p| == |o| && forall b :: 0 <= b < |o| ==> (p[b] == Free <==> o[b] == Free)
    ensures LogsFreed(start, l, l, o, p)
  {
    assert Freed(o, p) == {};
    assert BitmapOf(start, {}) == {};
  }

  lemma LogsThen(start: nat, l: set<nat>, m: set<nat>, n: set<nat>, o: seq<Owner>, p: seq<Owner>, q: seq<Owner>)
    requires LogsFreed(start, l, m, o, p) && LogsFreed(start, m, n, p, q)
    ensures LogsFreed(start, l, n, o, q)
  {
    assert Freed(o, q) == Freed(o, p) + Freed(p, q);
    BitmapUnion(start, Freed(o, p), Freed(p, q));
  }

  lemma BitmapUnion(start: nat, a: set<nat>, b: set<nat>)
    ensures BitmapOf(start, a + b) == BitmapOf(start, a) + BitmapOf(start, b)
  {
  }

  lemma LogsNext(start: nat, l: set<nat>, m: set<nat>, n: set<nat>, o: seq<Owner>, p: seq<Owner>, q: seq<Owner>, b: nat)
    requires LogsFreed(start, l, m, o, p) && b < |p| && p[b] != Free && q == p[b := Free]
    requires n == m + {b / BPB + start}
    ensures LogsFreed(start, l, n, o, q)
  {
    assert Freed(p, q) == {b};
    assert BitmapOf(start, {b}) == {b / BPB + start};
    LogsThen(start, l, m, n, o, p, q);
  }

  /** Bits change only for the blocks that were freed. */
  lemma TrackedFreed(bmapstart: nat, s: Fs, v: View, t: Fs, w: View, l: set<nat>, m: set<nat>, bs: set<nat>)
    requires Rep(s, v) && Rep(t, w) && t.disk == s.disk && t.size == s.size && w.free == v.free + bs
    requires l <= m && BitmapOf(bmapstart, bs) <= m
    ensures Tracked(bmapstart, s, t, l, m)
  {
    FreeBits(s, v);
    FreeBits(t, w);
    forall b: nat | b < |s.used| && t.used[b] != s.used[b]
      ensures b / 8192 + bmapstart in m
    {
      assert b in bs;
    }
  }

  lemma FreedFile(o: seq<Owner>, p: seq<Owner>, i: nat)
    requires |p| == |o| && forall b :: 0 <= b < |o| ==> p[b] == if b in FileBlocks(o, i) then Free else o[b]
    ensures Freed(o, p) == FileBlocks(o, i)
  {
  }

  /** The first `j` blocks behind the indirect block of `i` are free, the others and
      the indirect block are in hand; with one more, that is free as well. */
  ghost predicate LeavesFreed(o: seq<Owner>, p: seq<Owner>, i: nat, j: nat) {
    && |p| == |o|
    && forall b :: 0 <= b < |o| ==>
         p[b] == if o[b].At? && o[b].ino == i && NDIRECT <= o[b].k < NDIRECT + j then Free
                 else if o[b] == Ind(i) && j > NINDIRECT then Free
                 else if BelowInd(o[b], i) then Hand
                 else o[b]
  }

  lemma LeavesNext(s: Fs, o: seq<Owner>, p: seq<Owner>, i: nat, j: nat)
    requires Inv(s) && i < |s.inodes| && j < NINDIRECT && LeavesFreed(s.owner, o, i, j)
    requires var w := BlockAt(s, i, NDIRECT + j); if w == 0 then p == o else w < |o| && p == o[w := Free]
    ensures LeavesFreed(s.owner, p, i, j + 1)
  {
    assert InodeOk(s, i);
    assert BlockOk(s, 0);
    forall b: nat | b < |s.owner|
      ensures s.owner[b] == At(i, NDIRECT + j) ==> b == BlockAt(s, i, NDIRECT + j)
    {
      assert BlockOk(s, b);
    }
  }

  lemma IndexBound(s: Fs)
    requires Inv(s)
    ensures forall b :: 0 <= b < |s.owner| && s.owner[b].At? ==> s.owner[b].k < MAXFILE
  {
    forall b: nat | b < |s.owner| && s.owner[b].At?
      ensures s.owner[b].k < MAXFILE
    {
      assert BlockOk(s, b);
    }
  }

  lemma IndFreed(s: Fs, o: seq<Owner>, p: seq<Owner>, i: nat)
    requires Inv(s) && i < |s.inodes| && LeavesFreed(s.owner, o, i, NINDIRECT) && IndOf(s, i) != 0
    requires IndOf(s, i) < |o| && p == o[IndOf(s, i) := Free]
    ensures LeavesFreed(s.owner, p, i, NINDIRECT + 1)
  {
    assert InodeOk(s, i);
    forall b: nat | b < |s.owner|
      ensures s.owner[b] == Ind(i) ==> b == IndOf(s, i)
      ensures s.owner[b].At? ==> s.owner[b].k < MAXFILE
    {
      assert BlockOk(s, b);
    }
  }

  lemma NoIndirect(s: Fs, v: View, i: nat)
    requires Rep(s, v) && i < |v.files|
    ensures IndOf(s, i) == 0 ==> Direct(v.files[i].blocks) == v.files[i].blocks && !v.files[i].ind
    ensures IndOf(s, i) == 0 ==> LeavesFreed(s.owner, s.owner, i, NINDIRECT + 1)
  {
    assert FileRep(s, i, v.files[i]);
    assert BlockOk(s, 0);
    if IndOf(s, i) == 0 {
      forall k: nat | k in v.files[i].blocks
        ensures k < NDIRECT
      {
        assert k < MAXFILE && BlockAt(s, i, k) != 0;
      }
      assert Direct(v.files[i].blocks) == v.files[i].blocks;
      forall b: nat | b < |s.owner|
        ensures !BelowInd(s.owner[b], i)
      {
        assert BlockOk(s, b);
      }
    }
  }

  lemma AllFreed(o: seq<Owner>, p: seq<Owner>, q: seq<Owner>, i: nat)
    requires OwnersFreed(o, p, i, 0, NDIRECT) && LeavesFreed(p, q, i, NINDIRECT + 1)
    requires forall b :: 0 <= b < |o| && o[b].At? ==> o[b].k < MAXFILE
    ensures |q| == |o| && forall b :: 0 <= b < |o| ==> q[b] == if b in FileBlocks(o, i) then Free else o[b]
  {
  }

  /** The blocks of `bl` from `k` on. */
  ghost function From(bl: Blocks, k: nat): Blocks {
    map j | j in bl && j >= k :: bl[j]
  }

  lemma FromNext(bl: Blocks, k: nat)
    ensures Drop(From(bl, k), k) == From(bl, k + 1)
    ensures k !in bl ==> From(bl, k) == From(bl, k + 1)
  {
  }

  lemma FromAll(v: View, i: nat)
    requires i < |v.files|
    ensures v.files[i := v.files[i].(blocks := From(v.files[i].blocks, 0))] == v.files
  {
    assert From(v.files[i].blocks, 0) == v.files[i].blocks;
  }

  /** File `i` has lost its blocks lo .. hi - 1, which are free now. */
  ghost predicate OwnersFreed(o: seq<Owner>, p: seq<Owner>, i: nat, lo: nat, hi: nat) {
    && |p| == |o|
    && forall b :: 0 <= b < |o| ==> p[b] == if o[b].At? && o[b].ino == i && lo <= o[b].k < hi then Free else o[b]
  }

  lemma FreedNext(s: Fs, o: seq<Owner>, p: seq<Owner>, i: nat, k: nat)
    requires Inv(s) && i < |s.inodes| && k < NDIRECT && OwnersFreed(s.owner, o, i, 0, k)
    requires if BlockAt(s, i, k) == 0 then p == o else BlockAt(s, i, k) < |o| && p == o[BlockAt(s, i, k) := Free]
    ensures OwnersFreed(s.owner, p, i, 0, k + 1)
  {
    assert InodeOk(s, i);
    forall b: nat | b < |s.owner|
      ensures p[b] == if s.owner[b].At? && s.owner[b].ino == i && 0 <= s.owner[b].k < k + 1 then Free else s.owner[b]
    {
      assert BlockOk(s, b);
    }
  }

  lemma BlockHere(s: Fs, v: View, i: nat, bn: nat)
    requires Rep(s, v) && i < |v.files| && bn < MAXFILE
    ensures |s.inodes[i].addrs| == NDIRECT + 1
    ensures bn in v.files[i].blocks <==> BlockAt(s, i, bn) != 0
    ensures v.files[i].ind <==> IndOf(s, i) != 0
    ensures NDIRECT <= bn && bn in v.files[i].blocks ==> v.files[i].ind
    ensures IndOf(s, i) < s.size && |s.disk| == s.size
    ensures bn < NDIRECT ==> BlockAt(s, i, bn) == s.inodes[i].addrs[bn]
    ensures NDIRECT <= bn && IndOf(s, i) != 0 ==> BlockAt(s, i, bn) == Word(s.disk[IndOf(s, i)], bn - NDIRECT)
  {
    assert FileRep(s, i, v.files[i]);
    assert InodeOk(s, i);
  }

  /** bmap added block `bn` to file `i`, or found the disk full; an indirect block
      may have been added in both cases. */
  ghost predicate Mapped(v: View, w: View, i: nat, bn: nat, addr: nat) {
    && i < |v.files| == |w.files|
    && w.files == v.files[i := w.files[i]]
    && w.files[i].kind == v.files[i].kind && w.files[i].nlink == v.files[i].nlink && w.files[i].size == v.files[i].size
    && w.files[i].blocks == (if addr == 0 then v.files[i].blocks else Put(v.files[i].blocks, bn, Zero()))
    && (addr == 0 ==> w.free == {})
    && (addr != 0 ==> addr in v.free && addr !in w.free)
  }

  /** The clear bits are the free blocks, and block 0 is not one of them. */
  lemma FreeBits(s: Fs, v: View)
    requires Rep(s, v)
    ensures forall q: nat :: q < s.size ==> (s.used[q] <==> q !in v.free)
    ensures forall q :: q in v.free ==> q < s.size
    ensures 0 !in v.free
  {
    forall q: nat | q < s.size
      ensures s.used[q] <==> q !in v.free
    {
      assert BlockOk(s, q);
    }
    assert BlockOk(s, 0);
  }
}
