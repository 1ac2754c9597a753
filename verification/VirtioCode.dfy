/** The driver code of xv6/kernel/virtio_disk.c, in place on its structures, against the
    steps of the machine. */
module VirtioCode {
  import opened Options
  import opened Virtio

  class Driver {
    var desc: seq<Desc>
    var free: seq<bool>
    var ops: seq<Cmd>
    var owner: seq<Option<nat>>
    var status: seq<nat>
    var avail: seq<nat>
    var availIdx: nat
    var used: seq<nat>
    var usedIdx: nat
    var seenIdx: nat
    var waiting: set<nat>

    ghost function M(): Mem
      reads this
    {
      Mem(desc, free, ops, owner, status, avail, availIdx, used, usedIdx, seenIdx, waiting)
    }

    ghost predicate Sized()
      reads this
    {
      |desc| == |free| == |ops| == |owner| == |status| == |avail| == |used| == NUM
    }

    /** Free descriptors are cleared, as init and free_desc leave them. */
    ghost predicate Cleared()
      reads this
    {
      Sized() && forall i :: 0 <= i < NUM && free[i] ==> desc[i] == NODESC
    }

    /** alloc_desc: the first free descriptor, or none. */
    method AllocDesc() returns (r: Option<nat>)
      requires Cleared()
      modifies this`free
      ensures Cleared()
      ensures r.None? ==> free == old(free) && forall i :: 0 <= i < NUM ==> !free[i]
      ensures r.Some? ==> r.value < NUM && old(free)[r.value] && free == old(free)[r.value := false]
      ensures r.Some? ==> forall i :: 0 <= i < r.value ==> !old(free)[i]
    {
      for i := 0 to NUM
        invariant free == old(free) && forall j :: 0 <= j < i ==> !free[j]
      {
        if free[i] {
          free := free[i := false];
          return Some(i);
        }
      }
      r := None;
    }

    /** free_desc of a descriptor in use; both panics are ruled out. */
    method FreeDesc(i: nat)
      requires Sized() && i < NUM && !free[i]
      modifies this`free, this`desc
      ensures Sized() && free == old(free)[i := true] && desc == old(desc)[i := NODESC]
    {
      desc := desc[i := NODESC];
      free := free[i := true];
    }

    /** alloc3_desc: three different free descriptors, or everything as it was; it fails
        exactly when fewer than three are free. */
    method Alloc3() returns (ok: bool, d0: nat, d1: nat, d2: nat)
      requires Cleared()
      modifies this`free, this`desc
      ensures Cleared()
      ensures !ok ==> free == old(free) && desc == old(desc) && !exists i, j, k :: ThreeFree(free, i, j, k)
      ensures ok ==> ThreeFree(old(free), d0, d1, d2) && desc == old(desc)
      ensures ok ==> free == old(free)[d0 := false][d1 := false][d2 := false]
    {
      ok, d0, d1, d2 := false, 0, 0, 0;
      ghost var f := free;
      var a := AllocDesc();
      if a.None? {
        return;
      }
      d0 := a.value;
      var b := AllocDesc();
      if b.None? {
        forall i | 0 <= i < NUM && f[i]
          ensures i == d0
        {
          assert !free[i];
        }
        FreeDesc(d0);
        assert free == f && desc == old(desc);
        return;
      }
      d1 := b.value;
      var c := AllocDesc();
      if c.None? {
        forall i | 0 <= i < NUM && f[i]
          ensures i == d0 || i == d1
        {
          assert !free[i];
        }
        FreeDesc(d0);
        FreeDesc(d1);
        assert free == f && desc == old(desc);
        return;
      }
      d2 := c.value;
      ok := true;
    }

    /** free_chain from the head of a request: exactly its three descriptors. */
    method FreeChain(h: nat, ghost r: Req)
      requires Sized() && Apart(r) && r.d0 == h && !free[r.d0] && !free[r.d1] && !free[r.d2]
      requires desc[r.d0].more && desc[r.d0].next == r.d1 && desc[r.d1].more && desc[r.d1].next == r.d2
               && !desc[r.d2].more
      modifies this`free, this`desc
      ensures Sized() && free == old(free)[r.d0 := true][r.d1 := true][r.d2 := true]
      ensures desc == old(desc)[r.d0 := NODESC][r.d1 := NODESC][r.d2 := NODESC]
    {
      var i := h;
      ghost var left := 2;
      while true
        invariant Sized() && 0 <= left <= 2 && i == (if left == 2 then r.d0 else if left == 1 then r.d1 else r.d2)
        invariant left == 2 ==> free == old(free) && desc == old(desc)
        invariant left == 1 ==> free == old(free)[r.d0 := true] && desc == old(desc)[r.d0 := NODESC]
        invariant left == 0 ==>
                    free == old(free)[r.d0 := true][r.d1 := true] && desc == old(desc)[r.d0 := NODESC][r.d1 := NODESC]
        decreases left
      {
        var more, next := desc[i].more, desc[i].next;
        FreeDesc(i);
        if !more {
          break;
        }
        i := next;
        left := left - 1;
      }
    }

    /** The three descriptors of a request, its command and its status byte. */
    method Describe(buf: nat, write: bool, block: nat, d0: nat, d1: nat, d2: nat)
      requires Sized() && d0 < NUM && d1 < NUM && d2 < NUM
      modifies this`ops, this`desc, this`status
      ensures ops == old(ops)[d0 := Cmd(write, block)] && status == old(status)[d0 := 0xff]
      ensures desc == old(desc)[d0 := Desc(Command(d0), true, false, d1)]
                               [d1 := Desc(Data(buf), true, !write, d2)]
                               [d2 := Desc(Status(d0), false, true, 0)]
    {
      ops := ops[d0 := Cmd(write, block)];
      desc := desc[d0 := Desc(Command(d0), true, false, d1)];
      desc := desc[d1 := Desc(Data(buf), true, !write, d2)];
      status := status[d0 := 0xff];
      desc := desc[d2 := Desc(Status(d0), false, true, 0)];
    }

    /** virtio_disk_rw from its three descriptors to the notification: the machine's
        submit step. */
    method Start(buf: nat, write: bool, block: nat, d0: nat, d1: nat, d2: nat)
      requires Sized() && d0 < NUM && d1 < NUM && d2 < NUM && d0 != d1 && d1 != d2 && d0 != d2
      modifies this
      ensures M() == SubmitMem(old(M()), buf, Cmd(write, block), d0, d1, d2).(free := old(free))
    {
      Describe(buf, write, block, d0, d1, d2);
      waiting := waiting + {buf};
      owner := owner[d0 := Some(buf)];
      avail := avail[availIdx % NUM := d0];
      availIdx := (availIdx + 1) % IDX;
    }

    /** The first half of virtio_disk_rw. Either it finds three descriptors, and the step
        is the machine's submit, or it has to sleep and nothing has changed. */
    method Begin(buf: nat, write: bool, block: nat, ghost s: State) returns (ok: bool, head: nat, ghost t: State)
      requires Inv(s) && s.m == M() && Cleared() && buf !in s.flight
      modifies this
      ensures Inv(t) && t.m == M() && Cleared()
      ensures !ok ==> t == s && !exists i, j, k :: ThreeFree(free, i, j, k)
      ensures ok ==>
                exists d1, d2 ::
                  && CanSubmit(s.m, s.flight, buf, head, d1, d2)
                  && t == Submit(s, buf, Cmd(write, block), head, d1, d2)
    {
      t := s;
      var d0, d1, d2;
      ok, d0, d1, d2 := Alloc3();
      head := d0;
      if ok {
        Start(buf, write, block, d0, d1, d2);
        assert CanSubmit(s.m, s.flight, buf, d0, d1, d2);
        SubmitInv(s, buf, Cmd(write, block), d0, d1, d2);
        t := Submit(s, buf, Cmd(write, block), d0, d1, d2);
      }
    }

    /** One round of virtio_disk_intr. */
    method Complete(ghost s: State) returns (ghost t: State)
      requires Inv(s) && s.m == M() && Cleared() && seenIdx != usedIdx
      modifies this
      ensures CanSee(s) && ReadyToSee(s, NextUsed(s.m)) && t == See(s) && Inv(t) && t.m == M() && Cleared()
    {
      SeeInv(s);
      var id := used[seenIdx % NUM];
      assert status[id] == 0;
      var b := owner[id].value;
      waiting := waiting - {b};
      seenIdx := (seenIdx + 1) % IDX;
      t := See(s);
    }

    /** virtio_disk_intr: everything on the used ring is completed, in order. */
    method Intr(ghost s: State) returns (ghost t: State)
      requires Inv(s) && s.m == M() && Cleared()
      modifies this
      ensures Inv(t) && t.m == M() && Cleared() && t.uq == [] && t.seen == s.seen + |s.uq|
      ensures t.reqs == s.reqs && t.moves == s.moves && t.aq == s.aq
      ensures forall h :: h in s.uq && h in s.reqs ==> s.reqs[h].buf !in waiting
    {
      t := s;
      IndicesMeet(t);
      while seenIdx != usedIdx
        invariant Inv(t) && t.m == M() && Cleared() && (seenIdx != usedIdx <==> t.uq != [])
        invariant Handled(s, t)
        decreases |t.uq|
      {
        ghost var u := t;
        t := Complete(t);
        HandledMore(s, u, t);
        IndicesMeet(t);
      }
    }

    /** The end of virtio_disk_rw, when the flag of its buffer is clear. */
    method End(head: nat, ghost s: State) returns (ghost t: State)
      requires Inv(s) && s.m == M() && Cleared() && head in s.reqs && s.reqs[head].buf !in waiting
      modifies this
      ensures CanFree(s, head) && t == Release(s, head) && Inv(t) && t.m == M() && Cleared()
    {
      ClearIsSeen(s, head);
      ReleaseInv(s, head);
      InUse(s, head);
      ghost var r := s.reqs[head];
      owner := owner[head := None];
      FreeChain(head, r);
      t := Release(s, head);
    }
  }

  /** Where the handler stands when it started with `s`. */
  ghost predicate Handled(s: State, t: State) {
    && t.reqs == s.reqs && t.moves == s.moves && t.aq == s.aq && t.seen + |t.uq| == s.seen + |s.uq|
    && |t.uq| <= |s.uq| && t.uq == s.uq[|s.uq| - |t.uq|..]
    && forall k :: 0 <= k < |s.uq| - |t.uq| && s.uq[k] in s.reqs ==> s.reqs[s.uq[k]].buf !in t.m.waiting
  }

  lemma HandledMore(s: State, t: State, r: State)
    requires Inv(t) && Handled(s, t) && CanSee(t) && ReadyToSee(t, NextUsed(t.m)) && r == See(t)
    ensures Handled(s, r)
  {
    assert t.uq[0] == s.uq[|s.uq| - |t.uq|];
    assert t.uq[1..] == s.uq[|s.uq| - |t.uq| + 1..];
  }

  ghost predicate ThreeFree(free: seq<bool>, i: nat, j: nat, k: nat) {
    |free| == NUM && i < NUM && j < NUM && k < NUM && i != j && j != k && i != k && free[i] && free[j] && free[k]
  }

  /** The indices agree exactly when the used queue is empty. */
  lemma IndicesMeet(s: State)
    requires Inv(s)
    ensures s.m.seenIdx != s.m.usedIdx <==> s.uq != []
  {
    QueueSmall(s);
    Pigeonhole(s.uq, NUM);
  }

  lemma InUse(s: State, h: nat)
    requires Inv(s) && h in s.reqs
    ensures ChainOk(s.m, h, s.reqs[h]) && !s.m.free[s.reqs[h].d0] && !s.m.free[s.reqs[h].d1] && !s.m.free[s.reqs[h].d2]
  {
    assert ReqOk(s, h);
    assert DescOk(s, s.reqs[h].d0) && DescOk(s, s.reqs[h].d1) && DescOk(s, s.reqs[h].d2);
  }
}
