/** The disk driver's descriptor table and rings with the device on the other side
    (xv6/kernel/virtio_disk.c; sections 2.6 and 5.2 of Virtual I/O Device (VIRTIO)
    Version 1.1), as a state machine over the steps of both. */
module Virtio {
  import opened Options

  const NUM: nat := 8

  /** Ring indices are 16 bits wide. */
  const IDX: nat := 0x1_0000

  /** What a descriptor points to: the command of a chain, a buffer, or the status
      byte of a chain. */
  datatype Addr = Nowhere | Command(head: nat) | Data(buf: nat) | Status(head: nat)

  datatype Desc = Desc(addr: Addr, more: bool, writable: bool, next: nat)

  const NODESC := Desc(Nowhere, false, false, 0)

  datatype Cmd = Cmd(write: bool, block: nat)

  /** A request: its number, its buffer and command, and its three descriptors. */
  datatype Req = Req(id: nat, buf: nat, cmd: Cmd, d0: nat, d1: nat, d2: nat)

  /** On the avail ring; read by the device; on the used ring; completed. */
  datatype Phase = Queued | Inside | Done | Seen

  /** What driver and device share, and the driver's own records: `owner` and `status`
      are its info array, `waiting` the buffers whose disk flag is set. */
  datatype Mem = Mem(
    desc: seq<Desc>, free: seq<bool>, ops: seq<Cmd>, owner: seq<Option<nat>>, status: seq<nat>,
    avail: seq<nat>, availIdx: nat, used: seq<nat>, usedIdx: nat, seenIdx: nat, waiting: set<nat>)

  /** The history: the requests in flight by head descriptor and their phases, which
      chain has a descriptor and which head has a buffer or a number, the two queues with
      the counts of entries consumed, and how often each number was transferred and
      completed. `takenIdx` is the device's own index into the avail ring. */
  datatype State = State(
    m: Mem, takenIdx: nat,
    reqs: map<nat, Req>, phase: map<nat, Phase>, chain: seq<Option<nat>>, flight: map<nat, nat>,
    aq: seq<nat>, taken: nat, uq: seq<nat>, seen: nat,
    sent: seq<Req>, at: seq<Option<nat>>, moves: seq<nat>, ends: seq<nat>)

  // ---------------------------------------------------------------------------
  // Invariant
  // ---------------------------------------------------------------------------

  ghost predicate Shape(s: State) {
    && |s.m.desc| == |s.m.free| == |s.m.ops| == |s.m.owner| == |s.m.status| == NUM
    && |s.m.avail| == |s.m.used| == |s.chain| == NUM
    && |s.sent| == |s.at| == |s.moves| == |s.ends| && s.reqs.Keys == s.phase.Keys
  }

  ghost predicate Apart(r: Req) {
    r.d0 < NUM && r.d1 < NUM && r.d2 < NUM && r.d0 != r.d1 && r.d1 != r.d2 && r.d0 != r.d2
  }

  /** The chain of head `h` as the device will read it. */
  ghost predicate ChainOk(m: Mem, h: nat, r: Req)
    requires |m.desc| == |m.ops| == |m.owner| == NUM
  {
    && Apart(r) && r.d0 == h
    && m.desc[r.d0] == Desc(Command(h), true, false, r.d1)
    && m.desc[r.d1] == Desc(Data(r.buf), true, !r.cmd.write, r.d2)
    && m.desc[r.d2] == Desc(Status(h), false, true, 0)
    && m.ops[h] == r.cmd && m.owner[h] == Some(r.buf)
  }

  /** Everything that refers to the request with head `h` agrees about it. */
  ghost predicate ReqOk(s: State, h: nat)
    requires Shape(s) && h in s.reqs
  {
    var r := s.reqs[h];
    && ChainOk(s.m, h, r)
    && s.chain[r.d0] == s.chain[r.d1] == s.chain[r.d2] == Some(h)
    && r.buf in s.flight && s.flight[r.buf] == h
    && r.id < |s.sent| && s.sent[r.id] == r && s.at[r.id] == Some(h)
    && PhaseOk(s, h)
  }

  ghost predicate PhaseOk(s: State, h: nat)
    requires Shape(s) && h in s.reqs && s.reqs[h].id < |s.sent| && h < NUM
  {
    var r := s.reqs[h];
    match s.phase[h]
    case Queued => h in s.aq && s.moves[r.id] == 0 && s.ends[r.id] == 0 && r.buf in s.m.waiting
    case Inside => s.moves[r.id] == 0 && s.ends[r.id] == 0 && r.buf in s.m.waiting
    case Done => h in s.uq && s.m.status[h] == 0 && s.moves[r.id] == 1 && s.ends[r.id] == 0 && r.buf in s.m.waiting
    case Seen => s.moves[r.id] == 1 && s.ends[r.id] == 1 && r.buf !in s.m.waiting
  }

  /** A descriptor is free, or part of exactly the chain that owns it. */
  ghost predicate DescOk(s: State, i: nat)
    requires Shape(s) && i < NUM
  {
    match s.chain[i]
    case None => s.m.free[i]
    case Some(h) => !s.m.free[i] && h in s.reqs && (i == s.reqs[h].d0 || i == s.reqs[h].d1 || i == s.reqs[h].d2)
  }

  ghost predicate BufOk(s: State, b: nat)
    requires Shape(s)
  {
    && (b in s.flight ==> s.flight[b] in s.reqs && s.reqs[s.flight[b]].buf == b)
    && (b in s.m.waiting ==> b in s.flight && s.flight[b] in s.phase && s.phase[s.flight[b]] != Seen)
  }

  /** A request that is not in flight was transferred once and completed once. */
  ghost predicate IdOk(s: State, i: nat)
    requires Shape(s) && i < |s.sent|
  {
    match s.at[i]
    case None => s.moves[i] == 1 && s.ends[i] == 1
    case Some(h) => h in s.reqs && s.reqs[h].id == i
  }

  ghost predicate NoDup(s: seq<nat>) {
    forall i, j :: 0 <= i < j < |s| ==> s[i] != s[j]
  }

  /** The queue is in the ring from count `c` on, each entry in its phase. */
  ghost predicate QueueOk(s: State, ring: seq<nat>, q: seq<nat>, c: nat, p: Phase)
    requires |ring| == NUM && s.reqs.Keys == s.phase.Keys
  {
    && NoDup(q)
    && (forall k :: 0 <= k < |q| ==> q[k] in s.phase && s.phase[q[k]] == p)
    && (forall k: nat {:trigger Slot(c, k)} :: k < |q| ==> ring[Slot(c, k)] == q[k])
  }

  /** The ring position of the entry `k` after the first `c`. */
  function Slot(c: nat, k: nat): (p: nat)
    ensures p < NUM
  {
    (c + k) % NUM
  }

  ghost predicate IndicesOk(s: State) {
    && s.takenIdx == s.taken % IDX && s.m.availIdx == (s.taken + |s.aq|) % IDX
    && s.m.seenIdx == s.seen % IDX && s.m.usedIdx == (s.seen + |s.uq|) % IDX
  }

  ghost predicate Inv(s: State) {
    && Shape(s) && IndicesOk(s)
    && (forall h {:trigger ReqOk(s, h)} :: h in s.reqs ==> ReqOk(s, h))
    && (forall i: nat {:trigger DescOk(s, i)} :: i < NUM ==> DescOk(s, i))
    && (forall b: nat {:trigger BufOk(s, b)} :: BufOk(s, b))
    && (forall i: nat {:trigger IdOk(s, i)} :: i < |s.sent| ==> IdOk(s, i))
    && QueueOk(s, s.m.avail, s.aq, s.taken, Queued) && QueueOk(s, s.m.used, s.uq, s.seen, Done)
  }

  // ---------------------------------------------------------------------------
  // Steps of the driver
  // ---------------------------------------------------------------------------

  /** virtio_disk_rw up to the notification, with three descriptors found free. The
      buffer belongs to the caller, who has no other request for it in flight. */
  predicate CanSubmit(m: Mem, flight: map<nat, nat>, buf: nat, d0: nat, d1: nat, d2: nat) {
    && d0 < NUM && d1 < NUM && d2 < NUM && d0 != d1 && d1 != d2 && d0 != d2
    && |m.free| == NUM && m.free[d0] && m.free[d1] && m.free[d2] && buf !in flight
  }

  function SubmitMem(m: Mem, buf: nat, cmd: Cmd, d0: nat, d1: nat, d2: nat): (n: Mem)
    requires |m.desc| == |m.free| == |m.ops| == |m.owner| == |m.status| == |m.avail| == NUM
    requires d0 < NUM && d1 < NUM && d2 < NUM
  {
    m.(free := m.free[d0 := false][d1 := false][d2 := false],
       ops := m.ops[d0 := cmd],
       desc := m.desc[d0 := Desc(Command(d0), true, false, d1)][d1 := Desc(Data(buf), true, !cmd.write, d2)][d2 :=
           Desc(Status(d0), false, true, 0)],
       status := m.status[d0 := 0xff],
       owner := m.owner[d0 := Some(buf)],
       avail := m.avail[m.availIdx % NUM := d0],
       availIdx := (m.availIdx + 1) % IDX,
       waiting := m.waiting + {buf})
  }

  function Submit(s: State, buf: nat, cmd: Cmd, d0: nat, d1: nat, d2: nat): (t: State)
    requires |s.m.desc| == |s.m.free| == |s.m.ops| == |s.m.owner| == |s.m.status| == |s.m.avail| == |s.chain| == NUM
    requires d0 < NUM && d1 < NUM && d2 < NUM
  {
    var r := Req(|s.sent|, buf, cmd, d0, d1, d2);
    s.(m := SubmitMem(s.m, buf, cmd, d0, d1, d2),
       reqs := s.reqs[d0 := r], phase := s.phase[d0 := Queued],
       chain := s.chain[d0 := Some(d0)][d1 := Some(d0)][d2 := Some(d0)], flight := s.flight[buf := d0],
       aq := s.aq + [d0], sent := s.sent + [r], at := s.at + [Some(d0)], moves := s.moves + [0], ends := s.ends + [0])
  }

  /** The device reads the next avail entry. */
  predicate CanTake(s: State) {
    s.takenIdx != s.m.availIdx && |s.m.avail| == NUM
  }

  function Take(s: State): (t: State)
    requires CanTake(s) && s.aq != []
  {
    s.(takenIdx := (s.takenIdx + 1) % IDX, phase := s.phase[s.m.avail[s.takenIdx % NUM] := Inside], aq := s.aq[1..],
        taken := s.taken + 1)
  }

  /** What the device finds when it follows the chain from `h`. */
  function Decode(m: Mem, h: nat): (x: Option<(Cmd, nat)>)
  {
    if |m.desc| == |m.ops| == NUM && h < NUM && m.desc[h].addr.Command? && m.desc[h].addr.head < NUM
        && m.desc[h].more && m.desc[h].next < NUM
       && m.desc[m.desc[h].next].addr.Data? && m.desc[m.desc[h].next].more && m.desc[m.desc[h].next].next < NUM
       && m.desc[m.desc[m.desc[h].next].next] == Desc(Status(h), false, true, 0)
       && m.desc[m.desc[h].next].writable == !m.ops[m.desc[h].addr.head].write
    then Some((m.ops[m.desc[h].addr.head], m.desc[m.desc[h].next].addr.buf))
    else None
  }

  /** The device finishes the chain `h`: transfer, status byte, used entry. */
  function FinishMem(m: Mem, h: nat): (n: Mem)
    requires |m.status| == |m.used| == NUM && h < NUM
  {
    m.(status := m.status[h := 0], used := m.used[m.usedIdx % NUM := h], usedIdx := (m.usedIdx + 1) % IDX)
  }

  predicate CanFinish(s: State, h: nat) {
    h in s.phase && s.phase[h] == Inside && h in s.reqs && h < NUM && |s.m.status| == |s.m.used| == NUM
    && s.reqs[h].id < |s.moves|
  }

  function Finish(s: State, h: nat): (t: State)
    requires CanFinish(s, h)
  {
    s.(m := FinishMem(s.m, h), phase := s.phase[h := Done], uq := s.uq + [h],
       moves := s.moves[s.reqs[h].id := s.moves[s.reqs[h].id] + 1])
  }

  /** One round of virtio_disk_intr. */
  predicate CanSee(s: State) {
    s.m.seenIdx != s.m.usedIdx && |s.m.used| == NUM
  }

  /** The head descriptor that the handler reads from the used ring. */
  function NextUsed(m: Mem): (h: nat)
    requires |m.used| == NUM
  {
    m.used[m.seenIdx % NUM]
  }

  function SeeMem(m: Mem): (n: Mem)
    requires |m.used| == NUM && NextUsed(m) < |m.owner| && m.owner[NextUsed(m)].Some?
  {
    m.(waiting := m.waiting - {m.owner[NextUsed(m)].value}, seenIdx := (m.seenIdx + 1) % IDX)
  }

  function See(s: State): (t: State)
    requires CanSee(s) && NextUsed(s.m) < |s.m.owner| && s.m.owner[NextUsed(s.m)].Some? && s.uq != []
    requires NextUsed(s.m) in s.reqs && s.reqs[NextUsed(s.m)].id < |s.ends|
  {
    var h := NextUsed(s.m);
    s.(m := SeeMem(s.m), phase := s.phase[h := Seen], uq := s.uq[1..], seen := s.seen + 1,
       ends := s.ends[s.reqs[h].id := s.ends[s.reqs[h].id] + 1])
  }

  /** The rest of virtio_disk_rw once the flag of its buffer is clear: free_chain. */
  predicate CanFree(s: State, h: nat) {
    h in s.reqs && s.reqs[h].buf !in s.m.waiting && s.reqs[h].id < |s.at|
    && s.reqs[h].d0 < NUM && s.reqs[h].d1 < NUM && s.reqs[h].d2 < NUM && h < NUM
    && |s.m.desc| == |s.m.free| == |s.m.owner| == |s.chain| == NUM
  }

  function FreeMem(m: Mem, h: nat, d0: nat, d1: nat, d2: nat): (n: Mem)
    requires |m.desc| == |m.free| == |m.owner| == NUM && h < NUM && d0 < NUM && d1 < NUM && d2 < NUM
  {
    m.(owner := m.owner[h := None],
       desc := m.desc[d0 := NODESC][d1 := NODESC][d2 := NODESC],
       free := m.free[d0 := true][d1 := true][d2 := true])
  }

  function Release(s: State, h: nat): (t: State)
    requires CanFree(s, h)
  {
    var r := s.reqs[h];
    s.(m := FreeMem(s.m, h, r.d0, r.d1, r.d2), reqs := s.reqs - {h}, phase := s.phase - {h},
       chain := s.chain[r.d0 := None][r.d1 := None][r.d2 := None], flight := s.flight - {r.buf},
       at := s.at[r.id := None])
  }

  // ---------------------------------------------------------------------------
  // Arithmetic of the rings
  // ---------------------------------------------------------------------------

  lemma IndexIsSlot(c: nat, k: nat)
    ensures (c + k) % IDX % NUM == Slot(c, k)
  {
  }

  lemma SlotShift(c: nat, k: nat)
    ensures Slot(c + 1, k) == Slot(c, k + 1)
  {
  }

  lemma SlotsDiffer(c: nat, j: nat, k: nat)
    requires j < k < j + NUM
    ensures Slot(c, j) != Slot(c, k)
  {
  }

  lemma IndexNext(c: nat)
    ensures (c % IDX + 1) % IDX == (c + 1) % IDX
  {
  }

  /** Distinct numbers below n are no more than n. */
  lemma {:induction false} Pigeonhole(q: seq<nat>, n: nat)
    requires NoDup(q) && forall k :: 0 <= k < |q| ==> q[k] < n
    ensures |q| <= n
    decreases n
  {
    assert |q| > 0 ==> q[0] < n;
    if n == 0 {
    } else if exists k :: 0 <= k < |q| && q[k] == n - 1 {
      var k :| 0 <= k < |q| && q[k] == n - 1;
      var p := q[..k] + q[k + 1..];
      assert forall i :: 0 <= i < |p| ==> p[i] == if i < k then q[i] else q[i + 1];
      Pigeonhole(p, n - 1);
    } else {
      Pigeonhole(q, n - 1);
    }
  }

  // ---------------------------------------------------------------------------
  // The steps keep the invariant
  // ---------------------------------------------------------------------------

  /** A queue that did not change. */
  lemma QueueSame(s: State, t: State, ring: seq<nat>, q: seq<nat>, c: nat, p: Phase)
    requires |ring| == NUM && s.reqs.Keys == s.phase.Keys && t.reqs.Keys == t.phase.Keys && QueueOk(s, ring, q, c, p)
    requires forall k :: 0 <= k < |q| ==> q[k] in t.phase && t.phase[q[k]] == p
    ensures QueueOk(t, ring, q, c, p)
  {
  }

  lemma QueuePush(s: State, t: State, ring: seq<nat>, q: seq<nat>, c: nat, p: Phase, h: nat)
    requires |ring| == NUM && s.reqs.Keys == s.phase.Keys && t.reqs.Keys == t.phase.Keys && QueueOk(s, ring, q, c, p)
    requires h !in q && h < NUM && (forall k :: 0 <= k < |q| ==> q[k] < NUM)
    requires (forall k :: 0 <= k < |q| ==> q[k] in t.phase && t.phase[q[k]] == p) && h in t.phase && t.phase[h] == p
    ensures |q| < NUM && QueueOk(t, ring[Slot(c, |q|) := h], q + [h], c, p)
  {
    Pigeonhole(q + [h], NUM);
    forall k: nat | k < |q + [h]|
      ensures ring[Slot(c, |q|) := h][Slot(c, k)] == (q + [h])[k]
    {
      if k < |q| {
        SlotsDiffer(c, k, |q|);
      }
    }
  }

  lemma QueuePop(s: State, t: State, ring: seq<nat>, q: seq<nat>, c: nat, p: Phase)
    requires |ring| == NUM && s.reqs.Keys == s.phase.Keys && t.reqs.Keys == t.phase.Keys && QueueOk(s, ring, q, c, p)
             && q != []
    requires forall k :: 1 <= k < |q| ==> q[k] in t.phase && t.phase[q[k]] == p
    ensures QueueOk(t, ring, q[1..], c + 1, p) && ring[Slot(c, 0)] == q[0]
  {
    assert ring[Slot(c, 0)] == q[0];
    forall k: nat | k < |q[1..]|
      ensures ring[Slot(c + 1, k)] == q[1..][k]
    {
      SlotShift(c, k);
      assert ring[Slot(c, k + 1)] == q[k + 1];
    }
  }

  /** Heads are descriptor numbers. */
  lemma HeadsSmall(s: State, h: nat)
    requires Inv(s) && h in s.reqs
    ensures h < NUM && s.reqs[h].d0 == h && s.chain[h] == Some(h)
  {
    assert ReqOk(s, h);
  }

  lemma QueueSmall(s: State)
    requires Inv(s)
    ensures forall k :: 0 <= k < |s.aq| ==> s.aq[k] < NUM
    ensures forall k :: 0 <= k < |s.uq| ==> s.uq[k] < NUM
  {
    forall k | 0 <= k < |s.aq|
      ensures s.aq[k] < NUM
    {
      HeadsSmall(s, s.aq[k]);
    }
    forall k | 0 <= k < |s.uq|
      ensures s.uq[k] < NUM
    {
      HeadsSmall(s, s.uq[k]);
    }
  }

  /** A free descriptor is in no chain and not a head. */
  lemma FreeIsUnused(s: State, d: nat)
    requires Inv(s) && d < NUM && s.m.free[d]
    ensures s.chain[d] == None && d !in s.reqs && d !in s.aq && d !in s.uq
    ensures forall h :: h in s.reqs ==> s.reqs[h].d0 != d && s.reqs[h].d1 != d && s.reqs[h].d2 != d
  {
    assert DescOk(s, d);
    forall h | h in s.reqs
      ensures s.reqs[h].d0 != d && s.reqs[h].d1 != d && s.reqs[h].d2 != d && h != d
    {
      assert ReqOk(s, h);
    }
  }

  lemma SubmitReq(s: State, buf: nat, cmd: Cmd, d0: nat, d1: nat, d2: nat, h: nat)
    requires Inv(s) && CanSubmit(s.m, s.flight, buf, d0, d1, d2)
    requires var t := Submit(s, buf, cmd, d0, d1, d2); Shape(t) && h in t.reqs
    ensures ReqOk(Submit(s, buf, cmd, d0, d1, d2), h)
  {
    var t := Submit(s, buf, cmd, d0, d1, d2);
    FreeIsUnused(s, d0);
    FreeIsUnused(s, d1);
    FreeIsUnused(s, d2);
    if h == d0 {
      assert t.aq[|s.aq|] == d0;
    } else {
      assert ReqOk(s, h);
      if h in s.aq {
        assert h in t.aq;
      }
    }
  }

  lemma SubmitInv(s: State, buf: nat, cmd: Cmd, d0: nat, d1: nat, d2: nat)
    requires Inv(s) && CanSubmit(s.m, s.flight, buf, d0, d1, d2)
    ensures Inv(Submit(s, buf, cmd, d0, d1, d2)) && |s.aq| < NUM
  {
    var t := Submit(s, buf, cmd, d0, d1, d2);
    FreeIsUnused(s, d0);
    FreeIsUnused(s, d1);
    FreeIsUnused(s, d2);
    SubmitQueues(s, buf, cmd, d0, d1, d2);
    forall h | h in t.reqs
      ensures ReqOk(t, h)
    {
      SubmitReq(s, buf, cmd, d0, d1, d2, h);
    }
    SubmitRest(s, buf, cmd, d0, d1, d2);
  }

  lemma SubmitQueues(s: State, buf: nat, cmd: Cmd, d0: nat, d1: nat, d2: nat)
    requires Inv(s) && CanSubmit(s.m, s.flight, buf, d0, d1, d2) && d0 !in s.reqs && d0 !in s.aq && d0 !in s.uq
    ensures var t := Submit(s, buf, cmd, d0, d1, d2);
            && t.reqs.Keys == t.phase.Keys && |t.m.avail| == |t.m.used| == NUM && IndicesOk(t) && |s.aq| < NUM
            && QueueOk(t, t.m.avail, t.aq, t.taken, Queued) && QueueOk(t, t.m.used, t.uq, t.seen, Done)
  {
    var t := Submit(s, buf, cmd, d0, d1, d2);
    QueueSmall(s);
    IndexIsSlot(s.taken, |s.aq|);
    IndexNext(s.taken + |s.aq|);
    QueuePush(s, t, s.m.avail, s.aq, s.taken, Queued, d0);
    QueueSame(s, t, s.m.used, s.uq, s.seen, Done);
  }

  lemma SubmitRest(s: State, buf: nat, cmd: Cmd, d0: nat, d1: nat, d2: nat)
    requires Inv(s) && CanSubmit(s.m, s.flight, buf, d0, d1, d2) && d0 !in s.reqs
    requires s.chain[d0] == s.chain[d1] == s.chain[d2] == None && Shape(Submit(s, buf, cmd, d0, d1, d2))
    ensures var t := Submit(s, buf, cmd, d0, d1, d2);
            && (forall i: nat {:trigger DescOk(t, i)} :: i < NUM ==> DescOk(t, i))
            && (forall b: nat {:trigger BufOk(t, b)} :: BufOk(t, b))
            && (forall i: nat {:trigger IdOk(t, i)} :: i < |t.sent| ==> IdOk(t, i))
  {
    var t := Submit(s, buf, cmd, d0, d1, d2);
    forall i: nat | i < NUM
      ensures DescOk(t, i)
    {
      assert DescOk(s, i);
    }
    forall b: nat
      ensures BufOk(t, b)
    {
      assert BufOk(s, b);
    }
    forall i: nat | i < |t.sent|
      ensures IdOk(t, i)
    {
      if i < |s.sent| {
        assert IdOk(s, i);
      }
    }
  }

  // ---------------------------------------------------------------------------

  lemma NextAvail(s: State)
    requires Inv(s) && CanTake(s)
    ensures s.aq != [] && s.m.avail[s.takenIdx % NUM] == s.aq[0] && s.aq[0] in s.reqs && s.phase[s.aq[0]] == Queued
    ensures IndicesOk(Take(s))
  {
    assert s.aq != [];
    IndexIsSlot(s.taken, 0);
    IndexNext(s.taken);
    assert s.m.avail[Slot(s.taken, 0)] == s.aq[0];
  }

  lemma TakeReq(s: State, h: nat)
    requires Inv(s) && CanTake(s) && s.aq != [] && s.m.avail[s.takenIdx % NUM] == s.aq[0] && s.aq[0] in s.reqs
             && h in s.reqs
    requires s.phase[s.aq[0]] == Queued
    ensures ReqOk(Take(s), h)
  {
    var t := Take(s);
    assert ReqOk(s, h);
    if h != s.aq[0] && h in s.aq {
      var k :| 0 <= k < |s.aq| && s.aq[k] == h;
      assert t.aq[k - 1] == h;
    }
  }

  lemma TakeInv(s: State)
    requires Inv(s) && CanTake(s)
    ensures s.aq != [] && s.m.avail[s.takenIdx % NUM] == s.aq[0] && Inv(Take(s))
  {
    NextAvail(s);
    var t := Take(s);
    TakeQueues(s);
    forall h | h in t.reqs
      ensures ReqOk(t, h)
    {
      TakeReq(s, h);
    }
    TakeWaiting(s);
    OthersSame(s, t);
  }

  lemma TakeQueues(s: State)
    requires Inv(s) && CanTake(s) && s.aq != [] && s.m.avail[s.takenIdx % NUM] == s.aq[0] && s.aq[0] in s.reqs
    ensures var t := Take(s);
            && t.reqs.Keys == t.phase.Keys && |t.m.avail| == |t.m.used| == NUM
            && QueueOk(t, t.m.avail, t.aq, t.taken, Queued) && QueueOk(t, t.m.used, t.uq, t.seen, Done)
  {
    var t := Take(s);
    assert forall k :: 1 <= k < |s.aq| ==> s.aq[k] != s.aq[0];
    QueuePop(s, t, s.m.avail, s.aq, s.taken, Queued);
    QueueSame(s, t, s.m.used, s.uq, s.seen, Done);
  }

  lemma TakeWaiting(s: State)
    requires Inv(s) && CanTake(s) && s.aq != []
    ensures forall b :: b in s.m.waiting && b in s.flight && s.flight[b] in s.phase ==>
              Take(s).phase[s.flight[b]] != Seen
  {
    forall b | b in s.m.waiting && b in s.flight && s.flight[b] in s.phase
      ensures Take(s).phase[s.flight[b]] != Seen
    {
      assert BufOk(s, b);
    }
  }

  /** Descriptors, buffers and numbers when only phases and counts of requests in flight
      changed. */
  lemma OthersSame(s: State, t: State)
    requires Inv(s) && Shape(t) && t.reqs == s.reqs && t.chain == s.chain && t.flight == s.flight && t.sent == s.sent
             && t.at == s.at
    requires t.m.free == s.m.free && t.m.waiting <= s.m.waiting
    requires forall b :: b in t.m.waiting && b in s.flight && s.flight[b] in s.phase ==> t.phase[s.flight[b]] != Seen
    requires forall i :: 0 <= i < |s.sent| && s.at[i] == None ==> t.moves[i] == s.moves[i] && t.ends[i] == s.ends[i]
    ensures (forall i: nat {:trigger DescOk(t, i)} :: i < NUM ==> DescOk(t, i))
    ensures (forall b: nat {:trigger BufOk(t, b)} :: BufOk(t, b))
    ensures (forall i: nat {:trigger IdOk(t, i)} :: i < |t.sent| ==> IdOk(t, i))
  {
    forall i: nat | i < NUM
      ensures DescOk(t, i)
    {
      assert DescOk(s, i);
    }
    forall b: nat
      ensures BufOk(t, b)
    {
      assert BufOk(s, b);
    }
    forall i: nat | i < |t.sent|
      ensures IdOk(t, i)
    {
      assert IdOk(s, i);
    }
  }

  /** The device finds in the descriptors the command and the buffer of the request. */
  lemma DecodeIsRequest(s: State, h: nat)
    requires Inv(s) && h in s.reqs
    ensures Decode(s.m, h) == Some((s.reqs[h].cmd, s.reqs[h].buf))
  {
    assert ReqOk(s, h);
  }

  lemma FinishReq(s: State, h: nat, g: nat)
    requires Inv(s) && CanFinish(s, h) && g in s.reqs
    ensures ReqOk(Finish(s, h), g)
  {
    var t := Finish(s, h);
    assert ReqOk(s, h);
    assert ReqOk(s, g);
    if g == h {
      assert t.uq[|s.uq|] == h;
    } else if g in s.uq {
      assert g in t.uq;
    }
  }

  lemma FinishShape(s: State, h: nat)
    requires Inv(s) && CanFinish(s, h)
    ensures Shape(Finish(s, h)) && s.moves[s.reqs[h].id] == 0
  {
    assert ReqOk(s, h);
  }

  lemma FinishReqs(s: State, h: nat)
    requires Inv(s) && CanFinish(s, h)
    ensures var t := Finish(s, h); forall g {:trigger ReqOk(t, g)} :: g in t.reqs ==> ReqOk(t, g)
  {
    var t := Finish(s, h);
    forall g | g in t.reqs
      ensures ReqOk(t, g)
    {
      FinishReq(s, h, g);
    }
  }

  lemma FinishRest(s: State, h: nat)
    requires Inv(s) && CanFinish(s, h) && Shape(Finish(s, h))
    ensures var t := Finish(s, h);
            && (forall i: nat {:trigger DescOk(t, i)} :: i < NUM ==> DescOk(t, i))
            && (forall b: nat {:trigger BufOk(t, b)} :: BufOk(t, b))
            && (forall i: nat {:trigger IdOk(t, i)} :: i < |t.sent| ==> IdOk(t, i))
  {
    FinishWaiting(s, h);
    OthersSame(s, Finish(s, h));
  }

  lemma FinishInv(s: State, h: nat)
    requires Inv(s) && CanFinish(s, h)
    ensures Inv(Finish(s, h)) && |s.uq| < NUM && s.moves[s.reqs[h].id] == 0
  {
    FinishShape(s, h);
    FinishQueues(s, h);
    FinishReqs(s, h);
    FinishRest(s, h);
  }

  lemma FinishQueues(s: State, h: nat)
    requires Inv(s) && CanFinish(s, h)
    ensures var t := Finish(s, h);
            && t.reqs.Keys == t.phase.Keys && |t.m.avail| == |t.m.used| == NUM && IndicesOk(t) && |s.uq| < NUM
            && QueueOk(t, t.m.avail, t.aq, t.taken, Queued) && QueueOk(t, t.m.used, t.uq, t.seen, Done)
  {
    var t := Finish(s, h);
    QueueSmall(s);
    FinishIndices(s, h);
    QueuePush(s, t, s.m.used, s.uq, s.seen, Done, h);
    QueueSame(s, t, s.m.avail, s.aq, s.taken, Queued);
  }

  lemma FinishIndices(s: State, h: nat)
    requires Inv(s) && CanFinish(s, h)
    ensures IndicesOk(Finish(s, h)) && Finish(s, h).m.used == s.m.used[Slot(s.seen, |s.uq|) := h]
  {
    IndexIsSlot(s.seen, |s.uq|);
    IndexNext(s.seen + |s.uq|);
  }

  lemma FinishWaiting(s: State, h: nat)
    requires Inv(s) && CanFinish(s, h)
    ensures forall b :: b in s.m.waiting && b in s.flight && s.flight[b] in s.phase ==>
              Finish(s, h).phase[s.flight[b]] != Seen
    ensures forall i :: 0 <= i < |s.sent| && s.at[i] == None ==> i != s.reqs[h].id
  {
    assert ReqOk(s, h);
    forall b | b in s.m.waiting && b in s.flight && s.flight[b] in s.phase
      ensures Finish(s, h).phase[s.flight[b]] != Seen
    {
      assert BufOk(s, b);
    }
  }

  ghost predicate ReadyToSee(s: State, h: nat) {
    && Shape(s) && CanSee(s) && s.uq != [] && h == NextUsed(s.m) && h == s.uq[0] && h in s.reqs && h < NUM
    && s.m.status[h] == 0 && s.m.owner[h] == Some(s.reqs[h].buf) && s.reqs[h].buf in s.m.waiting
    && s.reqs[h].id < |s.ends| && s.ends[s.reqs[h].id] == 0 && s.moves[s.reqs[h].id] == 1 && s.phase[h] == Done
  }

  /** The handler takes the oldest finished request; its status is good, and its buffer
      is the one that was passed with it and still waits. */
  lemma NextSeen(s: State)
    requires Inv(s) && CanSee(s)
    ensures ReadyToSee(s, NextUsed(s.m)) && IndicesOk(See(s))
  {
    assert s.uq != [];
    IndexIsSlot(s.seen, 0);
    IndexNext(s.seen);
    assert s.m.used[Slot(s.seen, 0)] == s.uq[0];
    assert ReqOk(s, s.uq[0]);
  }

  lemma SeeReq(s: State, h: nat, g: nat)
    requires Inv(s) && ReadyToSee(s, h) && g in s.reqs
    ensures ReqOk(See(s), g)
  {
    var t := See(s);
    assert ReqOk(s, h);
    assert ReqOk(s, g);
    if g != h && g in s.uq {
      var k :| 0 <= k < |s.uq| && s.uq[k] == g;
      assert t.uq[k - 1] == g;
    }
  }

  lemma SeeInv(s: State)
    requires Inv(s) && CanSee(s)
    ensures ReadyToSee(s, NextUsed(s.m)) && Inv(See(s))
  {
    NextSeen(s);
    var h := NextUsed(s.m);
    SeeQueues(s, h);
    SeeReqs(s, h);
    SeeRest(s, h);
  }

  lemma SeeReqs(s: State, h: nat)
    requires Inv(s) && ReadyToSee(s, h)
    ensures var t := See(s); forall g {:trigger ReqOk(t, g)} :: g in t.reqs ==> ReqOk(t, g)
  {
    var t := See(s);
    forall g | g in t.reqs
      ensures ReqOk(t, g)
    {
      SeeReq(s, h, g);
    }
  }

  lemma SeeRest(s: State, h: nat)
    requires Inv(s) && ReadyToSee(s, h)
    ensures var t := See(s);
            && Shape(t)
            && (forall i: nat {:trigger DescOk(t, i)} :: i < NUM ==> DescOk(t, i))
            && (forall b: nat {:trigger BufOk(t, b)} :: BufOk(t, b))
            && (forall i: nat {:trigger IdOk(t, i)} :: i < |t.sent| ==> IdOk(t, i))
  {
    SeeQueues(s, h);
    SeeWaiting(s, h);
    OthersSame(s, See(s));
  }

  lemma SeeQueues(s: State, h: nat)
    requires Inv(s) && ReadyToSee(s, h)
    ensures var t := See(s);
            && t.reqs.Keys == t.phase.Keys && |t.m.avail| == |t.m.used| == NUM
            && QueueOk(t, t.m.avail, t.aq, t.taken, Queued) && QueueOk(t, t.m.used, t.uq, t.seen, Done)
  {
    var t := See(s);
    assert forall k :: 1 <= k < |s.uq| ==> s.uq[k] != s.uq[0];
    QueuePop(s, t, s.m.used, s.uq, s.seen, Done);
    QueueSame(s, t, s.m.avail, s.aq, s.taken, Queued);
  }

  lemma SeeWaiting(s: State, h: nat)
    requires Inv(s) && ReadyToSee(s, h)
    ensures var t := See(s);
            && t.m.waiting <= s.m.waiting
            && forall b :: b in t.m.waiting && b in s.flight && s.flight[b] in s.phase ==> t.phase[s.flight[b]] != Seen
    ensures forall i :: 0 <= i < |s.sent| && s.at[i] == None ==> i != s.reqs[h].id
  {
    assert ReqOk(s, h);
    var t := See(s);
    forall b | b in t.m.waiting && b in s.flight && s.flight[b] in s.phase
      ensures t.phase[s.flight[b]] != Seen
    {
      assert BufOk(s, b);
    }
  }

  // ---------------------------------------------------------------------------

  /** Only a completed request has a clear flag, so that nothing frees descriptors which
      the device may still use. */
  lemma ClearIsSeen(s: State, h: nat)
    requires Inv(s) && h in s.reqs && s.reqs[h].buf !in s.m.waiting
    ensures s.phase[h] == Seen && CanFree(s, h)
  {
    assert ReqOk(s, h);
  }

  lemma ReleaseReq(s: State, h: nat, g: nat)
    requires Inv(s) && CanFree(s, h) && g in s.reqs && g != h && Shape(Release(s, h))
    ensures ReqOk(Release(s, h), g)
  {
    assert ReqOk(s, h);
    assert ReqOk(s, g);
  }

  lemma ReleaseQueues(s: State, h: nat)
    requires Inv(s) && CanFree(s, h) && s.phase[h] == Seen
    ensures var t := Release(s, h);
            && Shape(t) && IndicesOk(t)
            && QueueOk(t, t.m.avail, t.aq, t.taken, Queued) && QueueOk(t, t.m.used, t.uq, t.seen, Done)
  {
    var t := Release(s, h);
    assert ReqOk(s, h);
    QueueSame(s, t, s.m.avail, s.aq, s.taken, Queued);
    QueueSame(s, t, s.m.used, s.uq, s.seen, Done);
  }

  lemma ReleaseReqs(s: State, h: nat)
    requires Inv(s) && CanFree(s, h) && Shape(Release(s, h))
    ensures var t := Release(s, h); forall g {:trigger ReqOk(t, g)} :: g in t.reqs ==> ReqOk(t, g)
  {
    var t := Release(s, h);
    forall g | g in t.reqs
      ensures ReqOk(t, g)
    {
      ReleaseReq(s, h, g);
    }
  }

  lemma ReleaseInv(s: State, h: nat)
    requires Inv(s) && CanFree(s, h)
    ensures Inv(Release(s, h))
  {
    ClearIsSeen(s, h);
    ReleaseQueues(s, h);
    ReleaseReqs(s, h);
    ReleaseRest(s, h);
  }

  lemma ReleaseRest(s: State, h: nat)
    requires Inv(s) && CanFree(s, h) && Shape(Release(s, h)) && s.phase[h] == Seen
    ensures var t := Release(s, h);
            && (forall i: nat {:trigger DescOk(t, i)} :: i < NUM ==> DescOk(t, i))
            && (forall b: nat {:trigger BufOk(t, b)} :: BufOk(t, b))
            && (forall i: nat {:trigger IdOk(t, i)} :: i < |t.sent| ==> IdOk(t, i))
  {
    var t := Release(s, h);
    assert ReqOk(s, h);
    forall i: nat | i < NUM
      ensures DescOk(t, i)
    {
      assert DescOk(s, i);
    }
    forall b: nat
      ensures BufOk(t, b)
    {
      assert BufOk(s, b);
    }
    forall i: nat | i < |t.sent|
      ensures IdOk(t, i)
    {
      assert IdOk(s, i);
    }
  }

  // ---------------------------------------------------------------------------
  // Runs
  // ---------------------------------------------------------------------------

  datatype Event =
    | DoSubmit(buf: nat, cmd: Cmd, d0: nat, d1: nat, d2: nat)
    | DoTake
    | DoFinish(h: nat)
    | DoSee
    | DoRelease(h: nat)

  /** A step is possible: for the driver by its own tests, for the device because it has
      work. */
  ghost predicate Enabled(s: State, e: Event) {
    match e
    case DoSubmit(buf, cmd, d0, d1, d2) => CanSubmit(s.m, s.flight, buf, d0, d1, d2)
    case DoTake => CanTake(s)
    case DoFinish(h) => CanFinish(s, h)
    case DoSee => CanSee(s)
    case DoRelease(h) => CanFree(s, h)
  }

  /** The tables have their sizes, and the history has an entry where the indices say so.
      Along every run that is always the case. */
  ghost predicate Defined(s: State, e: Event)
    requires Enabled(s, e)
  {
    match e
    case DoSubmit(_, _, _, _, _) =>
      |s.m.desc| == |s.m.free| == |s.m.ops| == |s.m.owner| == |s.m.status| == |s.m.avail| == |s.chain| == NUM
    case DoTake => s.aq != []
    case DoFinish(h) => true
    case DoSee =>
      && NextUsed(s.m) < |s.m.owner| && s.m.owner[NextUsed(s.m)].Some? && s.uq != []
      && NextUsed(s.m) in s.reqs && s.reqs[NextUsed(s.m)].id < |s.ends|
    case DoRelease(h) => true
  }

  ghost function Next(s: State, e: Event): State
    requires Enabled(s, e)
  {
    if !Defined(s, e) then s
    else match e
      case DoSubmit(buf, cmd, d0, d1, d2) => Submit(s, buf, cmd, d0, d1, d2)
      case DoTake => Take(s)
      case DoFinish(h) => Finish(s, h)
      case DoSee => See(s)
      case DoRelease(h) => Release(s, h)
  }

  lemma StepInv(s: State, e: Event)
    requires Inv(s) && Enabled(s, e)
    ensures Defined(s, e) && Inv(Next(s, e))
  {
    match e
    case DoSubmit(buf, cmd, d0, d1, d2) => SubmitInv(s, buf, cmd, d0, d1, d2);
    case DoTake => TakeInv(s);
    case DoFinish(h) => FinishInv(s, h);
    case DoSee => SeeInv(s);
    case DoRelease(h) => ReleaseInv(s, h);
  }

  /** After virtio_disk_init: everything is free, and the rings are empty. */
  ghost predicate Start(s: State) {
    && Shape(s) && s.reqs == map[] && s.phase == map[] && s.flight == map[] && s.m.waiting == {}
    && s.aq == s.uq == [] && s.taken == s.seen == 0
    && s.takenIdx == s.m.availIdx == s.m.usedIdx == s.m.seenIdx == 0 && s.sent == []
    && forall i :: 0 <= i < NUM ==> s.m.free[i] && s.chain[i] == None
  }

  lemma StartInv(s: State)
    requires Start(s)
    ensures Inv(s)
  {
    forall i: nat | i < NUM
      ensures DescOk(s, i)
    {
    }
    forall b: nat
      ensures BufOk(s, b)
    {
    }
  }

  /** The last event of the run leads from `p` to `s`. */
  ghost predicate LastStep(p: State, run: seq<Event>, s: State)
    requires run != []
  {
    Enabled(p, run[|run| - 1]) && s == Next(p, run[|run| - 1])
  }

  ghost predicate Reachable(s: State, run: seq<Event>)
    decreases |run|
  {
    if run == [] then Start(s)
    else exists p: State :: Reachable(p, run[..|run| - 1]) && LastStep(p, run, s)
  }

  lemma {:induction false} ReachableInv(s: State, run: seq<Event>)
    requires Reachable(s, run)
    ensures Inv(s)
    decreases |run|
  {
    if run == [] {
      StartInv(s);
    } else {
      var p: State :| Reachable(p, run[..|run| - 1]) && LastStep(p, run, s);
      ReachableInv(p, run[..|run| - 1]);
      StepInv(p, run[|run| - 1]);
    }
  }

  ghost predicate InChain(r: Req, i: nat) {
    i == r.d0 || i == r.d1 || i == r.d2
  }

  /** In every reachable state a descriptor is free or in exactly one chain. */
  lemma FreeIsComplement(s: State, run: seq<Event>, i: nat)
    requires Reachable(s, run) && i < NUM
    ensures |s.m.free| == NUM && (s.m.free[i] <==> forall h :: h in s.reqs ==> !InChain(s.reqs[h], i))
    ensures forall h, g :: h in s.reqs && g in s.reqs && InChain(s.reqs[h], i) && InChain(s.reqs[g], i) ==> h == g
    ensures forall h :: h in s.reqs ==> Apart(s.reqs[h])
  {
    ReachableInv(s, run);
    assert DescOk(s, i);
    forall h | h in s.reqs
      ensures Apart(s.reqs[h]) && (InChain(s.reqs[h], i) ==> s.chain[i] == Some(h))
    {
      assert ReqOk(s, h);
    }
  }

  /** In every reachable state each request was transferred at most once and completed at
      most once, and never completed before it was transferred; one that is no longer in
      flight was transferred and completed. */
  lemma ExactlyOnce(s: State, run: seq<Event>, i: nat)
    requires Reachable(s, run) && i < |s.sent|
    ensures |s.moves| == |s.ends| == |s.sent| && s.ends[i] <= s.moves[i] <= 1
    ensures (forall h :: h in s.reqs ==> s.reqs[h].id != i) ==> s.moves[i] == s.ends[i] == 1
    ensures s.ends[i] == 1 <==> forall h :: h in s.reqs && s.reqs[h].id == i ==> s.reqs[h].buf !in s.m.waiting
  {
    ReachableInv(s, run);
    assert IdOk(s, i);
    forall h | h in s.reqs && s.reqs[h].id == i
      ensures s.at[i] == Some(h)
    {
      assert ReqOk(s, h);
    }
    if s.at[i].Some? {
      assert ReqOk(s, s.at[i].value);
    }
  }

  /** What the device transfers is a request as it was sent, for the first time; its
      entry on the used ring overwrites no entry that the driver has not read. */
  lemma TransferIsRequest(s: State, run: seq<Event>, h: nat)
    requires Reachable(s, run) && CanFinish(s, h)
    ensures s.reqs[h].id < |s.sent| && s.sent[s.reqs[h].id] == s.reqs[h] && s.moves[s.reqs[h].id] == 0
    ensures Decode(s.m, h) == Some((s.reqs[h].cmd, s.reqs[h].buf))
    ensures |s.uq| < NUM
  {
    ReachableInv(s, run);
    assert ReqOk(s, h);
    DecodeIsRequest(s, h);
    FinishInv(s, h);
  }

  /** The interrupt handler finds a good status and clears the flag of the buffer that was
      sent with the request, which was set. */
  lemma CompletionIsRequest(s: State, run: seq<Event>)
    requires Reachable(s, run) && CanSee(s)
    ensures var h := NextUsed(s.m);
            && h < |s.m.status| && s.m.status[h] == 0 && h in s.reqs && h < |s.m.owner|
            && s.m.owner[h] == Some(s.reqs[h].buf) && s.reqs[h].buf in s.m.waiting
            && s.reqs[h].id < |s.ends| == |s.moves| && s.ends[s.reqs[h].id] == 0 && s.moves[s.reqs[h].id] == 1
  {
    ReachableInv(s, run);
    SeeInv(s);
  }

  /** A new entry on the avail ring overwrites none that the device has not read. */
  lemma NoEntryOverwritten(s: State, run: seq<Event>, buf: nat, cmd: Cmd, d0: nat, d1: nat, d2: nat, k: nat)
    requires Reachable(s, run) && CanSubmit(s.m, s.flight, buf, d0, d1, d2) && k < |s.aq|
    ensures |s.m.avail| == NUM && s.m.availIdx % NUM != Slot(s.taken, k) && s.m.avail[Slot(s.taken, k)] == s.aq[k]
  {
    ReachableInv(s, run);
    SubmitInv(s, buf, cmd, d0, d1, d2);
    IndexIsSlot(s.taken, |s.aq|);
    SlotsDiffer(s.taken, k, |s.aq|);
  }
}
