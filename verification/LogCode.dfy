/** The critical sections of log.c as code, each proved to be one event of the
    LogSystem state machine, and bget proved to be a cache event. */
module LogCode {
  import opened LogDisk
  import opened LogSystem
  import BC = BufferCache

  /** The fields of `struct log` that the spin lock protects. */
  class LogControl {
    const cap: nat
    const maxop: nat
    const block: array<int>
    var n: nat
    var outstanding: int
    var committing: bool
    var ncommit: nat

    constructor (cap: nat, maxop: nat)
      ensures n == 0 && outstanding == 0 && !committing && ncommit == 0
      ensures this.cap == cap && this.maxop == maxop && block.Length == cap
    {
      this.cap := cap;
      this.maxop := maxop;
      block := new int[cap](_ => 0);
      n := 0;
      outstanding := 0;
      committing := false;
      ncommit := 0;
    }

    /** The in-memory log is the one of machine state `s`. */
    ghost predicate Is(c: Config, s: State)
      reads this, block
    {
      && cap == c.l.cap == block.Length && maxop == c.maxop && n <= cap
      && block[..n] == s.lh
      && outstanding == s.outstanding
      && committing == !s.phase.Open?
      && ncommit == s.ncommit
    }

    /** One pass of begin_op's loop: start the operation, or sleep. */
    method BeginOp(ghost c: Config, ghost s: State, ghost t: Tid) returns (started: bool)
      requires Is(c, s) && t !in s.ops
      modifies this`outstanding
      ensures started <==> CanBegin(c, s, t)
      ensures Is(c, if started then DoBegin(c, s, t) else s)
    {
      if committing {
        started := false;
      } else if n + (outstanding + 1) * maxop > cap {
        started := false;
      } else {
        outstanding := outstanding + 1;
        started := true;
      }
    }

    /** The first critical section of end_op. */
    method EndOp(ghost c: Config, ghost s: State, ghost t: Tid) returns (doCommit: bool, panic: bool)
      requires Is(c, s) && Inv(c, s) && CanEnd(c, s, t)
      modifies this`outstanding, this`committing
      ensures !panic
      ensures Is(c, DoEnd(c, s, t)) && doCommit == DoEnd(c, s, t).phase.Logging?
    {
      doCommit := false;
      outstanding := outstanding - 1;
      panic := committing;
      if outstanding == 0 {
        doCommit := true;
        committing := true;
      }
    }

    /** The second critical section of end_op, after commit has returned. */
    method CommitDone(ghost c: Config, ghost s: State)
      requires Is(c, s) && CanFinish(c, s)
      modifies this`committing, this`ncommit
      ensures Is(c, DoFinish(c, s))
    {
      committing := false;
      ncommit := ncommit + 1;
    }

    /** log_write with its absorption loop; `pin` tells whether bpin is called. */
    method LogWrite(b: nat, ghost c: Config, ghost s: State, ghost t: Tid, ghost i: nat)
      returns (pin: bool, panic: bool)
      requires Is(c, s) && Inv(c, s)
      requires Owns(s.bufs, t, i) && t in s.ops && s.bufs[i].blockno == b && c.l.Home(b)
      requires b !in s.lh ==> s.ops[t].used < c.maxop
      modifies this`n, block
      ensures panic <==> |s.lh| == c.l.cap
      ensures panic ==> Is(c, s) && s.ops[t].used == c.maxop && b in s.lh
      ensures !panic ==> CanLogWrite(c, s, t, i) && Is(c, DoLogWrite(c, s, t, i)) && pin == (b !in s.lh)
    {
      pin := false;
      assert t in s.ops.Keys && s.outstanding >= 1;
      panic := n >= cap || outstanding < 1;
      if panic {
        SpareRemove(s.ops, c.maxop, t);
        SpareBound(s.ops - {t}, c.maxop);
        return;
      }
      var k := 0;
      while k < n
        invariant 0 <= k <= n && b !in block[..k]
      {
        if block[k] == b {
          break;
        }
        k := k + 1;
      }
      block[k] := b;
      if k == n {
        pin := true;
        n := n + 1;
        assert block[..n] == s.lh + [b];
      } else {
        assert block[..n] == s.lh;
      }
    }

    /** sys_sync up to its wait loop: the commit count to wait for. */
    method SyncTarget(ghost c: Config, ghost s: State, ghost t: Tid) returns (wait: bool, target: nat)
      requires Is(c, s) && t !in s.syncs
      ensures wait ==> t in DoSyncCall(c, s, t).syncs && DoSyncCall(c, s, t).syncs[t].target == target
      ensures !wait ==> DoSyncCall(c, s, t) == s
    {
      wait := committing || outstanding > 0;
      target := ncommit + 1;
    }
  }

  ghost predicate SameTags(bufs: seq<Buf>, v: BC.Tags) {
    && v.OfSize(|bufs|)
    && forall i :: 0 <= i < |bufs| ==>
         && bufs[i].dev == v.dev[i] && bufs[i].blockno == v.blockno[i]
         && bufs[i].valid == v.valid[i] && bufs[i].refcnt == v.refcnt[i]
  }

  lemma BgetHit(c: Config, s: State, t: Tid, b: nat, v: BC.Tags, i: nat)
    requires |s.refs| == |s.bufs| && SameTags(s.bufs, v) && b < c.l.size && i < |s.bufs| && v.Has(i, DEV, b)
    ensures CanGetHit(c, s, t, b, i)
    ensures SameTags(DoGetHit(c, s, t, b, i).bufs, v.(refcnt := v.refcnt[i := v.refcnt[i] + 1]))
  {
  }

  lemma NoneHas(bufs: seq<Buf>, b: nat, v: BC.Tags)
    requires SameTags(bufs, v) && forall j: nat :: !v.Has(j, DEV, b)
    ensures forall j :: 0 <= j < |bufs| ==> !Tagged(bufs, j, b)
  {
    forall j | 0 <= j < |bufs| ensures !Tagged(bufs, j, b) { assert !v.Has(j, DEV, b); }
  }

  lemma BgetMiss(c: Config, s: State, t: Tid, b: nat, v: BC.Tags, i: nat)
    requires |s.refs| == |s.bufs| && SameTags(s.bufs, v) && b < c.l.size && i < |s.bufs| && v.refcnt[i] == 0
    requires forall j :: 0 <= j < |s.bufs| ==> !Tagged(s.bufs, j, b)
    ensures CanGetMiss(c, s, t, b, i)
    ensures SameTags(DoGetMiss(c, s, t, b, i).bufs,
                     BC.Tags(v.dev[i := DEV], v.blockno[i := b], v.valid[i := false], v.refcnt[i := 1]))
  {
  }

  /** Whatever bget does to the cache is a cache hit or a recycling event. */
  lemma BgetIsAnEvent(c: Config, s: State, t: Tid, b: nat, v: BC.Tags, w: BC.Tags, order: seq<nat>, i: nat)
    requires |s.refs| == |s.bufs| && SameTags(s.bufs, v) && b < c.l.size
    requires BC.BgetResult(v, w, order, |s.bufs|, DEV, b, i) && i < |s.bufs|
    ensures exists e :: e in {GetHit(t, b, i), GetMiss(t, b, i)}
                        && Enabled(c, s, e) && SameTags(Do(c, s, e).bufs, w)
  {
    if j: nat :| v.Has(j, DEV, b) {
      BgetHit(c, s, t, b, v, i);
      var e := GetHit(t, b, i);
      assert Enabled(c, s, e) && SameTags(Do(c, s, e).bufs, w);
    } else {
      NoneHas(s.bufs, b, v);
      BgetMiss(c, s, t, b, v, i);
      var e := GetMiss(t, b, i);
      assert Enabled(c, s, e) && SameTags(Do(c, s, e).bufs, w);
    }
  }
}
