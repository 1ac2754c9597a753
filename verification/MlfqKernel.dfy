/** The scheduler code of xv6/kernel/proc.c and trap.c on one hart, working in
    place on the process table and the run queues, proved against the Uniproc
    functions. */
module MlfqKernel {
  import opened Options
  import opened Mlfq
  import opened MlfqCode
  import opened Uniproc
  import opened Demotion

  /** Level `l` is the one the scheduler serves. */
  ghost predicate Serves(s: State, l: nat) {
    && Good(s) && s.harts[0] == Scan(0) && l < 4 && s.qs[l] != [] && forall k :: 0 <= k < l ==> s.qs[k] == []
  }

  lemma ServesTop(s: State, l: nat)
    requires Serves(s, l)
    ensures Top(s.qs) == l && s.qs[l][0] < |s.procs| && Good(Schedule(s))
    ensures Schedule(s) == State(s.procs[s.qs[l][0] := s.procs[s.qs[l][0]].(state := RUNNING)],
                                 s.qs[l := s.qs[l][1..]], [Run(s.qs[l][0])])
  {
    assert Top(s.qs) == l;
    ScheduleGood(s);
    assert s.qs[l][0] < |s.procs|;
  }

  /** The state after userinit: process 0 is runnable, and alone. */
  ghost function Booted(n: nat): State
    requires n > 0
  {
    var free := Proc(UNUSED, 0, false, 0, 0, None);
    State(seq(n, _ => free)[0 := free.(state := RUNNABLE)], [[0], [], [], []], [Scan(0)])
  }

  lemma BootedGood(n: nat)
    requires n > 0
    ensures Init(Booted(n)) && Good(Booted(n))
  {
    InitInv(Booted(n));
  }

  /** The process that dequeue takes is RUNNABLE, so the scheduler never drops one. */
  lemma HeadIsRunnable(s: State, l: nat)
    requires Serves(s, l)
    ensures s.qs[l][0] < |s.procs| && s.procs[s.qs[l][0]].state == RUNNABLE
  {
    QueuedIsRunnable(s, l, 0);
  }

  /** Everybody is at level 0 with a fresh slice, sleepers on ticks are awake, and the
      other queues are empty. */
  ghost predicate Boosted(s: State, r: State) {
    && |r.procs| == |s.procs| && r.qs[1] == r.qs[2] == r.qs[3] == []
    && forall p :: 0 <= p < |s.procs| ==>
         && r.procs[p].queue == 0 && r.procs[p].ticks == 0
         && r.procs[p].state == if SleepsOn(s.procs[p], TICKS_CHAN) then RUNNABLE else s.procs[p].state
  }

  lemma {:induction false} BoostProcs(s: State, k: nat)
    requires Inv(s) && Quiet(s) && k <= |s.procs|
    ensures forall p :: 0 <= p < |s.procs| ==>
              ResetFrom(s, k).procs[p] == if p < k then s.procs[p] else s.procs[p].(queue := 0, ticks := 0)
    decreases |s.procs| - k
  {
    if k < |s.procs| {
      ResetOneGood(s, k);
      BoostProcs(DoReset(s, k), k + 1);
    }
  }

  lemma BoostedIs(s: State, a: State)
    requires Good(a) && WokenProcs(s, a, TICKS_CHAN, 0)
    ensures Boosted(s, Boost(a))
  {
    BoostGood(a);
    BoostProcs(a, 0);
  }

  /** The tick in numbers: the counter wraps at 2^32, and every 48th value boosts. */
  lemma ClockIs(u: Uni)
    requires UniInv(u)
    ensures var r := ClockInterrupt(u);
            && r.ticks == (u.ticks + 1) % 0x1_0000_0000
            && if r.ticks % 48 == 0 then Boosted(u.s, r.s) else WokenProcs(u.s, r.s, TICKS_CHAN, 0)
  {
    var ws := WakeIs(u.s, TICKS_CHAN, 0);
    WakeGood(u.s, TICKS_CHAN, 0);
    BoostedIs(u.s, WakeFrom(u.s, TICKS_CHAN, 0));
  }

  class Kernel {
    const procs: array<Proc>
    const rq: RunQueues
    var hart: Hart
    var ticks: nat

    ghost predicate Valid()
      reads this, procs, rq, rq.mlfq, rq.qcount
    {
      && rq.Valid() && rq.nproc == procs.Length
      && Good(St())
      && ticks < WRAP
    }

    ghost function St(): State
      reads this, procs, rq, rq.mlfq, rq.qcount
      requires rq.Valid()
    {
      State(procs[..], rq.Contents(), [hart])
    }

    /** procinit and userinit. */
    constructor (n: nat)
      requires n > 0
      ensures Valid() && Init(St()) && hart == Scan(0) && ticks == 0 && procs.Length == n
      ensures fresh(procs) && fresh(rq) && fresh(rq.mlfq) && fresh(rq.qcount)
    {
      var free := Proc(UNUSED, 0, false, 0, 0, None);
      procs := new Proc[n](_ => free);
      rq := new RunQueues(n);
      hart := Scan(0);
      ticks := 0;
      new;
      procs[0] := procs[0].(state := RUNNABLE);
      var panic := rq.Enqueue(procs[0].queue, 0);
      ghost var none: seq<Pid> := [];
      assert none + [0] == [0];
      assert St() == Booted(n);
      BootedGood(n);
    }

    /** Make `p` runnable at its level; the queue always has room. */
    method Requeue(p: Pid)
      requires rq.Valid() && rq.nproc == procs.Length && p < procs.Length
      requires Conserved(St()) && procs[p].state != RUNNABLE && procs[p].queue < 4
      modifies procs, rq.mlfq, rq.qcount
      ensures rq.Valid() && St() == MakeRunnable(old(St()), p)
    {
      ghost var s := St();
      QueuedBound(s);
      procs[p] := procs[p].(state := RUNNABLE);
      var panic := rq.Enqueue(procs[p].queue, p);
      assert !panic;
      assert procs[..] == s.procs[p := s.procs[p].(state := RUNNABLE)];
    }

    /** wakeup; the running process is never SLEEPING, so skipping it changes
        nothing. */
    method Wakeup(chan: nat) returns (ghost ws: Queues)
      requires Valid()
      modifies procs, rq.mlfq, rq.qcount
      ensures Valid() && St() == WakeFrom(old(St()), chan, 0)
      ensures WokenProcs(old(St()), St(), chan, 0) && JoinedBy(old(St()), St(), ws)
      ensures AllSleepers(old(St()), chan, 0, ws)
    {
      ws := WakeIs(St(), chan, 0);
      for p := 0 to procs.Length
        invariant Valid() && St().harts == old(St()).harts
        invariant WakeFrom(St(), chan, p) == WakeFrom(old(St()), chan, 0)
      {
        WakeOneGood(St(), chan, p);
        if hart != Run(p) {
          if procs[p].state == SLEEPING && procs[p].chan == chan {
            Requeue(p);
          }
        }
      }
    }

    /** boost_priority's first loop. */
    method ResetAll()
      requires Valid()
      modifies procs
      ensures rq.Valid() && St() == ResetFrom(old(St()), 0)
    {
      for p := 0 to procs.Length
        invariant St().qs == old(St()).qs && Inv(St()) && Quiet(St())
        invariant ResetFrom(St(), p) == ResetFrom(old(St()), 0)
      {
        ResetOneGood(St(), p);
        ghost var s := St();
        procs[p] := procs[p].(queue := 0, ticks := 0);
        assert procs[..] == DoReset(s, p).procs;
      }
    }

    /** boost_priority. */
    method BoostPriority()
      requires Valid()
      modifies procs, rq.mlfq, rq.qcount
      ensures Valid() && St() == Boost(old(St()))
      ensures var q := old(St()).qs; rq.Contents() == [q[0] + q[1] + q[2] + q[3], [], [], []]
      ensures forall p :: 0 <= p < procs.Length ==> procs[p] == old(procs[..])[p].(queue := 0, ticks := 0)
    {
      BoostProcs(St(), 0);
      BoostGood(St());
      QueuedBound(St());
      ResetAll();
      rq.MergeQueues();
    }

    method SliceOf(queue: nat) returns (slice: nat)
      ensures slice == Slice(queue)
    {
      slice := 1;
      if queue == 1 {
        slice := 4;
      } else if queue == 2 {
        slice := 8;
      } else if queue == 3 {
        slice := 16;
      }
    }

    /** The first half of yield: charge the tick, and leave the level when the
        slice is used up. */
    method Charge(p: Pid) returns (leave: bool)
      requires rq.Valid() && p < procs.Length && procs[p].queue < 4
      modifies procs
      ensures procs[..] == old(procs[..])[p := Charged(old(procs[p]))]
      ensures leave == GivesUp(old(procs[p]), Busier(rq.Contents(), old(procs[p].queue)))
    {
      procs[p] := procs[p].(ticks := procs[p].ticks + 1);
      var slice := SliceOf(procs[p].queue);
      var preempt := rq.HigherBusy(procs[p].queue);
      leave := procs[p].ticks >= slice || preempt;
      if leave {
        if procs[p].ticks >= slice {
          if procs[p].queue < 3 {
            procs[p] := procs[p].(queue := procs[p].queue + 1);
          }
          procs[p] := procs[p].(ticks := 0);
        }
      }
    }

    /** yield, up to and including the return to the scheduler. */
    method YieldCpu(p: Pid)
      requires Valid() && Running(St(), p)
      modifies this`hart, procs, rq.mlfq, rq.qcount
      ensures Valid() && St() == Yield(old(St()), p) && Yielded(old(St()), St(), p)
    {
      ghost var s := St();
      YieldGood(s, p);
      YieldPlace(s, p);
      YieldSplit(s, p);
      ghost var m := s.(procs := s.procs[p := Charged(s.procs[p])], harts := [Leaving(p)]);
      var leave := Charge(p);
      if leave {
        LeaveCpu(p, m);
      }
    }

    /** The second half of yield: back to the run queue and to the scheduler. */
    method LeaveCpu(p: Pid, ghost m: State)
      requires rq.Valid() && rq.nproc == procs.Length && p < procs.Length && m == St().(harts := [Leaving(p)])
      requires Conserved(m) && procs[p].state != RUNNABLE && procs[p].queue < 4
      modifies this`hart, procs, rq.mlfq, rq.qcount
      ensures rq.Valid() && St() == MakeRunnable(m, p).(harts := [Scan(0)])
    {
      hart := Leaving(p);
      Requeue(p);
      hart := Scan(0);
    }

    /** The scheduler starts the process `p` that it has taken from its queue. */
    method StartProc(p: Pid)
      requires rq.Valid() && p < procs.Length
      modifies this`hart, procs
      ensures rq.Valid() && St() == old(St()).(procs := old(procs[..])[p := old(procs[p]).(state := RUNNING)],
          harts := [Run(p)])
    {
      procs[p] := procs[p].(state := RUNNING);
      hart := Run(p);
    }

    /** One round of scheduler(): `none` when every queue is empty. */
    method ScheduleNext() returns (none: bool)
      requires Valid() && hart == Scan(0)
      modifies this`hart, procs, rq.mlfq, rq.qcount
      ensures Valid() && none == (Top(old(St()).qs) == 4)
      ensures St() == if none then old(St()) else Schedule(old(St()))
    {
      ghost var s := St();
      var i := 0;
      while i < 4
        invariant 0 <= i <= 4 && rq.Valid() && St() == s
        invariant forall k :: 0 <= k < i ==> s.qs[k] == []
        decreases 4 - i
      {
        var p := rq.Dequeue(i);
        if p.Some? {
          ServesTop(s, i);
          HeadIsRunnable(s, i);
          if procs[p.value].state == RUNNABLE {
            StartProc(p.value);
            return false;
          } else {
            assert false;
          }
        } else {
          i := i + 1;
        }
      }
      none := true;
    }

    /** clockintr on hart 0. */
    method Clock()
      requires Valid()
      modifies this`ticks, procs, rq.mlfq, rq.qcount
      ensures Valid() && Uni(St(), ticks) == ClockInterrupt(old(Uni(St(), ticks)))
      ensures ticks == (old(ticks) + 1) % 0x1_0000_0000
      ensures ticks % 48 != 0 ==> WokenProcs(old(St()), St(), TICKS_CHAN, 0)
      ensures ticks % 48 == 0 ==> Boosted(old(St()), St())
    {
      ClockIs(Uni(St(), ticks));
      ticks := NextTick(ticks);
      ghost var ws := Wakeup(TICKS_CHAN);
      if BoostDue(ticks) {
        BoostPriority();
      }
    }
  }
}
