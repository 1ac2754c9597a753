/** The MLFQ scheduler of xv6/kernel/proc.c on any number of harts.

    Events are the stretches of code that run under one lock (a p->lock or
    mlfq_lock); every order of events that respects the p->locks is a run. The
    reset loop of boost_priority and its merge of the queues are separate events,
    because on several harts other events fall between them. */
module Mlfq {
  import opened Options

  type Pid = nat

  datatype ProcState = UNUSED | USED | SLEEPING | RUNNABLE | RUNNING | ZOMBIE

  /** `child` is the process that kfork has allocated and not yet made runnable. */
  datatype Proc = Proc(state: ProcState, chan: nat, killed: bool, queue: nat, ticks: nat, child: Option<Pid>)

  type Queues = qs: seq<seq<Pid>> | |qs| == 4 witness [[], [], [], []]

  /** Where a hart is. `Scan(l)`: about to call dequeue(l). `Took(l, p)`: dequeued
      p, waiting for p->lock. `Run(p)`: on p's behalf. `Yielding`: in yield after
      its look at the queue counts, holding p->lock. `Leaving`: state changed, on
      the way back to the scheduler, still holding p->lock. */
  datatype Hart = Scan(level: nat) | Took(level: nat, p: Pid) | Run(p: Pid) | Yielding(p: Pid, preempt: bool)
      | Leaving(p: Pid)

  datatype State = State(procs: seq<Proc>, qs: Queues, harts: seq<Hart>)

  function Slice(queue: nat): (r: nat)
    ensures r >= 1
  {
    if queue == 1 then 4 else if queue == 2 then 8 else if queue == 3 then 16 else 1
  }

  // ---------------------------------------------------------------------------
  // Queue operations
  // ---------------------------------------------------------------------------

  function Enq(qs: Queues, q: nat, p: Pid): (r: Queues)
    requires q < 4
  {
    qs[q := qs[q] + [p]]
  }

  /** boost_priority's second half: all queues, in level order, move to level 0. */
  function Merge(qs: Queues): (r: Queues) {
    [qs[0] + qs[1] + qs[2] + qs[3], [], [], []]
  }

  /** Some queue above level `q` is non-empty. */
  predicate Busier(qs: Queues, q: nat) {
    exists i :: 0 <= i < q && i < 4 && qs[i] != []
  }

  // ---------------------------------------------------------------------------
  // Events
  // ---------------------------------------------------------------------------

  predicate Holds(h: Hart, p: Pid) {
    (h.Yielding? || h.Leaving?) && h.p == p
  }

  /** No hart holds p->lock across an event. */
  predicate Unlocked(s: State, p: Pid) {
    forall h :: 0 <= h < |s.harts| ==> !Holds(s.harts[h], p)
  }

  predicate Runs(s: State, h: nat, p: Pid) {
    h < |s.harts| && s.harts[h] == Run(p) && p < |s.procs|
  }

  /** Set the state of `p` to RUNNABLE and enqueue it at its level. */
  function MakeRunnable(s: State, p: Pid): (r: State)
    requires p < |s.procs| && s.procs[p].queue < 4
  {
    s.(procs := s.procs[p := s.procs[p].(state := RUNNABLE)],
       qs := Enq(s.qs, s.procs[p].queue, p))
  }

  predicate CanDequeue(s: State, h: nat) {
    h < |s.harts| && s.harts[h].Scan? && s.harts[h].level < 4
  }

  function DoDequeue(s: State, h: nat): (r: State)
    requires CanDequeue(s, h)
  {
    var l := s.harts[h].level;
    if s.qs[l] == [] then
      s.(harts := s.harts[h := Scan(if l < 3 then l + 1 else 0)])
    else
      s.(harts := s.harts[h := Took(l, s.qs[l][0])], qs := s.qs[l := s.qs[l][1..]])
  }

  predicate CanDispatch(s: State, h: nat) {
    h < |s.harts| && s.harts[h].Took? && s.harts[h].p < |s.procs| && Unlocked(s, s.harts[h].p)
  }

  /** The scheduler got p->lock: run a runnable process, drop any other. */
  function DoDispatch(s: State, h: nat): (r: State)
    requires CanDispatch(s, h)
  {
    var p := s.harts[h].p;
    if s.procs[p].state == RUNNABLE then
      s.(procs := s.procs[p := s.procs[p].(state := RUNNING)], harts := s.harts[h := Run(p)])
    else
      s.(harts := s.harts[h := Scan(s.harts[h].level)])
  }

  predicate CanYieldCheck(s: State, h: nat, p: Pid) {
    Runs(s, h, p) && Unlocked(s, p)
  }

  function DoYieldCheck(s: State, h: nat, p: Pid): (r: State)
    requires CanYieldCheck(s, h, p)
  {
    s.(procs := s.procs[p := s.procs[p].(ticks := s.procs[p].ticks + 1)],
       harts := s.harts[h := Yielding(p, Busier(s.qs, s.procs[p].queue))])
  }

  predicate CanYieldDone(s: State, h: nat, p: Pid) {
    h < |s.harts| && s.harts[h].Yielding? && s.harts[h].p == p && p < |s.procs| && s.procs[p].queue < 4
  }

  /** The rest of yield: a used-up slice costs a level. */
  function DoYieldDone(s: State, h: nat, p: Pid): (r: State)
    requires CanYieldDone(s, h, p)
  {
    var x := s.procs[p];
    var spent := x.ticks >= Slice(x.queue);
    if spent || s.harts[h].preempt then
      var y := if spent then x.(queue := if x.queue < 3 then x.queue + 1 else x.queue, ticks := 0) else x;
      MakeRunnable(s.(procs := s.procs[p := y], harts := s.harts[h := Leaving(p)]), p)
    else
      s.(harts := s.harts[h := Run(p)])
  }

  predicate CanSleep(s: State, h: nat, p: Pid, chan: nat) {
    Runs(s, h, p) && Unlocked(s, p)
  }

  function DoSleep(s: State, h: nat, p: Pid, chan: nat): (r: State)
    requires CanSleep(s, h, p, chan)
  {
    s.(procs := s.procs[p := s.procs[p].(state := SLEEPING, chan := chan, ticks := 0)],
       harts := s.harts[h := Leaving(p)])
  }

  predicate CanExit(s: State, h: nat, p: Pid) {
    Runs(s, h, p) && Unlocked(s, p) && s.procs[p].child == None
  }

  function DoExit(s: State, h: nat, p: Pid): (r: State)
    requires CanExit(s, h, p)
  {
    s.(procs := s.procs[p := s.procs[p].(state := ZOMBIE)], harts := s.harts[h := Leaving(p)])
  }

  predicate CanLeave(s: State, h: nat, p: Pid) {
    h < |s.harts| && s.harts[h] == Leaving(p)
  }

  /** Back in scheduler(): release p->lock and start over at level 0. */
  function DoLeave(s: State, h: nat, p: Pid): (r: State)
    requires CanLeave(s, h, p)
  {
    s.(harts := s.harts[h := Scan(0)])
  }

  predicate CanForkAlloc(s: State, h: nat, p: Pid, np: Pid) {
    && Runs(s, h, p) && s.procs[p].child == None
    && np < |s.procs| && s.procs[np].state == UNUSED && Unlocked(s, np)
  }

  function DoForkAlloc(s: State, h: nat, p: Pid, np: Pid): (r: State)
    requires CanForkAlloc(s, h, p, np)
  {
    s.(procs := s.procs[p := s.procs[p].(child := Some(np))]
                [np := s.procs[np].(state := USED, queue := 0, ticks := 0, child := None)])
  }

  /** A fork that runs out of memory, in allocproc or in uvmcopy, frees the slot before it
      releases its lock. */
  function DoForkFail(s: State, h: nat, p: Pid, np: Pid): (r: State)
    requires CanForkAlloc(s, h, p, np)
  {
    s.(procs := s.procs[np := s.procs[np].(chan := 0, killed := false, queue := 0, ticks := 0)])
  }

  predicate CanForkDone(s: State, h: nat, p: Pid) {
    && Runs(s, h, p) && s.procs[p].child.Some?
    && s.procs[p].child.value < |s.procs| && s.procs[p].child.value != p
    && s.procs[s.procs[p].child.value].queue < 4
    && Unlocked(s, s.procs[p].child.value)
  }

  function DoForkDone(s: State, h: nat, p: Pid): (r: State)
    requires CanForkDone(s, h, p)
  {
    MakeRunnable(s.(procs := s.procs[p := s.procs[p].(child := None)]), s.procs[p].child.value)
  }

  predicate CanWake(s: State, p: Pid, chan: nat) {
    p < |s.procs| && s.procs[p].queue < 4 && Unlocked(s, p)
  }

  /** One iteration of wakeup's loop. */
  function DoWake(s: State, p: Pid, chan: nat): (r: State)
    requires CanWake(s, p, chan)
  {
    if s.procs[p].state == SLEEPING && s.procs[p].chan == chan then MakeRunnable(s, p) else s
  }

  predicate CanKill(s: State, p: Pid) {
    p < |s.procs| && s.procs[p].queue < 4 && Unlocked(s, p)
  }

  function DoKill(s: State, p: Pid): (r: State)
    requires CanKill(s, p)
  {
    var k := s.(procs := s.procs[p := s.procs[p].(killed := true)]);
    if s.procs[p].state == SLEEPING then MakeRunnable(k, p) else k
  }

  predicate CanReap(s: State, p: Pid) {
    p < |s.procs| && s.procs[p].state == ZOMBIE && Unlocked(s, p)
  }

  function DoReap(s: State, p: Pid): (r: State)
    requires CanReap(s, p)
  {
    s.(procs := s.procs[p := s.procs[p].(state := UNUSED, chan := 0, killed := false)])
  }

  predicate CanReset(s: State, p: Pid) {
    p < |s.procs| && Unlocked(s, p)
  }

  /** One iteration of boost_priority's first loop. */
  function DoReset(s: State, p: Pid): (r: State)
    requires CanReset(s, p)
  {
    s.(procs := s.procs[p := s.procs[p].(queue := 0, ticks := 0)])
  }

  function DoMerge(s: State): (r: State) {
    s.(qs := Merge(s.qs))
  }

  datatype Event =
    | Dequeue(h: nat)
    | Dispatch(h: nat)
    | YieldCheck(h: nat, p: Pid)
    | YieldDone(h: nat, p: Pid)
    | Sleep(h: nat, p: Pid, chan: nat)
    | Exit(h: nat, p: Pid)
    | Leave(h: nat, p: Pid)
    | ForkAlloc(h: nat, p: Pid, np: Pid)
    | ForkFail(h: nat, p: Pid, np: Pid)
    | ForkDone(h: nat, p: Pid)
    | Wake(p: Pid, chan: nat)
    | Kill(p: Pid)
    | Reap(p: Pid)
    | Reset(p: Pid)
    | MergeQueues

  predicate Enabled(s: State, e: Event) {
    match e
    case Dequeue(h) => CanDequeue(s, h)
    case Dispatch(h) => CanDispatch(s, h)
    case YieldCheck(h, p) => CanYieldCheck(s, h, p)
    case YieldDone(h, p) => CanYieldDone(s, h, p)
    case Sleep(h, p, chan) => CanSleep(s, h, p, chan)
    case Exit(h, p) => CanExit(s, h, p)
    case Leave(h, p) => CanLeave(s, h, p)
    case ForkAlloc(h, p, np) => CanForkAlloc(s, h, p, np)
    case ForkFail(h, p, np) => CanForkAlloc(s, h, p, np)
    case ForkDone(h, p) => CanForkDone(s, h, p)
    case Wake(p, chan) => CanWake(s, p, chan)
    case Kill(p) => CanKill(s, p)
    case Reap(p) => CanReap(s, p)
    case Reset(p) => CanReset(s, p)
    case MergeQueues => true
  }

  function Do(s: State, e: Event): (r: State)
    requires Enabled(s, e)
  {
    match e
    case Dequeue(h) => DoDequeue(s, h)
    case Dispatch(h) => DoDispatch(s, h)
    case YieldCheck(h, p) => DoYieldCheck(s, h, p)
    case YieldDone(h, p) => DoYieldDone(s, h, p)
    case Sleep(h, p, chan) => DoSleep(s, h, p, chan)
    case Exit(h, p) => DoExit(s, h, p)
    case Leave(h, p) => DoLeave(s, h, p)
    case ForkAlloc(h, p, np) => DoForkAlloc(s, h, p, np)
    case ForkFail(h, p, np) => DoForkFail(s, h, p, np)
    case ForkDone(h, p) => DoForkDone(s, h, p)
    case Wake(p, chan) => DoWake(s, p, chan)
    case Kill(p) => DoKill(s, p)
    case Reap(p) => DoReap(s, p)
    case Reset(p) => DoReset(s, p)
    case MergeQueues => DoMerge(s)
  }

  // ---------------------------------------------------------------------------
  // Invariant
  // ---------------------------------------------------------------------------

  /** How many queue slots hold `p`. */
  ghost function Slots(qs: Queues, p: Pid): nat {
    multiset(qs[0])[p] + multiset(qs[1])[p] + multiset(qs[2])[p] + multiset(qs[3])[p]
  }

  function InHand(h: Hart, p: Pid): nat {
    if h.Took? && h.p == p then 1 else 0
  }

  /** How many schedulers have dequeued `p` and not yet looked at it. */
  ghost function Hands(harts: seq<Hart>, p: Pid): nat {
    if harts == [] then 0 else Hands(harts[..|harts| - 1], p) + InHand(harts[|harts| - 1], p)
  }

  ghost function Due(procs: seq<Proc>, p: Pid): nat {
    if p < |procs| && procs[p].state == RUNNABLE then 1 else 0
  }

  /** Conservation: a RUNNABLE process is in exactly one queue slot or one
      scheduler's hand, and no other process is in any. */
  ghost predicate Conserved(s: State) {
    forall p: Pid :: Slots(s.qs, p) + Hands(s.harts, p) == Due(s.procs, p)
  }

  predicate OnStack(h: Hart, p: Pid) {
    (h.Run? || h.Yielding? || h.Leaving?) && h.p == p
  }

  /** A process is on at most one hart's stack, and on one exactly while RUNNING
      or leaving. */
  ghost predicate CpuInv(procs: seq<Proc>, harts: seq<Hart>) {
    && (forall h :: 0 <= h < |harts| && harts[h].Scan? ==> harts[h].level < 4)
    && (forall h :: 0 <= h < |harts| && (harts[h].Run? || harts[h].Yielding?) ==>
          harts[h].p < |procs| && procs[harts[h].p].state == RUNNING)
    && (forall h :: 0 <= h < |harts| && harts[h].Leaving? ==>
          harts[h].p < |procs| && procs[harts[h].p].state in {RUNNABLE, SLEEPING, ZOMBIE})
    && (forall h, g, p :: 0 <= h < g < |harts| ==> !(OnStack(harts[h], p) && OnStack(harts[g], p)))
    && (forall p :: 0 <= p < |procs| && procs[p].state == RUNNING ==>
          exists h :: 0 <= h < |harts| && OnStack(harts[h], p))
  }

  /** A pending child is USED, belongs to one parent, and the parent lives. */
  ghost predicate ForkInv(procs: seq<Proc>) {
    && (forall p :: 0 <= p < |procs| && procs[p].child.Some? ==>
          && procs[p].child.value < |procs|
          && procs[procs[p].child.value].state == USED
          && procs[p].state in {SLEEPING, RUNNABLE, RUNNING})
    && (forall p, q :: 0 <= p < q < |procs| && procs[p].child.Some? ==> procs[p].child != procs[q].child)
  }

  /** Levels are legal, and a process that is not in the middle of yield has used
      less than its slice. */
  ghost predicate LevelInv(procs: seq<Proc>, harts: seq<Hart>) {
    forall p :: 0 <= p < |procs| ==>
      && procs[p].queue < 4
      && (procs[p].ticks < Slice(procs[p].queue)
          || (procs[p].ticks == Slice(procs[p].queue) && InYield(harts, p)))
  }

  ghost predicate InYield(harts: seq<Hart>, p: Pid) {
    exists h :: 0 <= h < |harts| && harts[h].Yielding? && harts[h].p == p
  }

  ghost predicate Inv(s: State) {
    && Conserved(s)
    && CpuInv(s.procs, s.harts)
    && ForkInv(s.procs)
    && LevelInv(s.procs, s.harts)
  }

  // ---------------------------------------------------------------------------
  // Conservation
  // ---------------------------------------------------------------------------

  lemma SlotsEnq(qs: Queues, q: nat, p: Pid)
    requires q < 4
    ensures forall x: Pid :: Slots(Enq(qs, q, p), x) == Slots(qs, x) + if x == p then 1 else 0
  {
  }

  lemma SlotsDeq(qs: Queues, l: nat)
    requires l < 4 && qs[l] != []
    ensures forall x: Pid :: Slots(qs, x) == Slots(qs[l := qs[l][1..]], x) + if x == qs[l][0] then 1 else 0
  {
    assert qs[l] == [qs[l][0]] + qs[l][1..];
  }

  lemma SlotsMerge(qs: Queues)
    ensures forall x: Pid :: Slots(Merge(qs), x) == Slots(qs, x)
  {
  }

  lemma {:induction false} HandsAt(harts: seq<Hart>, h: nat, x: Hart, p: Pid)
    requires h < |harts|
    ensures Hands(harts[h := x], p) + InHand(harts[h], p) == Hands(harts, p) + InHand(x, p)
    decreases |harts|
  {
    var n := |harts| - 1;
    if h == n {
      assert harts[h := x][..n] == harts[..n];
    } else {
      HandsAt(harts[..n], h, x, p);
      assert harts[h := x][..n] == harts[..n][h := x];
    }
  }

  lemma HandsUpdate(harts: seq<Hart>, h: nat, x: Hart)
    requires h < |harts|
    ensures forall p: Pid :: Hands(harts[h := x], p) + InHand(harts[h], p) == Hands(harts, p) + InHand(x, p)
  {
    forall p: Pid
      ensures Hands(harts[h := x], p) + InHand(harts[h], p) == Hands(harts, p) + InHand(x, p)
    {
      HandsAt(harts, h, x, p);
    }
  }

  lemma InvDequeue(s: State, h: nat)
    requires Inv(s) && CanDequeue(s, h)
    ensures Inv(DoDequeue(s, h))
  {
    var r := DoDequeue(s, h);
    HandsUpdate(s.harts, h, r.harts[h]);
    if s.qs[s.harts[h].level] != [] {
      SlotsDeq(s.qs, s.harts[h].level);
    }
    HartFrame(s.procs, s.harts, h, r.harts[h]);
  }

  /** Replacing a hart that is on no stack by another one that is on no stack. */
  lemma HartFrame(procs: seq<Proc>, harts: seq<Hart>, h: nat, x: Hart)
    requires h < |harts| && (harts[h].Scan? || harts[h].Took?) && (x.Scan? || x.Took?)
    requires x.Scan? ==> x.level < 4
    requires CpuInv(procs, harts) && LevelInv(procs, harts)
    ensures CpuInv(procs, harts[h := x]) && LevelInv(procs, harts[h := x])
  {
    var n := harts[h := x];
    forall p | 0 <= p < |procs| && procs[p].state == RUNNING
      ensures exists g :: 0 <= g < |n| && OnStack(n[g], p)
    {
      var g :| 0 <= g < |harts| && OnStack(harts[g], p);
      assert OnStack(n[g], p);
    }
    forall p | 0 <= p < |procs| && InYield(harts, p)
      ensures InYield(n, p)
    {
      var g :| 0 <= g < |harts| && harts[g].Yielding? && harts[g].p == p;
      assert n[g].Yielding?;
    }
  }

  lemma ConservedRunnable(s: State, p: Pid)
    requires Conserved(s) && p < |s.procs| && s.procs[p].queue < 4 && s.procs[p].state != RUNNABLE
    ensures Conserved(MakeRunnable(s, p))
  {
    SlotsEnq(s.qs, s.procs[p].queue, p);
    var r := MakeRunnable(s, p);
    assert forall x: Pid :: Due(r.procs, x) == Due(s.procs, x) + if x == p then 1 else 0;
  }

  lemma ConservedProc(s: State, p: Pid, x: Proc)
    requires Conserved(s) && p < |s.procs|
    requires s.procs[p].state == RUNNABLE <==> x.state == RUNNABLE
    ensures Conserved(s.(procs := s.procs[p := x]))
  {
    var r := s.(procs := s.procs[p := x]);
    assert forall y: Pid :: Due(r.procs, y) == Due(s.procs, y);
  }

  lemma ConservedHart(s: State, h: nat, x: Hart)
    requires Conserved(s) && h < |s.harts| && !s.harts[h].Took? && !x.Took?
    ensures Conserved(s.(harts := s.harts[h := x]))
  {
    HandsUpdate(s.harts, h, x);
  }

  // ---------------------------------------------------------------------------
  // Frames for the other parts of the invariant
  // ---------------------------------------------------------------------------

  /** A process that is on no stack changes. */
  lemma CpuOffStack(procs: seq<Proc>, harts: seq<Hart>, p: Pid, x: Proc)
    requires CpuInv(procs, harts) && p < |procs|
    requires procs[p].state != RUNNING && x.state != RUNNING
    requires forall h :: 0 <= h < |harts| ==> !Holds(harts[h], p)
    ensures CpuInv(procs[p := x], harts)
  {
  }

  lemma CpuSameState(procs: seq<Proc>, harts: seq<Hart>, p: Pid, x: Proc)
    requires CpuInv(procs, harts) && p < |procs| && x.state == procs[p].state
    ensures CpuInv(procs[p := x], harts)
  {
  }

  /** The hart that runs `p` moves on while `p` stays on its stack. */
  lemma CpuOnStack(procs: seq<Proc>, harts: seq<Hart>, h: nat, p: Pid, x: Proc, y: Hart)
    requires CpuInv(procs, harts) && h < |harts| && p < |procs|
    requires OnStack(harts[h], p) && OnStack(y, p)
    requires y.Run? || y.Yielding? ==> x.state == RUNNING
    requires y.Leaving? ==> x.state in {RUNNABLE, SLEEPING, ZOMBIE}
    ensures CpuInv(procs[p := x], harts[h := y])
  {
    var n, hs := procs[p := x], harts[h := y];
    forall q | 0 <= q < |n| && n[q].state == RUNNING
      ensures exists g :: 0 <= g < |hs| && OnStack(hs[g], q)
    {
      if q == p {
        assert OnStack(hs[h], p);
      } else {
        var g :| 0 <= g < |harts| && OnStack(harts[g], q);
        assert OnStack(hs[g], q);
      }
    }
    forall g, k, q | 0 <= g < k < |hs|
      ensures !(OnStack(hs[g], q) && OnStack(hs[k], q))
    {
      assert OnStack(hs[g], q) ==> OnStack(harts[g], q);
      assert OnStack(hs[k], q) ==> OnStack(harts[k], q);
    }
  }

  lemma LevelProc(procs: seq<Proc>, harts: seq<Hart>, p: Pid, x: Proc)
    requires LevelInv(procs, harts) && p < |procs|
    requires x.queue < 4
    requires x.ticks < Slice(x.queue) || (x.queue == procs[p].queue && x.ticks == procs[p].ticks)
    ensures LevelInv(procs[p := x], harts)
  {
  }

  /** The hart of `p` moves on; `p` has used less than its slice unless the hart
      is now in the middle of yield. */
  lemma LevelHart(procs: seq<Proc>, harts: seq<Hart>, h: nat, p: Pid, y: Hart)
    requires h < |harts| && p < |procs|
    requires harts[h].Yielding? ==> harts[h].p == p
    requires forall q :: 0 <= q < |procs| ==>
               && procs[q].queue < 4
               && (procs[q].ticks < Slice(procs[q].queue)
                   || (procs[q].ticks == Slice(procs[q].queue)
                          && (InYield(harts, q) || (q == p && y.Yielding? && y.p == p))))
    requires procs[p].ticks < Slice(procs[p].queue) || (y.Yielding? && y.p == p)
    ensures LevelInv(procs, harts[h := y])
  {
    var hs := harts[h := y];
    forall q | 0 <= q < |procs| && q != p && InYield(harts, q)
      ensures InYield(hs, q)
    {
      var g :| 0 <= g < |harts| && harts[g].Yielding? && harts[g].p == q;
      assert hs[g] == harts[g];
    }
    if y.Yielding? && y.p == p {
      assert hs[h].Yielding? && hs[h].p == p;
      assert InYield(hs, p);
    }
  }

  /** A process changes state and keeps its pending child, if any. */
  lemma ForkFrame(procs: seq<Proc>, p: Pid, x: Proc)
    requires ForkInv(procs) && p < |procs| && x.child == procs[p].child
    requires procs[p].state == USED ==> x.state == USED
    requires x.child.Some? ==> x.state in {SLEEPING, RUNNABLE, RUNNING}
    ensures ForkInv(procs[p := x])
  {
  }

  // ---------------------------------------------------------------------------
  // Every event keeps the invariant
  // ---------------------------------------------------------------------------

  /** A dequeued process is RUNNABLE, so the scheduler never drops one. */
  lemma TookIsRunnable(s: State, h: nat)
    requires Conserved(s) && h < |s.harts| && s.harts[h].Took?
    ensures var p := s.harts[h].p;
            p < |s.procs| && s.procs[p].state == RUNNABLE && Slots(s.qs, p) == 0 && Hands(s.harts, p) == 1
  {
    var p := s.harts[h].p;
    HandsAt(s.harts, h, Scan(0), p);
    assert Slots(s.qs, p) + Hands(s.harts, p) == Due(s.procs, p);
  }

  lemma InvDispatch(s: State, h: nat)
    requires Inv(s) && CanDispatch(s, h)
    ensures Inv(DoDispatch(s, h))
  {
    TookIsRunnable(s, h);
    var p := s.harts[h].p;
    var r := DoDispatch(s, h);
    HandsUpdate(s.harts, h, Run(p));
    assert forall x: Pid :: Due(r.procs, x) + (if x == p then 1 else 0) == Due(s.procs, x);
    assert Conserved(r);
    CpuDispatch(s.procs, s.harts, h, p, r.procs[p]);
    ForkFrame(s.procs, p, r.procs[p]);
    LevelHart(s.procs, s.harts, h, p, Run(p));
    LevelProc(s.procs, r.harts, p, r.procs[p]);
  }

  lemma CpuDispatch(procs: seq<Proc>, harts: seq<Hart>, h: nat, p: Pid, x: Proc)
    requires CpuInv(procs, harts) && h < |harts| && p < |procs| && harts[h].Took?
    requires procs[p].state == RUNNABLE && x.state == RUNNING
    requires forall g :: 0 <= g < |harts| ==> !Holds(harts[g], p)
    ensures CpuInv(procs[p := x], harts[h := Run(p)])
  {
    var n, hs := procs[p := x], harts[h := Run(p)];
    assert forall g :: 0 <= g < |harts| ==> !OnStack(harts[g], p);
    forall q | 0 <= q < |n| && n[q].state == RUNNING
      ensures exists g :: 0 <= g < |hs| && OnStack(hs[g], q)
    {
      if q == p {
        assert OnStack(hs[h], p);
      } else {
        var g :| 0 <= g < |harts| && OnStack(harts[g], q);
        assert OnStack(hs[g], q);
      }
    }
  }

  lemma InvYieldCheck(s: State, h: nat, p: Pid)
    requires Inv(s) && CanYieldCheck(s, h, p)
    ensures Inv(DoYieldCheck(s, h, p))
  {
    var r := DoYieldCheck(s, h, p);
    ConservedProc(s, p, r.procs[p]);
    ConservedHart(s.(procs := r.procs), h, r.harts[h]);
    CpuOnStack(s.procs, s.harts, h, p, r.procs[p], r.harts[h]);
    ForkFrame(s.procs, p, r.procs[p]);
    assert !InYield(s.harts, p);
    LevelHart(r.procs, s.harts, h, p, r.harts[h]);
  }

  lemma InvYieldDone(s: State, h: nat, p: Pid)
    requires Inv(s) && CanYieldDone(s, h, p)
    ensures Inv(DoYieldDone(s, h, p))
  {
    var r := DoYieldDone(s, h, p);
    var x := s.procs[p];
    var spent := x.ticks >= Slice(x.queue);
    if spent || s.harts[h].preempt {
      var y := if spent then x.(queue := if x.queue < 3 then x.queue + 1 else x.queue, ticks := 0) else x;
      var m := s.(procs := s.procs[p := y], harts := s.harts[h := Leaving(p)]);
      ConservedProc(s, p, y);
      ConservedHart(s.(procs := m.procs), h, Leaving(p));
      ConservedRunnable(m, p);
      assert r.procs == s.procs[p := r.procs[p]];
      CpuOnStack(s.procs, s.harts, h, p, r.procs[p], Leaving(p));
      ForkFrame(s.procs, p, r.procs[p]);
      LevelHart(r.procs, s.harts, h, p, Leaving(p));
    } else {
      ConservedHart(s, h, Run(p));
      assert s.procs[p := x] == s.procs;
      CpuOnStack(s.procs, s.harts, h, p, x, Run(p));
      LevelHart(s.procs, s.harts, h, p, Run(p));
    }
  }

  lemma InvSleep(s: State, h: nat, p: Pid, chan: nat)
    requires Inv(s) && CanSleep(s, h, p, chan)
    ensures Inv(DoSleep(s, h, p, chan))
  {
    var r := DoSleep(s, h, p, chan);
    ConservedProc(s, p, r.procs[p]);
    ConservedHart(s.(procs := r.procs), h, Leaving(p));
    CpuOnStack(s.procs, s.harts, h, p, r.procs[p], Leaving(p));
    ForkFrame(s.procs, p, r.procs[p]);
    LevelHart(r.procs, s.harts, h, p, Leaving(p));
  }

  lemma InvExit(s: State, h: nat, p: Pid)
    requires Inv(s) && CanExit(s, h, p)
    ensures Inv(DoExit(s, h, p))
  {
    var r := DoExit(s, h, p);
    ConservedProc(s, p, r.procs[p]);
    ConservedHart(s.(procs := r.procs), h, Leaving(p));
    CpuOnStack(s.procs, s.harts, h, p, r.procs[p], Leaving(p));
    ForkFrame(s.procs, p, r.procs[p]);
    assert !InYield(s.harts, p);
    LevelHart(r.procs, s.harts, h, p, Leaving(p));
  }

  lemma InvLeave(s: State, h: nat, p: Pid)
    requires Inv(s) && CanLeave(s, h, p)
    ensures Inv(DoLeave(s, h, p))
  {
    var r := DoLeave(s, h, p);
    ConservedHart(s, h, Scan(0));
    assert !InYield(s.harts, p) by {
      forall g | 0 <= g < |s.harts|
        ensures !(s.harts[g].Yielding? && s.harts[g].p == p)
      {
        assert OnStack(s.harts[h], p);
        assert g != h ==> !OnStack(s.harts[g], p);
      }
    }
    LevelHart(s.procs, s.harts, h, p, Scan(0));
    forall q | 0 <= q < |r.procs| && r.procs[q].state == RUNNING
      ensures exists g :: 0 <= g < |r.harts| && OnStack(r.harts[g], q)
    {
      var g :| 0 <= g < |s.harts| && OnStack(s.harts[g], q);
      assert OnStack(r.harts[g], q);
    }
  }

  lemma InvForkAlloc(s: State, h: nat, p: Pid, np: Pid)
    requires Inv(s) && CanForkAlloc(s, h, p, np)
    ensures Inv(DoForkAlloc(s, h, p, np))
  {
    var r := DoForkAlloc(s, h, p, np);
    var m := s.procs[p := s.procs[p].(child := Some(np))];
    ConservedProc(s, p, m[p]);
    ConservedProc(s.(procs := m), np, r.procs[np]);
    CpuSameState(s.procs, s.harts, p, m[p]);
    CpuOffStack(m, s.harts, np, r.procs[np]);
    LevelProc(s.procs, s.harts, p, m[p]);
    LevelProc(m, s.harts, np, r.procs[np]);
    assert forall q :: 0 <= q < |s.procs| ==> s.procs[q].child != Some(np);
    assert s.procs[np].child == None;
  }

  lemma InvForkDone(s: State, h: nat, p: Pid)
    requires Inv(s) && CanForkDone(s, h, p)
    ensures Inv(DoForkDone(s, h, p))
  {
    var np := s.procs[p].child.value;
    var r := DoForkDone(s, h, p);
    var m := s.(procs := s.procs[p := s.procs[p].(child := None)]);
    ConservedProc(s, p, m.procs[p]);
    ConservedRunnable(m, np);
    CpuSameState(s.procs, s.harts, p, m.procs[p]);
    CpuOffStack(m.procs, s.harts, np, r.procs[np]);
    LevelProc(s.procs, s.harts, p, m.procs[p]);
    LevelProc(m.procs, s.harts, np, r.procs[np]);
    assert forall q :: 0 <= q < |s.procs| && q != p ==> s.procs[q].child != Some(np);
  }

  lemma InvMakeRunnable(s: State, p: Pid)
    requires Inv(s) && p < |s.procs| && s.procs[p].state == SLEEPING && Unlocked(s, p)
    ensures Inv(MakeRunnable(s, p))
  {
    var r := MakeRunnable(s, p);
    ConservedRunnable(s, p);
    CpuOffStack(s.procs, s.harts, p, r.procs[p]);
    ForkFrame(s.procs, p, r.procs[p]);
    LevelProc(s.procs, s.harts, p, r.procs[p]);
  }

  lemma InvProc(s: State, p: Pid, x: Proc)
    requires Inv(s) && p < |s.procs| && Unlocked(s, p)
    requires x.child == s.procs[p].child
    requires x.state == s.procs[p].state || (s.procs[p].state == ZOMBIE && x.state == UNUSED)
    requires x.queue < 4
    requires x.ticks < Slice(x.queue) || (x.queue == s.procs[p].queue && x.ticks == s.procs[p].ticks)
    ensures Inv(s.(procs := s.procs[p := x]))
  {
    ConservedProc(s, p, x);
    if x.state == s.procs[p].state {
      CpuSameState(s.procs, s.harts, p, x);
    } else {
      CpuOffStack(s.procs, s.harts, p, x);
    }
    ForkFrame(s.procs, p, x);
    LevelProc(s.procs, s.harts, p, x);
  }

  lemma InvMerge(s: State)
    requires Inv(s)
    ensures Inv(DoMerge(s))
  {
    SlotsMerge(s.qs);
  }

  /** Every event keeps the invariant. */
  lemma StepInv(s: State, e: Event)
    requires Inv(s) && Enabled(s, e)
    ensures Inv(Do(s, e))
  {
    match e
    case Dequeue(h) => InvDequeue(s, h);
    case Dispatch(h) => InvDispatch(s, h);
    case YieldCheck(h, p) => InvYieldCheck(s, h, p);
    case YieldDone(h, p) => InvYieldDone(s, h, p);
    case Sleep(h, p, chan) => InvSleep(s, h, p, chan);
    case Exit(h, p) => InvExit(s, h, p);
    case Leave(h, p) => InvLeave(s, h, p);
    case ForkAlloc(h, p, np) => InvForkAlloc(s, h, p, np);
    case ForkFail(h, p, np) => InvProc(s, np, DoForkFail(s, h, p, np).procs[np]);
    case ForkDone(h, p) => InvForkDone(s, h, p);
    case Wake(p, chan) => InvWake(s, p, chan);
    case Kill(p) => InvKill(s, p);
    case Reap(p) => InvProc(s, p, DoReap(s, p).procs[p]);
    case Reset(p) => InvProc(s, p, DoReset(s, p).procs[p]);
    case MergeQueues => InvMerge(s);
  }

  lemma InvWake(s: State, p: Pid, chan: nat)
    requires Inv(s) && CanWake(s, p, chan)
    ensures Inv(DoWake(s, p, chan))
  {
    if s.procs[p].state == SLEEPING && s.procs[p].chan == chan {
      InvMakeRunnable(s, p);
    }
  }

  lemma InvKill(s: State, p: Pid)
    requires Inv(s) && CanKill(s, p)
    ensures Inv(DoKill(s, p))
  {
    var x := s.procs[p].(killed := true);
    InvProc(s, p, x);
    if s.procs[p].state == SLEEPING {
      InvMakeRunnable(s.(procs := s.procs[p := x]), p);
    }
  }

  // ---------------------------------------------------------------------------
  // Whole runs
  // ---------------------------------------------------------------------------

  /** After userinit: process 0 is queued at level 0, the other slots are UNUSED,
      and every hart enters the scheduler. */
  ghost predicate Init(s: State) {
    && |s.procs| > 0
    && s.procs[0].state == RUNNABLE
    && (forall p :: 0 < p < |s.procs| ==> s.procs[p].state == UNUSED)
    && (forall p :: 0 <= p < |s.procs| ==> s.procs[p].queue == 0 && s.procs[p].ticks == 0 && s.procs[p].child == None)
    && s.qs == [[0], [], [], []]
    && (forall h :: 0 <= h < |s.harts| ==> s.harts[h] == Scan(0))
  }

  lemma {:induction false} NoHands(harts: seq<Hart>, p: Pid)
    requires forall h :: 0 <= h < |harts| ==> !harts[h].Took?
    ensures Hands(harts, p) == 0
  {
    if harts != [] {
      NoHands(harts[..|harts| - 1], p);
    }
  }

  lemma InitInv(s: State)
    requires Init(s)
    ensures Inv(s)
  {
    forall p: Pid
      ensures Slots(s.qs, p) + Hands(s.harts, p) == Due(s.procs, p)
    {
      NoHands(s.harts, p);
    }
  }

  ghost predicate CanRun(s: State, es: seq<Event>)
    decreases |es|
  {
    es == [] || (Enabled(s, es[0]) && CanRun(Do(s, es[0]), es[1..]))
  }

  ghost function RunAll(s: State, es: seq<Event>): State
    requires CanRun(s, es)
    decreases |es|
  {
    if es == [] then s else RunAll(Do(s, es[0]), es[1..])
  }

  lemma {:induction false} RunInv(s: State, es: seq<Event>)
    requires Inv(s) && CanRun(s, es)
    ensures Inv(RunAll(s, es))
    decreases |es|
  {
    if es != [] {
      StepInv(s, es[0]);
      RunInv(Do(s, es[0]), es[1..]);
    }
  }

  ghost predicate Reachable(s: State) {
    exists s0, es :: Init(s0) && CanRun(s0, es) && s == RunAll(s0, es)
  }

  lemma ReachableInv(s: State)
    requires Reachable(s)
    ensures Inv(s)
  {
    var s0, es :| Init(s0) && CanRun(s0, es) && s == RunAll(s0, es);
    InitInv(s0);
    RunInv(s0, es);
  }

  lemma {:induction false} Pigeonhole(m: multiset<nat>, n: nat)
    requires forall x :: x in m ==> x < n && m[x] == 1
    ensures |m| <= n
  {
    if n == 0 {
      assert m == multiset{};
    } else if n - 1 in m {
      Pigeonhole(m - multiset{n - 1}, n - 1);
    } else {
      Pigeonhole(m, n - 1);
    }
  }

  ghost function Queued(qs: Queues): nat {
    |qs[0]| + |qs[1]| + |qs[2]| + |qs[3]|
  }

  lemma QueuedBound(s: State)
    requires Conserved(s)
    ensures Queued(s.qs) <= |s.procs|
    ensures forall p :: 0 <= p < |s.procs| && s.procs[p].state != RUNNABLE ==> Queued(s.qs) < |s.procs|
  {
    var m := multiset(s.qs[0]) + multiset(s.qs[1]) + multiset(s.qs[2]) + multiset(s.qs[3]);
    assert forall x: Pid :: m[x] == Slots(s.qs, x);
    forall x | x in m
      ensures x < |s.procs| && m[x] == 1
    {
      assert Slots(s.qs, x) + Hands(s.harts, x) == Due(s.procs, x);
    }
    Pigeonhole(m, |s.procs|);
    forall p | 0 <= p < |s.procs| && s.procs[p].state != RUNNABLE
      ensures Queued(s.qs) < |s.procs|
    {
      assert Slots(s.qs, p) + Hands(s.harts, p) == Due(s.procs, p);
      var k := m + multiset{p};
      Pigeonhole(k, |s.procs|);
    }
  }

  /** Conservation over every interleaving on any number of harts: a RUNNABLE
      process is in exactly one queue slot or scheduler's hand and no other
      process is in any; a dequeued process is always RUNNABLE, so none is
      dropped; a process that is about to be enqueued (any that is not RUNNABLE)
      finds room in every queue, so "queue is full" is unreachable; the boost's
      temporary array cannot overflow; and no two harts are on one process's
      stack. */
  lemma Conservation(s: State)
    requires Reachable(s)
    ensures forall p :: 0 <= p < |s.procs| ==>
              (s.procs[p].state == RUNNABLE <==> Slots(s.qs, p) + Hands(s.harts, p) == 1)
    ensures forall p: Pid :: Slots(s.qs, p) + Hands(s.harts, p) <= 1
    ensures forall h :: 0 <= h < |s.harts| && s.harts[h].Took? ==>
              s.harts[h].p < |s.procs| && s.procs[s.harts[h].p].state == RUNNABLE
    ensures forall p, q :: 0 <= p < |s.procs| && s.procs[p].state != RUNNABLE && 0 <= q < 4 ==> |s.qs[q]| < |s.procs|
    ensures |Merge(s.qs)[0]| <= |s.procs|
    ensures forall h, g, p :: 0 <= h < g < |s.harts| ==> !(OnStack(s.harts[h], p) && OnStack(s.harts[g], p))
  {
    ReachableInv(s);
    QueuedBound(s);
    assert forall p: Pid :: Slots(s.qs, p) + Hands(s.harts, p) == Due(s.procs, p);
    forall h | 0 <= h < |s.harts| && s.harts[h].Took?
      ensures s.harts[h].p < |s.procs| && s.procs[s.harts[h].p].state == RUNNABLE
    {
      TookIsRunnable(s, h);
    }
  }

  /** A process that becomes RUNNABLE was not RUNNABLE and has a legal level, so
      the guards of the enqueueing events always hold: enqueue never panics. */
  lemma EnqueueNeverPanics(s: State, p: Pid)
    requires Reachable(s) && p < |s.procs|
    ensures s.procs[p].queue < 4
    ensures s.procs[p].child.Some? ==>
              var c := s.procs[p].child.value;
              c < |s.procs| && c != p && s.procs[c].state == USED && s.procs[c].queue < 4
    ensures s.procs[p].state in {USED, SLEEPING, RUNNING} ==> |s.qs[s.procs[p].queue]| < |s.procs|
  {
    ReachableInv(s);
    QueuedBound(s);
  }
}
