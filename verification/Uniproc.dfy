/** The MLFQ scheduler on one hart, the configuration the Makefile selects.

    With one hart, interrupts are off whenever a lock is held, so boost_priority
    and the timer interrupt run to completion: the events here are compositions of
    the events of the Mlfq module. The results are about fairness: in which order
    queued processes are dispatched, and how long one can wait. */
module Uniproc {
  import opened Options
  import opened Mlfq

  /** `uint ticks` wraps at 2^32. */
  const WRAP: nat := 0x1_0000_0000
  const BOOST_PERIOD: nat := 48
  /** The channel of sys_pause sleepers, &ticks. */
  const TICKS_CHAN: nat := 0

  datatype Uni = Uni(s: State, ticks: nat)

  datatype Event =
    | Tick
    | KilledTick
    | Dispatch
    | Block(chan: nat)
    | Exit
    | ForkAlloc(np: Pid)
    | ForkFail(np: Pid)
    | ForkDone
    | WakeAll(chan: nat)
    | Kill(q: Pid)
    | Reap(q: Pid)

  // ---------------------------------------------------------------------------
  // Compositions
  // ---------------------------------------------------------------------------

  /** wakeup's loop from process `k` on. */
  function WakeFrom(s: State, chan: nat, k: nat): (r: State)
    ensures |r.procs| == |s.procs| && r.harts == s.harts
    decreases |s.procs| - k
  {
    if k >= |s.procs| then s
    else WakeFrom(if CanWake(s, k, chan) then DoWake(s, k, chan) else s, chan, k + 1)
  }

  /** boost_priority's first loop from process `k` on. */
  function ResetFrom(s: State, k: nat): (r: State)
    ensures |r.procs| == |s.procs| && r.harts == s.harts && r.qs == s.qs
    decreases |s.procs| - k
  {
    if k >= |s.procs| then s
    else ResetFrom(if CanReset(s, k) then DoReset(s, k) else s, k + 1)
  }

  function Boost(s: State): (r: State) {
    DoMerge(ResetFrom(s, 0))
  }

  predicate Running(s: State, p: Pid) {
    s.harts == [Run(p)] && p < |s.procs| && s.procs[p].queue < 4
  }

  function Yield(s: State, p: Pid): (r: State)
    requires Running(s, p)
  {
    var a := DoYieldCheck(s, 0, p);
    var b := DoYieldDone(a, 0, p);
    if b.harts[0] == Leaving(p) then DoLeave(b, 0, p) else b
  }

  /** scheduler's loop over the levels, from Scan(l) until a process is taken or
      all levels turn out empty. */
  function ScanUp(s: State): (r: State)
    requires |s.harts| == 1 && s.harts[0].Scan? && s.harts[0].level < 4
    ensures |r.harts| == 1
    decreases 4 - s.harts[0].level
  {
    var r := DoDequeue(s, 0);
    if r.harts[0].Took? || r.harts[0] == Scan(0) then r else ScanUp(r)
  }

  function Schedule(s: State): (r: State)
    requires |s.harts| == 1 && s.harts[0].Scan? && s.harts[0].level < 4
  {
    var r := ScanUp(s);
    if CanDispatch(r, 0) then DoDispatch(r, 0) else r
  }

  function NextTick(t: nat): (r: nat)
    ensures r < WRAP
  {
    (t + 1) % WRAP
  }

  predicate BoostDue(t: nat) {
    t % BOOST_PERIOD == 0
  }

  /** clockintr: count the tick, wake the pausers, boost every 48 ticks. */
  function ClockInterrupt(u: Uni): (r: Uni) {
    var t := NextTick(u.ticks);
    var a := WakeFrom(u.s, TICKS_CHAN, 0);
    Uni(if BoostDue(t) then Boost(a) else a, t)
  }

  /** clockintr, then the yield that usertrap or kerneltrap makes if a process is
      running. */
  function TimerInterrupt(u: Uni): (r: Uni) {
    var b := ClockInterrupt(u);
    if |b.s.harts| == 1 && b.s.harts[0].Run? && Running(b.s, b.s.harts[0].p) then
      b.(s := Yield(b.s, b.s.harts[0].p))
    else
      b
  }

  function Current(s: State): (r: Option<Pid>) {
    if |s.harts| == 1 && s.harts[0].Run? then Some(s.harts[0].p) else None
  }

  /** clockintr, then the exit that usertrap makes instead if the process was killed. */
  function KilledInterrupt(u: Uni): (r: Uni)
    requires Enabled(u, KilledTick)
  {
    var b := ClockInterrupt(u);
    b.(s := DoLeave(DoExit(b.s, 0, Current(b.s).value), 0, Current(b.s).value))
  }

  predicate IsTick(e: Event) { e.Tick? || e.KilledTick? }

  predicate Enabled(u: Uni, e: Event) {
    && |u.s.harts| == 1
    && match e
       case Tick => true
       case KilledTick =>
         var s := ClockInterrupt(u).s;
         |s.harts| == 1 && Current(s).Some? && CanExit(s, 0, Current(s).value) && s.procs[Current(s).value].killed
       case Dispatch => u.s.harts[0] == Scan(0) && exists l :: 0 <= l < 4 && u.s.qs[l] != []
       case Block(chan) => Current(u.s).Some? && CanSleep(u.s, 0, Current(u.s).value, chan)
       case Exit => Current(u.s).Some? && CanExit(u.s, 0, Current(u.s).value)
       case ForkAlloc(np) => Current(u.s).Some? && CanForkAlloc(u.s, 0, Current(u.s).value, np)
       case ForkFail(np) => Current(u.s).Some? && CanForkAlloc(u.s, 0, Current(u.s).value, np)
       case ForkDone => Current(u.s).Some? && CanForkDone(u.s, 0, Current(u.s).value)
       case WakeAll(chan) => true
       case Kill(q) => CanKill(u.s, q)
       case Reap(q) => CanReap(u.s, q)
  }

  function Do(u: Uni, e: Event): (r: Uni)
    requires Enabled(u, e)
  {
    match e
    case Tick => TimerInterrupt(u)
    case KilledTick => KilledInterrupt(u)
    case Dispatch => u.(s := Schedule(u.s))
    case Block(chan) =>
      var p := Current(u.s).value;
      u.(s := DoLeave(DoSleep(u.s, 0, p, chan), 0, p))
    case Exit =>
      var p := Current(u.s).value;
      u.(s := DoLeave(DoExit(u.s, 0, p), 0, p))
    case ForkAlloc(np) => u.(s := DoForkAlloc(u.s, 0, Current(u.s).value, np))
    case ForkFail(np) => u.(s := DoForkFail(u.s, 0, Current(u.s).value, np))
    case ForkDone => u.(s := DoForkDone(u.s, 0, Current(u.s).value))
    case WakeAll(chan) => u.(s := WakeFrom(u.s, chan, 0))
    case Kill(q) => u.(s := DoKill(u.s, q))
    case Reap(q) => u.(s := DoReap(u.s, q))
  }

  // ---------------------------------------------------------------------------
  // Invariant
  // ---------------------------------------------------------------------------

  /** A process in queue `l` has p->queue == l. */
  ghost predicate Agree(s: State) {
    forall l, j :: 0 <= l < 4 && 0 <= j < |s.qs[l]| ==>
      s.qs[l][j] < |s.procs| && s.procs[s.qs[l][j]].queue == l
  }

  ghost predicate Quiet(s: State) {
    |s.harts| == 1 && (s.harts[0].Run? || s.harts[0] == Scan(0))
  }

  ghost predicate UniInv(u: Uni) {
    Inv(u.s) && Quiet(u.s) && Agree(u.s) && u.ticks < WRAP
  }

  lemma SlotOf(qs: Queues, l: nat, j: nat)
    requires l < 4 && j < |qs[l]|
    ensures Slots(qs, qs[l][j]) >= 1
  {
    assert qs[l][j] in multiset(qs[l]);
  }

  /** Queued processes are RUNNABLE. */
  lemma QueuedIsRunnable(s: State, l: nat, j: nat)
    requires Conserved(s) && l < 4 && j < |s.qs[l]|
    ensures s.qs[l][j] < |s.procs| && s.procs[s.qs[l][j]].state == RUNNABLE
  {
    SlotOf(s.qs, l, j);
    var p := s.qs[l][j];
    assert Slots(s.qs, p) + Hands(s.harts, p) == Due(s.procs, p);
  }

  /** Changing a process that is not queued, or one that keeps its level. */
  lemma AgreeProc(s: State, p: Pid, x: Proc)
    requires Conserved(s) && Agree(s) && p < |s.procs|
    requires s.procs[p].state != RUNNABLE || x.queue == s.procs[p].queue
    ensures Agree(s.(procs := s.procs[p := x]))
  {
    forall l, j | 0 <= l < 4 && 0 <= j < |s.qs[l]|
      ensures s.procs[p := x][s.qs[l][j]].queue == l
    {
      QueuedIsRunnable(s, l, j);
    }
  }

  lemma AgreeRunnable(s: State, p: Pid)
    requires Conserved(s) && Agree(s) && p < |s.procs| && s.procs[p].queue < 4 && s.procs[p].state != RUNNABLE
    ensures Agree(MakeRunnable(s, p))
  {
    AgreeProc(s, p, s.procs[p].(state := RUNNABLE));
  }

  ghost predicate Good(s: State) {
    Inv(s) && Quiet(s) && Agree(s)
  }

  lemma WakeOneGood(s: State, chan: nat, k: nat)
    requires Good(s) && k < |s.procs|
    ensures CanWake(s, k, chan)
    ensures var r := DoWake(s, k, chan); Good(r) && s.qs[0] <= r.qs[0]
  {
    assert CanWake(s, k, chan);
    InvWake(s, k, chan);
    if s.procs[k].state == SLEEPING && s.procs[k].chan == chan {
      AgreeRunnable(s, k);
    }
  }

  lemma {:induction false} WakeGood(s: State, chan: nat, k: nat)
    requires Good(s)
    ensures Good(WakeFrom(s, chan, k)) && s.qs[0] <= WakeFrom(s, chan, k).qs[0]
    decreases |s.procs| - k
  {
    if k < |s.procs| {
      WakeOneGood(s, chan, k);
      WakeGood(DoWake(s, k, chan), chan, k + 1);
    }
  }

  lemma ResetOneGood(s: State, k: nat)
    requires Inv(s) && Quiet(s) && k < |s.procs|
    ensures CanReset(s, k) && Inv(DoReset(s, k)) && Quiet(DoReset(s, k))
  {
    assert CanReset(s, k);
    InvProc(s, k, DoReset(s, k).procs[k]);
  }

  lemma {:induction false} ResetGood(s: State, k: nat)
    requires Inv(s) && Quiet(s)
    ensures Inv(ResetFrom(s, k))
    ensures forall p :: k <= p < |s.procs| ==>
              ResetFrom(s, k).procs[p].queue == 0 && ResetFrom(s, k).procs[p].ticks == 0
    ensures forall p :: 0 <= p < |s.procs| && p < k ==> ResetFrom(s, k).procs[p] == s.procs[p]
    decreases |s.procs| - k
  {
    if k < |s.procs| {
      ResetOneGood(s, k);
      ResetGood(DoReset(s, k), k + 1);
    }
  }

  /** A boost puts every queued process in level 0, level by level, and gives all
      processes level 0 and an unused slice. */
  lemma BoostGood(s: State)
    requires Good(s)
    ensures var r := Boost(s);
            && Good(r) && r.harts == s.harts
            && s.qs[0] <= r.qs[0] && r.qs[1] == r.qs[2] == r.qs[3] == []
            && (forall p :: 0 <= p < |s.procs| ==> r.procs[p].queue == 0 && r.procs[p].ticks == 0)
            && (forall x: Pid :: Slots(r.qs, x) == Slots(s.qs, x))
  {
    ResetGood(s, 0);
    var a := ResetFrom(s, 0);
    InvMerge(a);
    SlotsMerge(a.qs);
    var r := Boost(s);
    forall l, j | 0 <= l < 4 && 0 <= j < |r.qs[l]|
      ensures r.qs[l][j] < |r.procs| && r.procs[r.qs[l][j]].queue == l
    {
      QueuedIsRunnable(r, l, j);
    }
  }

  /** A tick that finds level 0 occupied takes the CPU from the running process. */
  lemma YieldGood(s: State, p: Pid)
    requires Good(s) && Running(s, p)
    ensures var r := Yield(s, p);
            && Good(r) && s.qs[0] <= r.qs[0]
            && (s.qs[0] != [] ==> r.harts == [Scan(0)])
  {
    var a := DoYieldCheck(s, 0, p);
    InvYieldCheck(s, 0, p);
    AgreeProc(s, p, a.procs[p]);
    assert Agree(a);
    var b := DoYieldDone(a, 0, p);
    InvYieldDone(a, 0, p);
    YieldDoneAgrees(a, p);
    if b.harts[0] == Leaving(p) {
      InvLeave(b, 0, p);
    }
    if s.qs[0] != [] && s.procs[p].queue > 0 {
      assert Busier(s.qs, s.procs[p].queue);
    }
  }

  lemma YieldDoneAgrees(a: State, p: Pid)
    requires Inv(a) && Agree(a) && |a.harts| == 1 && CanYieldDone(a, 0, p)
    ensures var b := DoYieldDone(a, 0, p); Agree(b) && a.qs[0] <= b.qs[0]
  {
    var x := a.procs[p];
    var spent := x.ticks >= Slice(x.queue);
    if spent || a.harts[0].preempt {
      var y := if spent then x.(queue := if x.queue < 3 then x.queue + 1 else x.queue, ticks := 0) else x;
      AgreeProc(a, p, y);
      var m := a.(procs := a.procs[p := y], harts := a.harts[0 := Leaving(p)]);
      ConservedProc(a, p, y);
      ConservedHart(a.(procs := m.procs), 0, Leaving(p));
      AgreeRunnable(m, p);
    }
  }

  /** Whether yield gives up the CPU, and the process after yield has charged the
      tick to it. */
  function GivesUp(x: Proc, busier: bool): (r: bool) {
    x.ticks + 1 >= Slice(x.queue) || busier
  }

  function Charged(x: Proc): (y: Proc) {
    if x.ticks + 1 >= Slice(x.queue) then x.(queue := if x.queue < 3 then x.queue + 1 else x.queue, ticks := 0)
    else x.(ticks := x.ticks + 1)
  }

  lemma YieldSplit(s: State, p: Pid)
    requires Good(s) && Running(s, p)
    ensures var y := Charged(s.procs[p]);
            var m := s.(procs := s.procs[p := y], harts := [Leaving(p)]);
            && y.state == RUNNING && y.queue < 4 && Conserved(m)
            && Yield(s, p) == if GivesUp(s.procs[p], Busier(s.qs, s.procs[p].queue))
                              then MakeRunnable(m, p).(harts := [Scan(0)])
                              else s.(procs := s.procs[p := y])
  {
    var a := DoYieldCheck(s, 0, p);
    var y := Charged(s.procs[p]);
    var m := s.(procs := s.procs[p := y], harts := [Leaving(p)]);
    ConservedProc(s, p, y);
    ConservedHart(s.(procs := m.procs), 0, Leaving(p));
    assert s.harts[0 := Leaving(p)] == [Leaving(p)];
    assert a.procs[p := y] == m.procs;
  }

  /** The level that the scheduler serves next; 4 when all queues are empty. */
  function Top(qs: Queues): (l: nat)
    ensures l <= 4 && (l < 4 ==> qs[l] != []) && forall i :: 0 <= i < l ==> qs[i] == []
  {
    if qs[0] != [] then 0 else if qs[1] != [] then 1 else if qs[2] != [] then 2 else if qs[3] != [] then 3 else 4
  }

  lemma {:induction false} ScanTakesTop(s: State)
    requires Inv(s) && |s.harts| == 1 && s.harts[0].Scan?
    requires s.harts[0].level <= Top(s.qs) < 4
    ensures var l := Top(s.qs);
            var r := ScanUp(s);
            && Inv(r) && r.procs == s.procs && r.qs == s.qs[l := s.qs[l][1..]]
            && r.harts == [Took(l, s.qs[l][0])]
    decreases 4 - s.harts[0].level
  {
    InvDequeue(s, 0);
    var r := DoDequeue(s, 0);
    if s.harts[0].level < Top(s.qs) {
      ScanTakesTop(r);
    }
  }

  /** Scheduling dispatches the head of the highest non-empty queue. */
  lemma ScheduleGood(s: State)
    requires Good(s) && s.harts[0] == Scan(0) && Top(s.qs) < 4
    ensures var l := Top(s.qs);
            var r := Schedule(s);
            && Good(r) && r.harts == [Run(s.qs[l][0])]
            && r.qs == s.qs[l := s.qs[l][1..]]
            && r.procs == s.procs[s.qs[l][0] := s.procs[s.qs[l][0]].(state := RUNNING)]
  {
    ScanTakesTop(s);
    var a := ScanUp(s);
    TookIsRunnable(a, 0);
    InvDispatch(a, 0);
    AgreeTaken(s, a, Top(s.qs));
    AgreeProc(a, s.qs[Top(s.qs)][0], s.procs[s.qs[Top(s.qs)][0]].(state := RUNNING));
  }

  lemma AgreeTaken(s: State, a: State, l: nat)
    requires Agree(s) && l < 4 && s.qs[l] != [] && a.procs == s.procs && a.qs == s.qs[l := s.qs[l][1..]]
    ensures Agree(a)
  {
    assert forall j :: 0 <= j < |a.qs[l]| ==> a.qs[l][j] == s.qs[l][j + 1];
  }

  lemma ClockGood(u: Uni)
    requires UniInv(u)
    ensures var r := ClockInterrupt(u);
            UniInv(r) && u.s.qs[0] <= r.s.qs[0] && r.s.harts == u.s.harts
  {
    WakeGood(u.s, TICKS_CHAN, 0);
    BoostGood(WakeFrom(u.s, TICKS_CHAN, 0));
  }

  lemma TickGood(u: Uni)
    requires UniInv(u)
    ensures UniInv(TimerInterrupt(u)) && u.s.qs[0] <= TimerInterrupt(u).s.qs[0]
    ensures u.s.qs[0] != [] ==> TimerInterrupt(u).s.harts == [Scan(0)]
  {
    ClockGood(u);
    var b := ClockInterrupt(u).s;
    if b.harts[0].Run? {
      assert Running(b, b.harts[0].p);
      YieldGood(b, b.harts[0].p);
    }
  }

  lemma KilledGood(u: Uni)
    requires UniInv(u) && Enabled(u, KilledTick)
    ensures var r := KilledInterrupt(u); UniInv(r) && u.s.qs[0] <= r.s.qs[0] && r.s.harts == [Scan(0)]
  {
    ClockGood(u);
    ExitGood(ClockInterrupt(u).s);
  }

  /** Every event keeps the invariant, and keeps level 0 as it was except that a
      dispatch takes its head and that processes join at its end. */
  lemma StepGood(u: Uni, e: Event)
    requires UniInv(u) && Enabled(u, e)
    ensures var r := Do(u, e);
            && UniInv(r)
            && (if e.Dispatch? && u.s.qs[0] != [] then u.s.qs[0][1..] else u.s.qs[0]) <= r.s.qs[0]
  {
    var s := u.s;
    match e
    case Tick => TickGood(u);
    case KilledTick => KilledGood(u);
    case Dispatch => ScheduleGood(s);
    case Block(chan) => BlockGood(s, chan);
    case Exit => ExitGood(s);
    case ForkAlloc(np) => ForkAllocGood(s, np);
    case ForkFail(np) => ForkFailGood(s, np);
    case ForkDone => ForkDoneGood(s);
    case WakeAll(chan) => WakeGood(s, chan, 0);
    case Kill(q) => KillGood(s, q);
    case Reap(q) => ReapGood(s, q);
  }

  lemma ForkAllocGood(s: State, np: Pid)
    requires Good(s) && Current(s).Some? && CanForkAlloc(s, 0, Current(s).value, np)
    ensures Good(DoForkAlloc(s, 0, Current(s).value, np))
  {
    var p := Current(s).value;
    InvForkAlloc(s, 0, p, np);
    AgreeProc(s, p, s.procs[p].(child := Some(np)));
    var m := s.(procs := s.procs[p := s.procs[p].(child := Some(np))]);
    ConservedProc(s, p, m.procs[p]);
    AgreeProc(m, np, DoForkAlloc(s, 0, p, np).procs[np]);
  }

  lemma ForkFailGood(s: State, np: Pid)
    requires Good(s) && Current(s).Some? && CanForkAlloc(s, 0, Current(s).value, np)
    ensures Good(DoForkFail(s, 0, Current(s).value, np))
  {
    var x := DoForkFail(s, 0, Current(s).value, np).procs[np];
    InvProc(s, np, x);
    AgreeProc(s, np, x);
  }

  lemma ForkDoneGood(s: State)
    requires Good(s) && Current(s).Some? && CanForkDone(s, 0, Current(s).value)
    ensures Good(DoForkDone(s, 0, Current(s).value)) && s.qs[0] <= DoForkDone(s, 0, Current(s).value).qs[0]
  {
    var p := Current(s).value;
    InvForkDone(s, 0, p);
    var m := s.(procs := s.procs[p := s.procs[p].(child := None)]);
    AgreeProc(s, p, m.procs[p]);
    ConservedProc(s, p, m.procs[p]);
    AgreeRunnable(m, s.procs[p].child.value);
  }

  lemma KillGood(s: State, q: Pid)
    requires Good(s) && CanKill(s, q)
    ensures Good(DoKill(s, q)) && s.qs[0] <= DoKill(s, q).qs[0]
  {
    InvKill(s, q);
    var x := s.procs[q].(killed := true);
    AgreeProc(s, q, x);
    InvProc(s, q, x);
    if s.procs[q].state == SLEEPING {
      AgreeRunnable(s.(procs := s.procs[q := x]), q);
    }
  }

  lemma ReapGood(s: State, q: Pid)
    requires Good(s) && CanReap(s, q)
    ensures Good(DoReap(s, q))
  {
    InvProc(s, q, DoReap(s, q).procs[q]);
    AgreeProc(s, q, DoReap(s, q).procs[q]);
  }

  lemma BlockGood(s: State, chan: nat)
    requires Good(s) && Current(s).Some? && CanSleep(s, 0, Current(s).value, chan)
    ensures var p := Current(s).value; Good(DoLeave(DoSleep(s, 0, p, chan), 0, p))
  {
    var p := Current(s).value;
    InvSleep(s, 0, p, chan);
    var a := DoSleep(s, 0, p, chan);
    AgreeProc(s, p, a.procs[p]);
    InvLeave(a, 0, p);
  }

  lemma ExitGood(s: State)
    requires Good(s) && Current(s).Some? && CanExit(s, 0, Current(s).value)
    ensures var p := Current(s).value; Good(DoLeave(DoExit(s, 0, p), 0, p))
  {
    var p := Current(s).value;
    InvExit(s, 0, p);
    var a := DoExit(s, 0, p);
    AgreeProc(s, p, a.procs[p]);
    InvLeave(a, 0, p);
  }

  // ---------------------------------------------------------------------------
  // Whole runs
  // ---------------------------------------------------------------------------

  ghost predicate CanRun(u: Uni, es: seq<Event>)
    decreases |es|
  {
    es == [] || (Enabled(u, es[0]) && CanRun(Do(u, es[0]), es[1..]))
  }

  ghost function RunAll(u: Uni, es: seq<Event>): Uni
    requires CanRun(u, es)
    decreases |es|
  {
    if es == [] then u else RunAll(Do(u, es[0]), es[1..])
  }

  function Dispatches(es: seq<Event>): (n: nat) {
    if es == [] then 0 else (if es[0].Dispatch? then 1 else 0) + Dispatches(es[1..])
  }

  lemma UniInit(u: Uni)
    requires Init(u.s) && u.s.harts == [Scan(0)] && u.ticks == 0
    ensures UniInv(u)
  {
    InitInv(u.s);
  }

  lemma OrderStep(q: seq<Pid>, r: seq<Pid>, z: seq<Pid>, first: nat, d: nat)
    requires first + d <= |q| && q[first..] <= r && r[d..] <= z
    ensures q[first + d..] <= z
  {
    assert q[first..][d..] <= r[d..];
    assert q[first..][d..] == q[first + d..];
  }

  lemma FirstStep(u: Uni, e: Event, first: nat)
    requires UniInv(u) && Enabled(u, e) && first == (if e.Dispatch? then 1 else 0) && first <= |u.s.qs[0]|
    ensures UniInv(Do(u, e)) && u.s.qs[0][first..] <= Do(u, e).s.qs[0]
  {
    StepGood(u, e);
    assert first == 0 ==> u.s.qs[0][first..] == u.s.qs[0];
  }

  /** Order of service at level 0. Over any run whose number of dispatches is at
      most the length of the level-0 queue, exactly that many processes have left
      its front and the others are still there in the same order, whatever ticks,
      boosts, wakeups, forks, kills and exits happened meanwhile. */
  lemma {:induction false} DispatchOrder(u: Uni, es: seq<Event>)
    requires UniInv(u) && CanRun(u, es) && Dispatches(es) <= |u.s.qs[0]|
    ensures UniInv(RunAll(u, es))
    ensures u.s.qs[0][Dispatches(es)..] <= RunAll(u, es).s.qs[0]
    decreases |es|
  {
    if es != [] {
      var first, d := if es[0].Dispatch? then 1 else 0, Dispatches(es[1..]);
      FirstStep(u, es[0], first);
      var r := Do(u, es[0]);
      DispatchOrder(r, es[1..]);
      OrderStep(u.s.qs[0], r.s.qs[0], RunAll(u, es).s.qs[0], first, d);
    } else {
      assert u.s.qs[0][0..] == u.s.qs[0];
    }
  }

  /** After `i` dispatches, and not before, it is the turn of the process that was
      at position `i`; there are at most NPROC - 1 dispatches before its own. */
  lemma TurnComes(u: Uni, es: seq<Event>, i: nat)
    requires UniInv(u) && CanRun(u, es) && i < |u.s.qs[0]| && Dispatches(es) == i
    requires Enabled(RunAll(u, es), Event.Dispatch)
    ensures Current(Do(RunAll(u, es), Event.Dispatch).s) == Some(u.s.qs[0][i])
    ensures i <= |u.s.procs| - 1
  {
    DispatchOrder(u, es);
    QueuedBound(u.s);
    var v := RunAll(u, es);
    assert v.s.qs[0][0] == u.s.qs[0][i..][0];
    ScheduleGood(v.s);
  }

  /** Timer ticks that interrupt a running process. */
  ghost function BusyTicks(u: Uni, es: seq<Event>): nat
    requires CanRun(u, es)
    decreases |es|
  {
    if es == [] then 0
    else
      (if IsTick(es[0]) && Current(u.s).Some? then 1 else 0) + BusyTicks(Do(u, es[0]), es[1..])
  }

  /** The run never dispatches `p`. */
  ghost predicate PassesOver(u: Uni, es: seq<Event>, p: Pid)
    requires CanRun(u, es)
    decreases |es|
  {
    es == []
    || ((es[0].Dispatch? ==> Current(Do(u, es[0]).s) != Some(p)) && PassesOver(Do(u, es[0]), es[1..], p))
  }

  /** Ticks until the next boost. At the wrap of the 32-bit counter the gap is
      shorter than 48, because 48 does not divide 2^32. */
  function ToBoost(t: nat): (n: nat)
    requires t < WRAP
    ensures 1 <= n <= BOOST_PERIOD
  {
    if WRAP - t <= BOOST_PERIOD - t % BOOST_PERIOD then WRAP - t else BOOST_PERIOD - t % BOOST_PERIOD
  }

  // ---------------------------------------------------------------------------
  // No starvation
  // ---------------------------------------------------------------------------

  lemma {:induction false} WakeKeeps(s: State, chan: nat, k: nat, p: Pid)
    requires p < |s.procs| && s.procs[p].state == RUNNABLE
    ensures WakeFrom(s, chan, k).procs[p].state == RUNNABLE
    decreases |s.procs| - k
  {
    if k < |s.procs| {
      WakeKeeps(if CanWake(s, k, chan) then DoWake(s, k, chan) else s, chan, k + 1, p);
    }
  }

  lemma {:induction false} ResetKeeps(s: State, k: nat, p: Pid)
    requires p < |s.procs|
    ensures ResetFrom(s, k).procs[p].state == s.procs[p].state
    decreases |s.procs| - k
  {
    if k < |s.procs| {
      ResetKeeps(if CanReset(s, k) then DoReset(s, k) else s, k + 1, p);
    }
  }

  lemma ClockKeeps(u: Uni, p: Pid)
    requires p < |u.s.procs| && u.s.procs[p].state == RUNNABLE
    ensures |ClockInterrupt(u).s.procs| == |u.s.procs| && ClockInterrupt(u).s.procs[p].state == RUNNABLE
  {
    WakeKeeps(u.s, TICKS_CHAN, 0, p);
    ResetKeeps(WakeFrom(u.s, TICKS_CHAN, 0), 0, p);
  }

  ghost predicate Waits(s: State, p: Pid) {
    p < |s.procs| && s.procs[p].state == RUNNABLE
  }

  /** A waiting process waits until it is dispatched, and only a dispatch gives
      the CPU to a process. */
  lemma StillWaits(u: Uni, e: Event, p: Pid)
    requires UniInv(u) && Enabled(u, e) && Waits(u.s, p)
    requires e.Dispatch? ==> Current(Do(u, e).s) != Some(p)
    ensures Waits(Do(u, e).s, p) && |Do(u, e).s.procs| == |u.s.procs|
    ensures !e.Dispatch? && Current(u.s) == None ==> Current(Do(u, e).s) == None
  {
    match e
    case Tick =>
      ClockKeeps(u, p);
      ClockGood(u);
    case KilledTick =>
      ClockKeeps(u, p);
      ClockGood(u);
    case Dispatch => ScheduleGood(u.s);
    case WakeAll(chan) => WakeKeeps(u.s, chan, 0, p);
    case _ =>
  }

  lemma WaitingIsQueued(s: State, p: Pid)
    requires Conserved(s) && Quiet(s) && Waits(s, p)
    ensures Slots(s.qs, p) == 1
  {
    assert Slots(s.qs, p) + Hands(s.harts, p) == Due(s.procs, p);
    NoHands(s.harts, p);
  }

  lemma BoostHolds(s: State, p: Pid)
    requires Good(s) && Waits(s, p)
    ensures p in Boost(s).qs[0]
  {
    WaitingIsQueued(s, p);
    BoostGood(s);
    assert Slots(Boost(s).qs, p) == 1;
  }

  lemma BoostClock(u: Uni, p: Pid)
    requires UniInv(u) && Waits(u.s, p) && ToBoost(u.ticks) == 1
    ensures p in ClockInterrupt(u).s.qs[0]
  {
    ToBoostStep(u.ticks);
    WakeGood(u.s, TICKS_CHAN, 0);
    WakeKeeps(u.s, TICKS_CHAN, 0, p);
    BoostHolds(WakeFrom(u.s, TICKS_CHAN, 0), p);
  }

  /** The tick that boosts leaves every waiting process at level 0. */
  lemma BoostTick(u: Uni, e: Event, p: Pid)
    requires UniInv(u) && Waits(u.s, p) && ToBoost(u.ticks) == 1 && IsTick(e) && Enabled(u, e)
    ensures p in Do(u, e).s.qs[0] && Do(u, e).s.harts == [Scan(0)]
  {
    BoostClock(u, p);
    ClockGood(u);
    var b := ClockInterrupt(u).s;
    if e.KilledTick? {
      ExitGood(b);
    } else if b.harts[0].Run? {
      assert Running(b, b.harts[0].p);
      YieldGood(b, b.harts[0].p);
    }
  }

  lemma ToBoostStep(t: nat)
    requires t < WRAP
    ensures ToBoost(t) == 1 <==> BoostDue(NextTick(t))
    ensures ToBoost(t) > 1 ==> NextTick(t) == t + 1 < WRAP && ToBoost(t + 1) == ToBoost(t) - 1
  {
    NextRemainder(t);
    if t + 1 == WRAP {
      assert NextTick(t) == 0;
    } else {
      assert NextTick(t) == t + 1;
    }
  }

  lemma NextRemainder(t: nat)
    ensures (t + 1) % BOOST_PERIOD == if t % BOOST_PERIOD == BOOST_PERIOD - 1 then 0 else t % BOOST_PERIOD + 1
  {
  }

  lemma CountDown(u: Uni, e: Event)
    requires Enabled(u, e) && u.ticks < WRAP && !(IsTick(e) && ToBoost(u.ticks) == 1)
    ensures Do(u, e).ticks < WRAP
    ensures ToBoost(Do(u, e).ticks) + (if IsTick(e) then 1 else 0) == ToBoost(u.ticks)
  {
    ToBoostStep(u.ticks);
  }

  ghost function Cur(u: Uni): nat {
    if Current(u.s).Some? then 1 else 0
  }

  /** At level 0: as many busy ticks as there are processes ahead, plus one for
      the process that is running now. */
  lemma {:induction false} WaitAtTop(u: Uni, es: seq<Event>, p: Pid, i: nat)
    requires UniInv(u) && CanRun(u, es) && PassesOver(u, es, p)
    requires i < |u.s.qs[0]| && u.s.qs[0][i] == p
    ensures BusyTicks(u, es) <= i + Cur(u)
    decreases |es|
  {
    if es != [] {
      var e, r := es[0], Do(u, es[0]);
      QueuedIsRunnable(u.s, 0, i);
      StepGood(u, e);
      StillWaits(u, e, p);
      if e.Dispatch? {
        ScheduleGood(u.s);
        assert i > 0;
        assert r.s.qs[0][i - 1] == u.s.qs[0][1..][i - 1] == p;
        WaitAtTop(r, es[1..], p, i - 1);
      } else {
        assert r.s.qs[0][i] == p;
        WaitAtTop(r, es[1..], p, i);
        if e.Tick? {
          TickGood(u);
        } else if e.KilledTick? {
          KilledGood(u);
        }
      }
    }
  }

  lemma WaitAtTopBound(u: Uni, es: seq<Event>, p: Pid)
    requires UniInv(u) && CanRun(u, es) && PassesOver(u, es, p) && p in u.s.qs[0]
    ensures BusyTicks(u, es) <= |u.s.procs| - 1 + Cur(u)
  {
    var i :| 0 <= i < |u.s.qs[0]| && u.s.qs[0][i] == p;
    WaitAtTop(u, es, p, i);
    QueuedBound(u.s);
  }

  lemma WaitThroughBoost(u: Uni, es: seq<Event>, p: Pid)
    requires UniInv(u) && CanRun(u, es) && PassesOver(u, es, p) && Waits(u.s, p)
    requires es != [] && IsTick(es[0]) && ToBoost(u.ticks) == 1
    ensures BusyTicks(u, es) <= |u.s.procs|
  {
    StepGood(u, es[0]);
    StillWaits(u, es[0], p);
    BoostTick(u, es[0], p);
    WaitAtTopBound(Do(u, es[0]), es[1..], p);
  }

  /** From any level: the boost comes after at most 48 ticks, and from then on the
      bound for level 0 holds. */
  lemma {:induction false} WaitAnywhere(u: Uni, es: seq<Event>, p: Pid)
    requires UniInv(u) && CanRun(u, es) && PassesOver(u, es, p) && Waits(u.s, p)
    ensures BusyTicks(u, es) <= ToBoost(u.ticks) - 1 + |u.s.procs|
    decreases |es|
  {
    if es == [] {
    } else if IsTick(es[0]) && ToBoost(u.ticks) == 1 {
      WaitThroughBoost(u, es, p);
    } else {
      StepGood(u, es[0]);
      StillWaits(u, es[0], p);
      CountDown(u, es[0]);
      WaitAnywhere(Do(u, es[0]), es[1..], p);
    }
  }

  /** No starvation: a process that waits is dispatched before NPROC + 47 timer
      ticks have interrupted other processes, in every run from every reachable
      state, across boosts, arrivals and departures. */
  lemma NoStarvation(u0: Uni, es0: seq<Event>, es: seq<Event>, p: Pid)
    requires Init(u0.s) && u0.s.harts == [Scan(0)] && u0.ticks == 0 && CanRun(u0, es0)
    requires Waits(RunAll(u0, es0).s, p)
    requires CanRun(RunAll(u0, es0), es) && PassesOver(RunAll(u0, es0), es, p)
    ensures BusyTicks(RunAll(u0, es0), es) <= 47 + |RunAll(u0, es0).s.procs|
  {
    UniInit(u0);
    RunUniInv(u0, es0);
    WaitAnywhere(RunAll(u0, es0), es, p);
  }

  /** In every reachable state a process in queue `l` has p->queue == l, and every
      process has used less than the slice of its level. */
  lemma SlotsAndSlices(u0: Uni, es: seq<Event>)
    requires Init(u0.s) && u0.s.harts == [Scan(0)] && u0.ticks == 0 && CanRun(u0, es)
    ensures Agree(RunAll(u0, es).s)
    ensures var ps := RunAll(u0, es).s.procs;
            forall p :: 0 <= p < |ps| ==>
              && ps[p].queue < 4
              && ps[p].ticks < [1, 4, 8, 16][ps[p].queue]
  {
    UniInit(u0);
    RunUniInv(u0, es);
  }

  lemma {:induction false} RunUniInv(u: Uni, es: seq<Event>)
    requires UniInv(u) && CanRun(u, es)
    ensures UniInv(RunAll(u, es))
    decreases |es|
  {
    if es != [] {
      StepGood(u, es[0]);
      RunUniInv(Do(u, es[0]), es[1..]);
    }
  }
}
