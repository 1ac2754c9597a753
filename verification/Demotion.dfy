/** Time slices on one hart: how many ticks a process may use at each level, when it moves
    down, and whom a wakeup makes runnable. The numbers are those of yield in
    xv6/kernel/proc.c: 1, 4, 8 and 16 ticks. */
module Demotion {
  import opened Options
  import opened Mlfq
  import opened Uniproc
  import U = Uniproc

  /** Level and ticks after `c` ticks on the CPU, counted from a fresh start at level 0. */
  ghost predicate PlaceAfter(c: nat, y: Proc) {
    if c < 1 then y.queue == 0 && y.ticks == 0
    else if c < 5 then y.queue == 1 && y.ticks == c - 1
    else if c < 13 then y.queue == 2 && y.ticks == c - 5
    else y.queue == 3 && y.ticks == (c - 13) % 16
  }

  /** A tick charged to `x` makes it `y`: the next level with a fresh slice after the last
      tick of a slice, and after the last at level 3 a fresh slice there. */
  ghost predicate OneTick(x: Proc, y: Proc) {
    && (x.queue == 0 ==> y.queue == 1 && y.ticks == 0)
    && (x.queue == 1 ==> if x.ticks == 3 then y.queue == 2 && y.ticks == 0 else y.queue == 1 && y.ticks == x.ticks + 1)
    && (x.queue == 2 ==> if x.ticks == 7 then y.queue == 3 && y.ticks == 0 else y.queue == 2 && y.ticks == x.ticks + 1)
    && (x.queue == 3 ==> y.queue == 3 && y.ticks == if x.ticks == 15 then 0 else x.ticks + 1)
  }

  ghost predicate SamePlace(x: Proc, y: Proc) { y.queue == x.queue && y.ticks == x.ticks }

  ghost predicate Ready(s: State, p: Pid) {
    p < |s.procs| && (s.procs[p].state == RUNNABLE || s.procs[p].state == RUNNING)
  }

  /** The tick that ends the slice of a process at this place. */
  predicate LastTick(x: Proc) {
    || x.queue == 0 || (x.queue == 1 && x.ticks == 3) || (x.queue == 2 && x.ticks == 7)
    || (x.queue == 3 && x.ticks == 15)
  }

  /** What yield does to the running process: it is charged a tick, and leaves the CPU for
      the end of the queue of its new level exactly when its slice is over or a higher queue
      is not empty. */
  ghost predicate Yielded(s: State, r: State, p: Pid)
    requires p < |s.procs|
  {
    var x := s.procs[p];
    && |r.procs| == |s.procs| && Ready(r, p) && OneTick(x, r.procs[p])
    && (forall q :: 0 <= q < |s.procs| && q != p ==> r.procs[q] == s.procs[q])
    && if LastTick(x) || exists l :: 0 <= l < x.queue && l < 4 && s.qs[l] != []
       then r.harts == [Scan(0)] && r.procs[p].state == RUNNABLE && r.procs[p].queue < 4
            && r.qs == s.qs[r.procs[p].queue := s.qs[r.procs[p].queue] + [p]]
       else r.harts == [Run(p)] && r.qs == s.qs
  }

  lemma YieldPlace(s: State, p: Pid)
    requires Good(s) && Running(s, p)
    ensures Yielded(s, Yield(s, p), p)
  {
    YieldSplit(s, p);
    var x := s.procs[p];
    assert x.ticks < Slice(x.queue);
    assert Busier(s.qs, x.queue) <==> exists l :: 0 <= l < x.queue && l < 4 && s.qs[l] != [];
  }

  // ----- wakeup -----

  ghost predicate SleepsOn(x: Proc, chan: nat) { x.state == SLEEPING && x.chan == chan }

  /** `w` lists, in table order, the processes from `k` on that sleep on `chan` at level `l`. */
  ghost predicate Sleepers(s: State, chan: nat, k: nat, l: nat, w: seq<Pid>) {
    && (forall i, j :: 0 <= i < j < |w| ==> w[i] < w[j])
    && (forall q: Pid :: q in w <==> k <= q < |s.procs| && SleepsOn(s.procs[q], chan) && s.procs[q].queue == l)
  }

  /** Sleepers on `chan` from `k` on are runnable now, everybody else is as before. */
  ghost predicate WokenProcs(s: State, r: State, chan: nat, k: nat) {
    && |r.procs| == |s.procs|
    && forall q :: 0 <= q < |s.procs| ==>
         r.procs[q] == if k <= q && SleepsOn(s.procs[q], chan) then s.procs[q].(state := RUNNABLE) else s.procs[q]
  }

  ghost predicate JoinedBy(s: State, r: State, ws: Queues) {
    forall l :: 0 <= l < 4 ==> r.qs[l] == s.qs[l] + ws[l]
  }

  ghost predicate AllSleepers(s: State, chan: nat, k: nat, ws: Queues) {
    forall l :: 0 <= l < 4 ==> Sleepers(s, chan, k, l, ws[l])
  }

  lemma WokenHere(s: State, chan: nat, k: nat, ws: Queues, all: Queues)
    requires k < |s.procs| && s.procs[k].queue < 4 && SleepsOn(s.procs[k], chan)
    requires AllSleepers(MakeRunnable(s, k), chan, k + 1, ws)
    requires all == ws[s.procs[k].queue := [k] + ws[s.procs[k].queue]]
    ensures AllSleepers(s, chan, k, all)
  {
    forall l | 0 <= l < 4
      ensures Sleepers(s, chan, k, l, all[l])
    {
      WokenAt(s, chan, k, l, ws[l]);
    }
  }

  lemma WokenAt(s: State, chan: nat, k: nat, l: nat, w: seq<Pid>)
    requires k < |s.procs| && s.procs[k].queue < 4 && SleepsOn(s.procs[k], chan)
    requires Sleepers(MakeRunnable(s, k), chan, k + 1, l, w)
    ensures Sleepers(s, chan, k, l, if l == s.procs[k].queue then [k] + w else w)
  {
    var r := MakeRunnable(s, k);
    assert forall q :: 0 <= q < |s.procs| && q != k ==> r.procs[q] == s.procs[q];
    assert forall i :: 0 <= i < |w| ==> w[i] in w;
  }

  lemma NotWokenHere(s: State, chan: nat, k: nat, ws: Queues)
    requires k < |s.procs| && !SleepsOn(s.procs[k], chan) && AllSleepers(s, chan, k + 1, ws)
    ensures AllSleepers(s, chan, k, ws)
  {
    forall l | 0 <= l < 4
      ensures Sleepers(s, chan, k, l, ws[l])
    {
      assert Sleepers(s, chan, k + 1, l, ws[l]);
    }
  }

  /** `k` joins the queue of its level, and then the others do. */
  lemma JoinedFirst(s: State, r: State, k: nat, ws: Queues, all: Queues)
    requires k < |s.procs| && s.procs[k].queue < 4 && JoinedBy(MakeRunnable(s, k), r, ws)
    requires all == ws[s.procs[k].queue := [k] + ws[s.procs[k].queue]]
    ensures JoinedBy(s, r, all)
  {
    var l := s.procs[k].queue;
    assert s.qs[l] + [k] + ws[l] == s.qs[l] + ([k] + ws[l]);
  }

  lemma WokenFirst(s: State, r: State, chan: nat, k: nat)
    requires k < |s.procs| && s.procs[k].queue < 4 && SleepsOn(s.procs[k], chan)
    requires WokenProcs(MakeRunnable(s, k), r, chan, k + 1)
    ensures WokenProcs(s, r, chan, k)
  {
  }

  lemma WokenOne(s: State, r: State, chan: nat, k: nat, more: Queues) returns (ws: Queues)
    requires CanWake(s, k, chan) && WokenProcs(DoWake(s, k, chan), r, chan, k + 1)
    requires JoinedBy(DoWake(s, k, chan), r, more) && AllSleepers(DoWake(s, k, chan), chan, k + 1, more)
    ensures WokenProcs(s, r, chan, k) && JoinedBy(s, r, ws) && AllSleepers(s, chan, k, ws)
  {
    if SleepsOn(s.procs[k], chan) {
      ws := more[s.procs[k].queue := [k] + more[s.procs[k].queue]];
      WokenHere(s, chan, k, more, ws);
      JoinedFirst(s, r, k, more, ws);
      WokenFirst(s, r, chan, k);
    } else {
      ws := more;
      NotWokenHere(s, chan, k, ws);
    }
  }

  lemma WokenNone(s: State, chan: nat) returns (ws: Queues)
    ensures var k := |s.procs|; WokenProcs(s, s, chan, k) && JoinedBy(s, s, ws) && AllSleepers(s, chan, k, ws)
  {
    ws := [[], [], [], []];
  }

  /** Wakeup makes exactly the sleepers on the channel runnable; they join the queues of
      their levels at the end, in table order. */
  lemma {:induction false} WakeIs(s: State, chan: nat, k: nat) returns (ws: Queues)
    requires Good(s) && k <= |s.procs|
    ensures WokenProcs(s, WakeFrom(s, chan, k), chan, k) && JoinedBy(s, WakeFrom(s, chan, k), ws)
    ensures AllSleepers(s, chan, k, ws)
    decreases |s.procs| - k
  {
    if k == |s.procs| {
      ws := WokenNone(s, chan);
    } else {
      WakeOneGood(s, chan, k);
      var more := WakeIs(DoWake(s, k, chan), chan, k + 1);
      ws := WokenOne(s, WakeFrom(s, chan, k), chan, k, more);
    }
  }

  // ----- runs -----

  /** The tick after `t` does not boost. */
  predicate NoBoost(t: nat) { (t + 1) % 0x1_0000_0000 % 48 != 0 }

  /** An event that neither boosts, nor puts `p` to sleep, nor ends it. */
  ghost predicate Calm(u: Uni, e: U.Event, p: Pid) {
    && (IsTick(e) ==> NoBoost(u.ticks))
    && (Current(u.s) == Some(p) ==> !e.Block? && !e.Exit? && !e.KilledTick?)
  }

  ghost predicate CalmRun(u: Uni, es: seq<U.Event>, p: Pid)
    requires U.CanRun(u, es)
    decreases |es|
  {
    es == [] || (Calm(u, es[0], p) && CalmRun(U.Do(u, es[0]), es[1..], p))
  }

  /** A timer tick that interrupts `p`. */
  ghost predicate Charges(u: Uni, e: U.Event, p: Pid) { e.Tick? && Current(u.s) == Some(p) }

  ghost function TicksOf(u: Uni, es: seq<U.Event>, p: Pid): nat
    requires U.CanRun(u, es)
    decreases |es|
  {
    if es == [] then 0 else (if Charges(u, es[0], p) then 1 else 0) + TicksOf(U.Do(u, es[0]), es[1..], p)
  }

  lemma ClockPlace(u: Uni, p: Pid)
    requires UniInv(u) && Ready(u.s, p) && NoBoost(u.ticks)
    ensures var b := ClockInterrupt(u).s; |b.procs| == |u.s.procs| && b.procs[p] == u.s.procs[p] && b.harts == u.s.harts
  {
    var ws := WakeIs(u.s, TICKS_CHAN, 0);
    ClockGood(u);
  }

  lemma TickPlace(u: Uni, p: Pid)
    requires UniInv(u) && Ready(u.s, p) && NoBoost(u.ticks)
    ensures var r := TimerInterrupt(u).s;
            && |r.procs| == |u.s.procs| && Ready(r, p)
            && if Current(u.s) == Some(p) then OneTick(u.s.procs[p], r.procs[p]) else r.procs[p] == u.s.procs[p]
  {
    ClockPlace(u, p);
    ClockGood(u);
    var b := ClockInterrupt(u).s;
    if b.harts[0].Run? {
      assert Running(b, b.harts[0].p);
      YieldPlace(b, b.harts[0].p);
    }
  }

  lemma KilledPlace(u: Uni, p: Pid)
    requires UniInv(u) && U.Enabled(u, KilledTick) && Ready(u.s, p) && NoBoost(u.ticks) && Current(u.s) != Some(p)
    ensures var r := KilledInterrupt(u).s; |r.procs| == |u.s.procs| && r.procs[p] == u.s.procs[p]
  {
    ClockPlace(u, p);
  }

  /** One event: a tick charged to `p` counts, nothing else moves it. */
  lemma StepPlace(u: Uni, e: U.Event, p: Pid)
    requires UniInv(u) && U.Enabled(u, e) && Ready(u.s, p) && Calm(u, e, p)
    ensures var r := U.Do(u, e).s;
            && |r.procs| == |u.s.procs| && Ready(r, p)
            && if Charges(u, e, p) then OneTick(u.s.procs[p], r.procs[p]) else SamePlace(u.s.procs[p], r.procs[p])
  {
    match e
    case Tick => TickPlace(u, p);
    case KilledTick => KilledPlace(u, p);
    case Dispatch => DispatchPlace(u.s, p);
    case WakeAll(chan) => var ws := WakeIs(u.s, chan, 0);
    case _ => OtherPlace(u, e, p);
  }

  lemma DispatchPlace(s: State, p: Pid)
    requires Good(s) && s.harts[0] == Scan(0) && (exists l :: 0 <= l < 4 && s.qs[l] != []) && Ready(s, p)
    ensures var r := Schedule(s); |r.procs| == |s.procs| && Ready(r, p) && SamePlace(s.procs[p], r.procs[p])
  {
    ScheduleGood(s);
  }

  lemma OtherPlace(u: Uni, e: U.Event, p: Pid)
    requires UniInv(u) && U.Enabled(u, e) && Ready(u.s, p) && Calm(u, e, p)
    requires !IsTick(e) && !e.Dispatch? && !e.WakeAll?
    ensures var r := U.Do(u, e).s; |r.procs| == |u.s.procs| && Ready(r, p) && SamePlace(u.s.procs[p], r.procs[p])
  {
  }

  lemma NextPlace(c: nat, x: Proc, y: Proc)
    requires PlaceAfter(c, x) && OneTick(x, y)
    ensures PlaceAfter(c + 1, y)
  {
  }

  /** `p` has the place of a process that has used `c` ticks. */
  ghost predicate Used(s: State, p: Pid, c: nat) { Ready(s, p) && PlaceAfter(c, s.procs[p]) }

  lemma StepUsed(u: Uni, e: U.Event, p: Pid, c: nat)
    requires UniInv(u) && U.Enabled(u, e) && Calm(u, e, p) && Used(u.s, p, c)
    ensures UniInv(U.Do(u, e)) && Used(U.Do(u, e).s, p, if Charges(u, e, p) then c + 1 else c)
  {
    StepGood(u, e);
    StepPlace(u, e, p);
    if Charges(u, e, p) { NextPlace(c, u.s.procs[p], U.Do(u, e).s.procs[p]); }
  }

  /** In every run without a boost, in which `p` neither sleeps nor exits, its place is a
      function of the ticks that interrupted it: after 1 at level 0 it is at level 1, after 4
      more at level 2, after 8 more at level 3, where every 16 give it a fresh slice; and it
      moves at no other time, whatever preemptions, wakeups, forks and exits of others
      happen. */
  lemma {:induction false} PlaceInRun(u: Uni, es: seq<U.Event>, p: Pid, c: nat)
    requires UniInv(u) && U.CanRun(u, es) && CalmRun(u, es, p) && Used(u.s, p, c)
    ensures Used(U.RunAll(u, es).s, p, c + TicksOf(u, es, p))
    decreases |es|
  {
    if es != [] {
      StepUsed(u, es[0], p, c);
      PlaceInRun(U.Do(u, es[0]), es[1..], p, if Charges(u, es[0], p) then c + 1 else c);
    }
  }

  /** `c` ticks after a fresh slice at level `l` that lasts `n`. */
  ghost predicate After(y: Proc, l: nat, n: nat, next: nat, c: nat) {
    && (c < n ==> y.queue == l && y.ticks == c)
    && (c == n ==> y.queue == next && y.ticks == 0)
  }

  lemma PlaceReads(y: Proc, c: nat)
    ensures PlaceAfter(c, y) ==> After(y, 0, 1, 1, c)
    ensures PlaceAfter(1 + c, y) ==> After(y, 1, 4, 2, c)
    ensures PlaceAfter(5 + c, y) ==> After(y, 2, 8, 3, c)
    ensures PlaceAfter(13 + c, y) ==> After(y, 3, 16, 3, c)
  {
  }

  /** Level by level, from a fresh slice: fewer ticks leave the level as it is, and the 1st,
      4th, 8th or 16th brings the next slice. */
  lemma SliceInRun(u: Uni, es: seq<U.Event>, p: Pid)
    requires UniInv(u) && U.CanRun(u, es) && Ready(u.s, p) && CalmRun(u, es, p) && u.s.procs[p].ticks == 0
    ensures var l, c, r := u.s.procs[p].queue, TicksOf(u, es, p), U.RunAll(u, es).s;
            && p < |r.procs|
            && (l == 0 ==> After(r.procs[p], 0, 1, 1, c))
            && (l == 1 ==> After(r.procs[p], 1, 4, 2, c))
            && (l == 2 ==> After(r.procs[p], 2, 8, 3, c))
            && (l == 3 ==> After(r.procs[p], 3, 16, 3, c))
  {
    var l := u.s.procs[p].queue;
    PlaceInRun(u, es, p, if l == 0 then 0 else if l == 1 then 1 else if l == 2 then 5 else 13);
    PlaceReads(U.RunAll(u, es).s.procs[p], TicksOf(u, es, p));
  }

  /** The last tick of a slice sends the process to the end of the queue of its next level. */
  lemma SliceEnds(u: Uni, p: Pid)
    requires UniInv(u) && Current(u.s) == Some(p) && NoBoost(u.ticks) && p < |u.s.procs| && LastTick(u.s.procs[p])
    ensures var r, l := U.Do(u, Tick).s, u.s.procs[p].queue;
            var next := if l < 3 then l + 1 else 3;
            && r.harts == [Scan(0)] && p < |r.procs| && r.procs[p].state == RUNNABLE
            && r.procs[p].queue == next && r.procs[p].ticks == 0 && r.qs[next] != []
            && r.qs[next][|r.qs[next]| - 1] == p
  {
    ClockPlace(u, p);
    ClockGood(u);
    YieldPlace(ClockInterrupt(u).s, p);
  }
}
