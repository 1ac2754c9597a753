/** Whole runs of many processes that fork, grow, shrink and use their memory: what they
    observe does not depend on which calls of sbrk were lazy. */
module ProcRuns {
  import opened Options
  import opened PageTable
  import opened AddressSpace
  import opened Vm
  import opened UserMemory
  import opened LazyMemory
  import opened ProcTable
  import LE = LazyEager

  type Mems = map<nat, Memory>

  const NOMEMORY: Memory := Memory(0, [])

  /** What each process can observe of its memory. */
  ghost function MemsOf(procs: map<nat, Proc>, spaces: map<Ppn, Space>): Mems {
    map i | i in procs :: if procs[i].root in spaces then MemoryOf(spaces[procs[i].root], procs[i].sz) else NOMEMORY
  }

  ghost predicate GoodMems(t: Mems) { forall i :: i in t ==> GoodImage(t[i]) }

  ghost predicate Applies(t: Mems, e: Event) {
    match e
    case Alloc(i) => i !in t
    case ForkTo(i, j) => i in t && j !in t
    case Free(i) => i in t
    case Call(i, op, _) => i in t && LE.OpOk(op)
  }

  /** The meaning of an event; it does not look at `lazy`. */
  ghost function AbsEvent(t: Mems, e: Event): (u: Mems)
    requires GoodMems(t)
    ensures GoodMems(u)
  {
    if !Applies(t, e) then t
    else match e
      case Alloc(i) => t[i := NOMEMORY]
      case ForkTo(i, j) => t[j := t[i]]
      case Free(i) => t - {i}
      case Call(i, op, _) => t[i := LE.AbsStep(t[i], op)]
  }

  ghost function AbsResult(t: Mems, e: Event): Option<LE.Res>
    requires GoodMems(t)
  {
    if e.Call? && Applies(t, e) then Some(LE.AbsRes(t[e.i], e.op)) else None
  }

  /** User accesses keep off the unused rest of the last page. */
  ghost predicate ClearEvent(t: Mems, e: Event) {
    e.Call? && Applies(t, e) ==> LE.Clear(t[e.i], e.op)
  }

  /** As many free pages as an event can use up. */
  ghost function EventCost(t: Mems, e: Event): nat {
    if !Applies(t, e) then 0
    else match e
      case Alloc(_) => 6
      case ForkTo(i, _) => 6 + 3 * Pages(t[i].sz)
      case Free(_) => 0
      case Call(_, op, _) => LE.Cost(op)
  }

  ghost function AbsAll(t: Mems, es: seq<Event>): Mems
    requires GoodMems(t)
    decreases |es|
  {
    if es == [] then t else AbsAll(AbsEvent(t, es[0]), es[1..])
  }

  ghost function AbsResults(t: Mems, es: seq<Event>): seq<Option<LE.Res>>
    requires GoodMems(t)
    decreases |es|
  {
    if es == [] then [] else [AbsResult(t, es[0])] + AbsResults(AbsEvent(t, es[0]), es[1..])
  }

  ghost predicate ClearAll(t: Mems, es: seq<Event>)
    requires GoodMems(t)
    decreases |es|
  {
    es == [] || (ClearEvent(t, es[0]) && ClearAll(AbsEvent(t, es[0]), es[1..]))
  }

  ghost function AllCosts(t: Mems, es: seq<Event>): nat
    requires GoodMems(t)
    decreases |es|
  {
    if es == [] then 0 else EventCost(t, es[0]) + AllCosts(AbsEvent(t, es[0]), es[1..])
  }

  // ----- what the operations do to the memories -----

  lemma MemsGood(procs: map<nat, Proc>, a: View, tramp: Ppn)
    requires TableOk(procs, a, tramp)
    ensures GoodMems(MemsOf(procs, a.spaces))
    ensures forall i :: i in procs ==> procs[i].root in a.spaces && MemsOf(procs, a.spaces)[i].sz == procs[i].sz
  {
    forall i | i in procs
      ensures procs[i].root in a.spaces && GoodImage(MemsOf(procs, a.spaces)[i])
    {
      assert SlotOk(procs[i], a, tramp);
      PagesBelowTop(procs[i].sz);
    }
  }

  lemma MemsAdded(procs: map<nat, Proc>, spaces: map<Ppn, Space>, i: nat, p: Proc, s: Space)
    requires i !in procs && p.root !in spaces && forall j :: j in procs ==> procs[j].root in spaces
    ensures MemsOf(procs[i := p], spaces[p.root := s]) == MemsOf(procs, spaces)[i := MemoryOf(s, p.sz)]
  {
  }

  lemma MemsDropped(procs: map<nat, Proc>, spaces: map<Ppn, Space>, i: nat)
    requires i in procs && Distinct(procs)
    ensures MemsOf(procs - {i}, spaces - {procs[i].root}) == MemsOf(procs, spaces) - {i}
  {
  }

  lemma MemsChanged(procs: map<nat, Proc>, spaces: map<Ppn, Space>, i: nat, p: Proc, s: Space)
    requires i in procs && Distinct(procs) && p.root == procs[i].root && p.root in spaces
    ensures MemsOf(procs[i := p], spaces[p.root := s]) == MemsOf(procs, spaces)[i := MemoryOf(s, p.sz)]
  {
  }

  /** What an event has to achieve: the memories `t` become `u` as it says, unless memory
      runs out, which takes fewer free pages than the event may need. */
  ghost predicate Handled(t: Mems, e: Event, u: Mems, r: Option<LE.Res>, oom: bool, before: nat, after: nat) {
    && GoodMems(t)
    && (!oom && ClearEvent(t, e) ==> u == AbsEvent(t, e) && r == AbsResult(t, e))
    && (oom ==> before < EventCost(t, e))
    && (!oom ==> after + EventCost(t, e) >= before)
  }

  method HandleAlloc(p: Procs, i: nat) returns (ghost oom: bool)
    requires p.Valid()
    modifies p, p.k
    ensures p.Valid() && p.view.all == old(p.view.all)
    ensures Handled(old(MemsOf(p.procs, p.view.spaces)), Alloc(i), MemsOf(p.procs, p.view.spaces), None, oom,
        |old(p.k.free)|, |p.k.free|)
  {
    MemsGood(p.procs, p.view, p.tramp);
    ghost var was, s := p.procs, p.view.spaces;
    oom := false;
    if i !in p.procs {
      var ok := p.Allocproc(i);
      oom := !ok;
      if ok {
        MemsAdded(was, s, i, p.procs[i], map[]);
        EmptyMemory();
      }
    }
  }

  method HandleFork(p: Procs, i: nat, j: nat) returns (ghost oom: bool)
    requires p.Valid()
    modifies p, p.k
    ensures p.Valid() && p.view.all == old(p.view.all)
    ensures Handled(old(MemsOf(p.procs, p.view.spaces)), ForkTo(i, j), MemsOf(p.procs, p.view.spaces), None, oom,
        |old(p.k.free)|, |p.k.free|)
  {
    MemsGood(p.procs, p.view, p.tramp);
    ghost var was, s := p.procs, p.view.spaces;
    oom := false;
    if i in p.procs && j !in p.procs {
      var ok := p.Fork(i, j);
      oom := !ok;
      if ok { MemsAdded(was, s, j, p.procs[j], s[was[i].root]); }
    }
  }

  method HandleFree(p: Procs, i: nat)
    requires p.Valid()
    modifies p, p.k
    ensures p.Valid() && p.view.all == old(p.view.all)
    ensures Handled(old(MemsOf(p.procs, p.view.spaces)), Event.Free(i), MemsOf(p.procs, p.view.spaces), None, false,
        |old(p.k.free)|, |p.k.free|)
  {
    MemsGood(p.procs, p.view, p.tramp);
    ghost var was, s := p.procs, p.view.spaces;
    if i in p.procs {
      p.Freeproc(i);
      MemsDropped(was, s, i);
    }
  }

  method HandleCall(p: Procs, i: nat, op: LE.Op, lazy: bool) returns (r: Option<LE.Res>, ghost oom: bool)
    requires p.Valid()
    modifies p, p.k
    ensures p.Valid() && p.view.all == old(p.view.all)
    ensures Handled(old(MemsOf(p.procs, p.view.spaces)), Call(i, op, lazy), MemsOf(p.procs, p.view.spaces), r, oom,
        |old(p.k.free)|, |p.k.free|)
  {
    MemsGood(p.procs, p.view, p.tramp);
    ghost var was, s := p.procs, p.view.spaces;
    r, oom := None, false;
    if i in p.procs && LE.OpOk(op) {
      var x;
      x, oom := p.Do(i, op, lazy);
      r := Some(x);
      MemsChanged(was, s, i, p.procs[i], p.view.spaces[p.procs[i].root]);
    }
  }

  /** One event: as the observable memories say, unless memory runs out. */
  method Handle(p: Procs, e: Event) returns (r: Option<LE.Res>, ghost oom: bool)
    requires p.Valid()
    modifies p, p.k
    ensures p.Valid() && p.view.all == old(p.view.all)
    ensures Handled(old(MemsOf(p.procs, p.view.spaces)), e, MemsOf(p.procs, p.view.spaces), r, oom, |old(p.k.free)|,
        |p.k.free|)
  {
    r, oom := None, false;
    match e
    case Alloc(i) => oom := HandleAlloc(p, i);
    case ForkTo(i, j) => oom := HandleFork(p, i, j);
    case Free(i) => HandleFree(p, i);
    case Call(i, op, lazy) => r, oom := HandleCall(p, i, op, lazy);
  }

  lemma EmptyMemory()
    ensures MemoryOf(map[], 0) == NOMEMORY
  {
  }

  /** The memories after `i` events, and the results so far. */
  ghost predicate Going(t: Mems, es: seq<Event>, u: Mems, i: nat, rs: seq<Option<LE.Res>>)
    requires GoodMems(t)
  {
    && i <= |es| && GoodMems(u) && ClearAll(u, es[i..])
    && AbsAll(t, es) == AbsAll(u, es[i..]) && AbsResults(t, es) == rs + AbsResults(u, es[i..])
  }

  /** A run from `t` with `free0` free pages, after `i` events. */
  ghost predicate OnTrack(t: Mems, es: seq<Event>, u: Mems, i: nat, rs: seq<Option<LE.Res>>, oom: bool, free0: nat,
                          free: nat) {
    && GoodMems(t) && GoodMems(u) && i <= |es|
    && (!oom && ClearAll(t, es) ==> Going(t, es, u, i, rs))
    && (ClearAll(t, es) && free0 >= AllCosts(t, es) ==> !oom && free >= AllCosts(u, es[i..]))
  }

  lemma OnTrackNext(t: Mems, es: seq<Event>, u: Mems, i: nat, rs: seq<Option<LE.Res>>, oom: bool, free0: nat, free: nat,
                    v: Mems, r: Option<LE.Res>, o: bool, after: nat)
    requires OnTrack(t, es, u, i, rs, oom, free0, free) && i < |es| && Handled(u, es[i], v, r, o, free, after)
             && GoodMems(v)
    ensures OnTrack(t, es, v, i + 1, rs + [r], oom || o, free0, after)
  {
    assert es[i..][1..] == es[i + 1..];
    if ClearAll(t, es) && !oom {
      var rest := AbsResults(AbsEvent(u, es[i]), es[i + 1..]);
      assert rs + ([AbsResult(u, es[i])] + rest) == rs + [AbsResult(u, es[i])] + rest;
    }
  }

  lemma OnTrackStart(t: Mems, es: seq<Event>, free: nat)
    requires GoodMems(t)
    ensures OnTrack(t, es, t, 0, [], false, free, free)
  {
    assert es[0..] == es;
    assert [] + AbsResults(t, es) == AbsResults(t, es);
  }

  lemma OnTrackEnd(t: Mems, es: seq<Event>, u: Mems, rs: seq<Option<LE.Res>>, oom: bool, free0: nat, free: nat)
    requires OnTrack(t, es, u, |es|, rs, oom, free0, free)
    ensures !oom && ClearAll(t, es) ==> u == AbsAll(t, es) && rs == AbsResults(t, es)
    ensures ClearAll(t, es) && free0 >= AllCosts(t, es) ==> !oom
  {
    assert es[|es|..] == [] && rs + [] == rs;
  }

  /** Any run of any processes, with any choice of lazy and eager calls, is the run of the
      observable memories, given enough memory. In any case pages are neither lost nor
      shared, and once no process is left all of them are free. */
  method RunAll(p: Procs, es: seq<Event>) returns (rs: seq<Option<LE.Res>>, ghost oom: bool)
    requires p.Valid()
    modifies p, p.k
    ensures p.Valid() && p.view.all == old(p.view.all)
    ensures var t := old(MemsOf(p.procs, p.view.spaces));
            && GoodMems(t)
            && (!oom && ClearAll(t, es) ==> MemsOf(p.procs, p.view.spaces) == AbsAll(t, es) && rs == AbsResults(t, es))
            && (ClearAll(t, es) && |old(p.k.free)| >= AllCosts(t, es) ==> !oom)
    ensures p.procs == map[] ==> |p.k.free| == |p.view.all| && forall q :: q in p.view.all ==> q in p.k.free
  {
    MemsGood(p.procs, p.view, p.tramp);
    ghost var t := MemsOf(p.procs, p.view.spaces);
    OnTrackStart(t, es, |p.k.free|);
    rs, oom := [], false;
    for i := 0 to |es|
      invariant p.Valid() && p.view.all == old(p.view.all)
      invariant OnTrack(t, es, MemsOf(p.procs, p.view.spaces), i, rs, oom, |old(p.k.free)|, |p.k.free|)
    {
      ghost var u, free := MemsOf(p.procs, p.view.spaces), |p.k.free|;
      var r;
      ghost var o;
      r, o := Handle(p, es[i]);
      MemsGood(p.procs, p.view, p.tramp);
      OnTrackNext(t, es, u, i, rs, oom, |old(p.k.free)|, free, MemsOf(p.procs, p.view.spaces), r, o, |p.k.free|);
      oom := oom || o;
      rs := rs + [r];
    }
    OnTrackEnd(t, es, MemsOf(p.procs, p.view.spaces), rs, oom, |old(p.k.free)|, |p.k.free|);
    if p.procs == map[] { NothingLeaks(p.k.M(), p.view, p.tramp); }
  }

  /** The same events, but for the choice of lazy and eager calls. */
  ghost predicate SameButLazy(es: seq<Event>, fs: seq<Event>) {
    |es| == |fs| && forall i :: 0 <= i < |es| ==> Plain(es[i]) == Plain(fs[i])
  }

  function Plain(e: Event): Event { if e.Call? then e.(lazy := false) else e }

  lemma {:induction false} SameMeaning(t: Mems, es: seq<Event>, fs: seq<Event>)
    requires GoodMems(t) && SameButLazy(es, fs)
    ensures AbsAll(t, es) == AbsAll(t, fs) && AbsResults(t, es) == AbsResults(t, fs)
    ensures ClearAll(t, es) <==> ClearAll(t, fs)
    ensures AllCosts(t, es) == AllCosts(t, fs)
    decreases |es|
  {
    if es != [] {
      assert Plain(es[0]) == Plain(fs[0]);
      SameMeaning(AbsEvent(t, es[0]), es[1..], fs[1..]);
    }
  }

  /** Lazy growth is not observable: two systems whose processes observe the same memories
      and do the same things, lazily or not, keep observing the same. */
  method LazyIsEager(p: Procs, q: Procs, es: seq<Event>, fs: seq<Event>)
    returns (rp: seq<Option<LE.Res>>, rq: seq<Option<LE.Res>>)
    requires p.Valid() && q.Valid() && p != q && p.k != q.k && SameButLazy(es, fs)
    requires MemsOf(p.procs, p.view.spaces) == MemsOf(q.procs, q.view.spaces)
    modifies p, q, p.k, q.k
    ensures p.Valid() && q.Valid()
    ensures var t := old(MemsOf(p.procs, p.view.spaces));
            && GoodMems(t)
            && (ClearAll(t, es) && |old(p.k.free)| >= AllCosts(t, es) && |old(q.k.free)| >= AllCosts(t, es) ==>
                  rp == rq && MemsOf(p.procs, p.view.spaces) == MemsOf(q.procs, q.view.spaces))
  {
    MemsGood(p.procs, p.view, p.tramp);
    SameMeaning(MemsOf(p.procs, p.view.spaces), es, fs);
    ghost var op, oq;
    rp, op := RunAll(p, es);
    rq, oq := RunAll(q, fs);
  }
}
