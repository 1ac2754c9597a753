/** All processes on one machine (xv6/kernel/proc.c): allocproc, fork, freeproc and
    the memory system calls. Every page is free or belongs to exactly one process,
    in every reachable state, and nothing is left over when the processes are gone. */
module ProcTable {
  import opened Options
  import opened PageTable
  import opened AddressSpace
  import opened Vm
  import opened UserMemory
  import opened ProcMemory
  import opened LazyMemory
  import LE = LazyEager

  datatype Proc = Proc(root: Ppn, frame: Ppn, sz: nat)

  ghost function RootsOf(procs: map<nat, Proc>): set<Ppn> {
    set i | i in procs :: procs[i].root
  }

  ghost function FramesOf(procs: map<nat, Proc>): set<Ppn> {
    set i | i in procs :: procs[i].frame
  }

  ghost predicate Distinct(procs: map<nat, Proc>) {
    forall i, j :: i in procs && j in procs && i != j ==>
      procs[i].root != procs[j].root && procs[i].frame != procs[j].frame
  }

  ghost predicate SlotOk(p: Proc, a: View, tramp: Ppn) {
    ProcOk(a, p.root, p.sz) && p.root in a.system && a.system[p.root] == SystemPair(tramp, p.frame)
  }

  /** Address spaces and trapframes are those of the processes, and no page is in
      hand. */
  ghost predicate TableOk(procs: map<nat, Proc>, a: View, tramp: Ppn) {
    && a.hands == {} && a.spaces.Keys == RootsOf(procs) && a.frames == FramesOf(procs)
    && Distinct(procs)
    && forall i :: i in procs ==> SlotOk(procs[i], a, tramp)
  }

  // ---------------------------------------------------------------------------
  // Every page is accounted for
  // ---------------------------------------------------------------------------

  /** A page that is not free belongs to a process: as its trapframe, as part of its
      page table, or as a page of its memory. */
  lemma NoPageIsLost(m: Mem, a: View, procs: map<nat, Proc>, tramp: Ppn, q: Ppn)
    requires Rep(m, a) && TableOk(procs, a, tramp) && q in a.all && q !in m.free
    ensures exists i :: i in procs && Belongs(m, procs[i], q)
  {
    assert PageOk(m, q);
    assert q !in Hands(m);
    if m.owner[q].Frame? {
      assert q in FramesOf(procs);
    } else {
      OwnedByRoot(m, q);
      var r := if m.owner[q].Root? then q else m.owner[q].root;
      assert RootRep(m, a, r);
      assert r in RootsOf(procs);
    }
  }

  ghost predicate Belongs(m: Mem, p: Proc, q: Ppn) {
    q in m.owner && (q == p.frame || q == p.root || (m.owner[q].Mid? && m.owner[q].root == p.root)
                     || (m.owner[q].Low? && m.owner[q].root == p.root)
                        || (m.owner[q].User? && m.owner[q].root == p.root))
  }

  lemma OwnedByRoot(m: Mem, q: Ppn)
    requires MemInv(m) && q in m.owner && !m.owner[q].Free? && !m.owner[q].Hand? && !m.owner[q].Frame?
    ensures m.owner[q].Root? || Owned(m, m.owner[q].root, Root)
  {
    assert PageOk(m, q);
    if m.owner[q].Low? {
      LowPath(m, q);
    } else if m.owner[q].User? {
      UserAt(m, q);
    }
  }

  /** And to one process only. */
  lemma OneOwner(m: Mem, a: View, procs: map<nat, Proc>, tramp: Ppn, i: nat, j: nat, q: Ppn)
    requires Rep(m, a) && TableOk(procs, a, tramp) && i in procs && j in procs
    requires Belongs(m, procs[i], q) && Belongs(m, procs[j], q)
    ensures i == j && q !in m.free
  {
    assert RootRep(m, a, procs[i].root) && RootRep(m, a, procs[j].root);
    assert procs[i].frame in a.frames && procs[j].frame in a.frames;
    assert !m.owner[q].Free?;
  }

  /** With no process left, all memory is on the free list, once. */
  lemma NothingLeaks(m: Mem, a: View, tramp: Ppn)
    requires Rep(m, a) && TableOk(map[], a, tramp)
    ensures forall q :: q in a.all <==> q in m.free
    ensures |m.free| == |a.all|
  {
    forall q | q in a.all
      ensures q in m.free
    {
      if q !in m.free {
        NoPageIsLost(m, a, map[], tramp, q);
      }
    }
    Counted(m.free, a.all);
  }

  lemma {:induction false} Counted(s: seq<Ppn>, t: set<Ppn>)
    requires (forall i, j :: 0 <= i < j < |s| ==> s[i] != s[j]) && (forall q :: q in t <==> q in s)
    ensures |s| == |t|
  {
    if s == [] {
      assert t == {};
    } else {
      var r := s[1..];
      assert s == [s[0]] + r;
      Counted(r, t - {s[0]});
    }
  }

  // ---------------------------------------------------------------------------
  // Changes of the table
  // ---------------------------------------------------------------------------

  lemma TableAdd(procs: map<nat, Proc>, a: View, tramp: Ppn, i: nat, p: Proc)
    requires TableOk(procs, a, tramp) && i !in procs && p.root !in a.spaces && p.frame !in a.frames && p.sz == 0
    ensures TableOk(procs[i := p], Added(a, p.root, SystemPair(tramp, p.frame)).(frames := a.frames + {p.frame}), tramp)
  {
    AddedSets(procs, i, p);
    AddedDistinct(procs, a, tramp, i, p);
    AddedSlots(procs, procs[i := p], a, tramp, i, p);
  }

  lemma AddedDistinct(procs: map<nat, Proc>, a: View, tramp: Ppn, i: nat, p: Proc)
    requires TableOk(procs, a, tramp) && i !in procs && p.root !in a.spaces && p.frame !in a.frames
    ensures Distinct(procs[i := p])
  {
    assert forall j :: j in procs ==> procs[j].root in RootsOf(procs) && procs[j].frame in FramesOf(procs);
  }

  lemma AddedSlots(procs: map<nat, Proc>, n: map<nat, Proc>, a: View, tramp: Ppn, i: nat, p: Proc)
    requires TableOk(procs, a, tramp) && i !in procs && p.root !in a.spaces && p.sz == 0 && n == procs[i := p]
    ensures var b := Added(a, p.root, SystemPair(tramp, p.frame)).(frames := a.frames + {p.frame});
            forall j :: j in n ==> SlotOk(n[j], b, tramp)
  {
    var b := Added(a, p.root, SystemPair(tramp, p.frame)).(frames := a.frames + {p.frame});
    forall j | j in n
      ensures SlotOk(n[j], b, tramp)
    {
      if j != i {
        SlotStays(procs[j], a, tramp, p);
      }
    }
  }

  lemma SlotStays(q: Proc, a: View, tramp: Ppn, p: Proc)
    requires SlotOk(q, a, tramp) && p.root !in a.spaces
    ensures SlotOk(q, Added(a, p.root, SystemPair(tramp, p.frame)).(frames := a.frames + {p.frame}), tramp)
  {
  }

  lemma AddedSets(procs: map<nat, Proc>, i: nat, p: Proc)
    requires i !in procs
    ensures RootsOf(procs[i := p]) == RootsOf(procs) + {p.root}
    ensures FramesOf(procs[i := p]) == FramesOf(procs) + {p.frame}
  {
    var n := procs[i := p];
    assert n[i] == p;
    forall r | r in RootsOf(procs)
      ensures r in RootsOf(n)
    {
      var j :| j in procs && procs[j].root == r;
      assert n[j].root == r;
    }
    forall r | r in FramesOf(procs)
      ensures r in FramesOf(n)
    {
      var j :| j in procs && procs[j].frame == r;
      assert n[j].frame == r;
    }
  }

  lemma AddThenDrop<K, V>(m: map<K, V>, k: K, v: V)
    requires k !in m
    ensures m[k := v] - {k} == m
  {
  }

  lemma AddTwice<K, V>(m: map<K, V>, k: K, v: V, w: V)
    ensures m[k := v][k := w] == m[k := w]
  {
  }

  lemma TableDrop(procs: map<nat, Proc>, a: View, tramp: Ppn, i: nat)
    requires TableOk(procs, a, tramp) && i in procs
    ensures TableOk(procs - {i}, Removed(a, procs[i].root).(frames := a.frames - {procs[i].frame}), tramp)
  {
    var n := procs - {i};
    var b := Removed(a, procs[i].root).(frames := a.frames - {procs[i].frame});
    DroppedSets(procs, i);
    forall j | j in n
      ensures SlotOk(n[j], b, tramp)
    {
      assert SlotOk(procs[j], a, tramp);
    }
  }

  lemma DroppedSets(procs: map<nat, Proc>, i: nat)
    requires Distinct(procs) && i in procs
    ensures RootsOf(procs - {i}) == RootsOf(procs) - {procs[i].root}
    ensures FramesOf(procs - {i}) == FramesOf(procs) - {procs[i].frame}
  {
    var n := procs - {i};
    forall r | r in RootsOf(procs) - {procs[i].root}
      ensures r in RootsOf(n)
    {
      var j :| j in procs && procs[j].root == r;
      assert n[j].root == r;
    }
    forall r | r in FramesOf(procs) - {procs[i].frame}
      ensures r in FramesOf(n)
    {
      var j :| j in procs && procs[j].frame == r;
      assert n[j].frame == r;
    }
  }

  lemma TableChange(procs: map<nat, Proc>, a: View, b: View, tramp: Ppn, i: nat, sz: nat)
    requires TableOk(procs, a, tramp) && i in procs && OnlySpace(a, b, procs[i].root) && ProcOk(b, procs[i].root, sz)
    ensures TableOk(procs[i := procs[i].(sz := sz)], b, tramp)
  {
    var n := procs[i := procs[i].(sz := sz)];
    forall j | j in procs
      ensures n[j].root == procs[j].root && n[j].frame == procs[j].frame
      ensures SlotOk(n[j], b, tramp)
    {
      assert SlotOk(procs[j], a, tramp);
    }
    assert RootsOf(n) == RootsOf(procs) && FramesOf(n) == FramesOf(procs);
    assert procs[i].root in RootsOf(procs);
    assert b.spaces.Keys == a.spaces.Keys;
  }

  // ---------------------------------------------------------------------------
  // Trapframes
  // ---------------------------------------------------------------------------

  lemma RepFrame(m: Mem, a: View, q: Ppn)
    requires Rep(m, a) && q in a.hands
    ensures Rep(SetLoose(m, q, Frame), a.(hands := a.hands - {q}, frames := a.frames + {q}))
  {
    SetLooseInv(m, q, Frame);
    LooseKeepsRoots(m, a, q, Frame);
    var n := SetLoose(m, q, Frame);
    assert Hands(n) == Hands(m) - {q} && Frames(n) == Frames(m) + {q};
    forall r: Ppn
      ensures RootRep(n, a.(hands := a.hands - {q}, frames := a.frames + {q}), r)
    {
      assert RootRep(n, a, r);
    }
  }

  lemma RepUnframe(m: Mem, a: View, q: Ppn)
    requires Rep(m, a) && q in a.frames
    ensures q in m.owner && Rep(SetLoose(m, q, Hand), a.(hands := a.hands + {q}, frames := a.frames - {q}))
  {
    SetLooseInv(m, q, Hand);
    LooseKeepsRoots(m, a, q, Hand);
    var n := SetLoose(m, q, Hand);
    assert Hands(n) == Hands(m) + {q} && Frames(n) == Frames(m) - {q};
    forall r: Ppn
      ensures RootRep(n, a.(hands := a.hands + {q}, frames := a.frames - {q}), r)
    {
      assert RootRep(n, a, r);
    }
  }

  lemma LooseKeepsRoots(m: Mem, a: View, q: Ppn, o: Owner)
    requires Rep(m, a) && q in m.owner && m.owner[q] in {Hand, Frame} && o in {Hand, Frame}
    ensures forall r: Ppn :: RootRep(SetLoose(m, q, o), a, r)
  {
    var n := SetLoose(m, q, o);
    assert forall y, k :: Entry(n, y, k) == Entry(m, y, k);
    forall r: Ppn
      ensures RootRep(n, a, r)
    {
      assert RootRep(m, a, r);
      SameEntriesLookup(m, n, r, PxOf(TRAMPOLINE));
      SameEntriesLookup(m, n, r, PxOf(TRAPFRAME));
      forall v: nat | v < TRAPFRAME
        ensures At(n, r, v) == At(m, r, v)
      {
        SameEntriesLookup(m, n, r, PxOf(v));
      }
    }
  }

  /** kalloc of a trapframe. */
  method TakeFrame(k: Machine, ghost a: View) returns (f: Option<Ppn>)
    requires Rep(k.M(), a)
    modifies k
    ensures f.None? ==> Rep(k.M(), a) && old(k.free) == []
    ensures f.Some? ==> f.value !in a.frames && Rep(k.M(), a.(frames := a.frames + {f.value}))
    ensures |k.free| + 1 >= |old(k.free)|
  {
    ghost var m := k.M();
    f := k.Kalloc();
    if f.Some? {
      RepTake(m, a);
      ghost var b := a.(hands := a.hands + {f.value});
      RepFrame(k.M(), b, f.value);
      k.owner := k.owner[f.value := Frame];
      assert k.M() == SetLoose(Take(m), f.value, Frame);
      assert b.(hands := b.hands - {f.value}, frames := b.frames + {f.value}) == a.(frames := a.frames + {f.value});
    }
  }

  /** kfree of a trapframe. */
  method GiveFrame(k: Machine, f: Ppn, ghost a: View)
    requires Rep(k.M(), a) && f in a.frames && f !in a.hands
    modifies k
    ensures Rep(k.M(), a.(frames := a.frames - {f})) && |k.free| >= |old(k.free)|
  {
    ghost var m := k.M();
    RepUnframe(m, a, f);
    ghost var b := a.(hands := a.hands + {f}, frames := a.frames - {f});
    k.owner := k.owner[f := Hand];
    assert k.M() == SetLoose(m, f, Hand);
    RepGive(k.M(), b, f);
    k.Kfree(f);
    assert b.(hands := b.hands - {f}) == a.(frames := a.frames - {f});
  }

  // ---------------------------------------------------------------------------
  // The processes
  // ---------------------------------------------------------------------------

  class Procs {
    const k: Machine
    const tramp: Ppn
    var procs: map<nat, Proc>
    ghost var view: View

    /** Boot: all memory free, no process. */
    constructor (npages: nat, tramp: Ppn)
      ensures Valid() && procs == map[] && fresh(k) && this.tramp == tramp
      ensures forall q: Ppn :: q in view.all <==> q < npages
    {
      var m := new Machine(npages);
      this.k := m;
      this.tramp := tramp;
      procs := map[];
      view := ViewOf(m.M());
      new;
      RepIs(k.M(), view);
      assert view.spaces == map[] && view.hands == {} && view.frames == {};
    }

    ghost predicate Valid()
      reads this, k
    {
      Rep(k.M(), view) && TableOk(procs, view, tramp)
    }

    /** allocproc for the unused slot `i`. */
    method Allocproc(i: nat) returns (ok: bool)
      requires Valid() && i !in procs
      modifies this, k
      ensures Valid() && view.all == old(view.all)
      ensures !ok ==> procs == old(procs) && view == old(view) && |old(k.free)| <= 5
      ensures ok ==> i in procs && procs == old(procs)[i := procs[i]] && procs[i].sz == 0
      ensures ok ==> procs[i].root !in old(view).spaces && view.spaces == old(view).spaces[procs[i].root := map[]]
      ensures ok ==> |k.free| + 6 >= |old(k.free)|
    {
      ghost var a := view;
      var f := TakeFrame(k, a);
      if f.None? {
        return false;
      }
      ghost var b := a.(frames := a.frames + {f.value});
      var r := ProcPagetable(k, tramp, f.value, b);
      if r.None? {
        GiveFrame(k, f.value, b);
        assert b.(frames := b.frames - {f.value}) == a;
        return false;
      }
      var p := Proc(r.value, f.value, 0);
      TableAdd(procs, a, tramp, i, p);
      procs := procs[i := p];
      view := Added(b, r.value, SystemPair(tramp, f.value));
      assert view == Added(a, r.value, SystemPair(tramp, f.value)).(frames := a.frames + {f.value});
      ok := true;
    }

    /** freeproc. */
    method Freeproc(i: nat)
      requires Valid() && i in procs
      modifies this, k
      ensures Valid() && procs == old(procs) - {i} && view.all == old(view.all)
      ensures view.spaces == old(view).spaces - {old(procs)[i].root} && |k.free| >= |old(k.free)|
    {
      var p := procs[i];
      ghost var a := view;
      assert SlotOk(p, a, tramp);
      PagesBelowTop(p.sz);
      assert p.frame in FramesOf(procs);
      GiveFrame(k, p.frame, a);
      ghost var b := a.(frames := a.frames - {p.frame});
      ProcFreepagetable(k, p.root, p.sz, b);
      TableDrop(procs, a, tramp, i);
      procs := procs - {i};
      view := Removed(b, p.root);
      assert view == Removed(a, p.root).(frames := a.frames - {p.frame});
    }

    /** kfork from slot `i` into the unused slot `j`: an equal copy of the parent's
        memory, mapped page by mapped page, or nothing at all. */
    method Fork(i: nat, j: nat) returns (ok: bool)
      requires Valid() && i in procs && j !in procs
      modifies this, k
      ensures Valid() && view.all == old(view.all)
      ensures ok ==> j in procs && procs == old(procs)[j := procs[j]] && procs[j].sz == procs[i].sz
      ensures ok ==> procs[j].root !in old(view).spaces
      ensures ok ==> view.spaces == old(view).spaces[procs[j].root := old(view).spaces[procs[i].root]]
      ensures ok ==> |k.free| + 6 + 3 * Pages(old(procs)[i].sz) >= |old(k.free)|
      ensures !ok ==> procs == old(procs) && view.spaces == old(view).spaces
      ensures !ok ==> |old(k.free)| < 6 + 3 * Pages(old(procs)[i].sz)
    {
      ok := Allocproc(j);
      if !ok {
        return;
      }
      var c := procs[j];
      AddThenDrop(old(procs), j, c);
      AddThenDrop(old(view).spaces, c.root, map[]);
      AddTwice(old(procs), j, c, c.(sz := procs[i].sz));
      AddTwice(old(view).spaces, c.root, map[], old(view).spaces[procs[i].root]);
      ok := CopyMemory(i, j);
      if !ok {
        Freeproc(j);
      }
    }

    /** The uvmcopy of kfork into the new process `j`. */
    method CopyMemory(i: nat, j: nat) returns (ok: bool)
      requires Valid() && i in procs && j in procs && i != j && view.spaces[procs[j].root] == map[]
      modifies this, k
      ensures Valid() && view.all == old(view.all)
      ensures ok ==> procs == old(procs)[j := old(procs)[j].(sz := old(procs)[i].sz)]
      ensures ok ==> view.spaces == old(view).spaces[old(procs)[j].root := old(view).spaces[old(procs)[i].root]]
      ensures ok ==> |k.free| + 3 * Pages(old(procs)[i].sz) >= |old(k.free)|
      ensures !ok ==> procs == old(procs) && view == old(view) && |old(k.free)| < 3 * Pages(old(procs)[i].sz)
    {
      var p, c := procs[i], procs[j];
      ghost var a := view;
      ghost var s := a.spaces[p.root];
      assert SlotOk(p, a, tramp) && SlotOk(c, a, tramp);
      PagesBelowTop(p.sz);
      ok := Uvmcopy(k, p.root, c.root, p.sz, a);
      if ok {
        assert Below(s, Pages(p.sz)) == s;
        view := Copied(a, p.root, c.root, Pages(p.sz));
        TableChange(procs, a, view, tramp, j, p.sz);
        procs := procs[j := c.(sz := p.sz)];
      }
    }

    /** A memory system call or a user access of process `i`: no other process
        notices, and process `i` sees what the observable memory says. */
    method Do(i: nat, op: LE.Op, lazy: bool) returns (r: LE.Res, ghost oom: bool)
      requires Valid() && i in procs && LE.OpOk(op)
      modifies this, k
      ensures Valid() && view.all == old(view.all)
      ensures i in procs && procs == old(procs)[i := procs[i]] && procs[i].root == old(procs)[i].root
      ensures OnlySpace(old(view), view, procs[i].root)
      ensures var u := MemoryOf(old(view).spaces[procs[i].root], old(procs)[i].sz);
              && GoodImage(u)
              && (!oom && LE.Clear(u, op) ==>
                    && MemoryOf(view.spaces[procs[i].root], procs[i].sz) == LE.AbsStep(u, op)
                    && r == LE.AbsRes(u, op))
      ensures oom ==> |old(k.free)| < LE.Cost(op)
      ensures !oom ==> |k.free| + LE.Cost(op) >= |old(k.free)|
    {
      var p := procs[i];
      assert SlotOk(p, view, tramp);
      var x := new Process(k, p.root, p.sz, view);
      r, oom := LE.Step(x, op, lazy);
      TableChange(procs, view, x.view, tramp, i, x.sz);
      view := x.view;
      procs := procs[i := p.(sz := x.sz)];
    }
  }

  datatype Event =
    | Alloc(i: nat)
    | ForkTo(i: nat, j: nat)
    | Free(i: nat)
    | Call(i: nat, op: LE.Op, lazy: bool)
}
