/** The buffers that a commit works through: write_log reads every log block into the
    cache, where the whole transaction is pinned already. */
module CommitBuffers {
  import opened Options
  import opened LogDisk
  import opened LogSystem

  /** bget has a buffer for block `b`. */
  ghost predicate CanGet(c: Config, s: State, b: nat) {
    exists i: nat :: CanGetHit(c, s, s.committer, b, i) || CanGetMiss(c, s, s.committer, b, i)
  }

  ghost predicate Cached(s: State, b: nat) { exists i: nat :: Tagged(s.bufs, i, b) }

  ghost predicate Unreferenced(s: State, i: nat) { i < |s.bufs| && s.bufs[i].refcnt == 0 }

  /** The buffers that a thread refers to, and those that the log pins. */
  ghost function Held(s: State): (r: set<nat>)
    requires |s.refs| == |s.bufs|
  {
    set i: nat | i < |s.bufs| && |s.refs[i]| > 0
  }

  ghost function PinnedBufs(s: State): (r: set<nat>) {
    set i: nat | i < |s.bufs| && s.bufs[i].dev == DEV && s.bufs[i].blockno in Pinned(s.lh, s.phase)
  }

  /** The log block that write_log reads next. */
  function LogBlock(c: Config, s: State): nat
    requires s.phase.Logging?
  {
    c.l.start + 1 + s.phase.k
  }

  lemma GetIff(c: Config, s: State, b: nat)
    requires b < c.l.size && |s.refs| == |s.bufs|
    ensures CanGet(c, s, b) <==> Cached(s, b) || exists i: nat :: Unreferenced(s, i)
  {
    if Cached(s, b) {
      var i: nat :| Tagged(s.bufs, i, b);
      assert CanGetHit(c, s, s.committer, b, i);
    } else if exists i: nat :: Unreferenced(s, i) {
      var i: nat :| Unreferenced(s, i);
      assert CanGetMiss(c, s, s.committer, b, i);
    } else if CanGet(c, s, b) {
      var i: nat :| CanGetHit(c, s, s.committer, b, i) || CanGetMiss(c, s, s.committer, b, i);
      assert Tagged(s.bufs, i, b) || Unreferenced(s, i);
    }
  }

  // ----- counting -----

  ghost function Blocks(bufs: seq<Buf>, p: set<nat>): (r: set<int>)
    requires forall i :: i in p ==> i < |bufs|
  {
    set i | i in p :: bufs[i].blockno
  }

  lemma {:induction false} BlocksSize(bufs: seq<Buf>, p: set<nat>)
    requires UniqueTags(bufs) && forall i :: i in p ==> i < |bufs| && bufs[i].dev == DEV
    ensures |Blocks(bufs, p)| == |p|
    decreases |p|
  {
    if p != {} {
      var i :| i in p;
      BlocksSize(bufs, p - {i});
      assert Blocks(bufs, p) == Blocks(bufs, p - {i}) + {bufs[i].blockno};
      assert bufs[i].blockno !in Blocks(bufs, p - {i});
    }
  }

  lemma {:induction false} LoggedSize(lh: seq<int>)
    requires Distinct(lh)
    ensures |set b | b in lh| == |lh|
  {
    if lh != [] {
      var n := |lh| - 1;
      LoggedSize(lh[..n]);
      assert (set b | b in lh) == (set b | b in lh[..n]) + {lh[n]};
    }
  }

  ghost function UpTo(n: nat): (r: set<nat>)
    ensures |r| == n && forall i: nat :: i in r <==> i < n
  {
    if n == 0 then {} else
      var u := UpTo(n - 1);
      assert n - 1 !in u;
      u + {n - 1}
  }

  /** Before the header is written the log pins as many buffers as it lists blocks. */
  lemma PinnedCount(c: Config, s: State)
    requires Inv(c, s) && s.phase.Logging?
    ensures |PinnedBufs(s)| == |s.lh|
  {
    var p := PinnedBufs(s);
    BlocksSize(s.bufs, p);
    LoggedSize(s.lh);
    forall b | b in s.lh ensures b in Blocks(s.bufs, p) {
      assert b in Pinned(s.lh, s.phase);
      var i: nat :| Holds(s.bufs, i, b);
      assert i in p;
    }
    assert Blocks(s.bufs, p) == set b | b in s.lh;
  }

  lemma InUse(c: Config, s: State, i: nat)
    requires Inv(c, s) && i < |s.bufs|
    ensures Unreferenced(s, i) <==> i !in Held(s) && i !in PinnedBufs(s)
  {
  }

  lemma UnionSize(a: set<nat>, b: set<nat>)
    ensures |a + b| <= |a| + |b|
  {
    assert |a + b| + |a * b| == |a| + |b|;
  }

  lemma OneMore(a: set<nat>, b: set<nat>) returns (i: nat)
    requires |a| > |b|
    ensures i in a && i !in b
  {
    assert |a - b| + |a * b| == |a|;
    assert |b - a| + |a * b| == |b|;
    i :| i in a - b;
  }

  /** Enough buffers leave one over. */
  lemma SomeLeft(c: Config, s: State)
    requires Inv(c, s) && s.phase.Logging? && |s.bufs| > |s.lh| + |Held(s)|
    ensures exists i: nat :: Unreferenced(s, i)
  {
    PinnedCount(c, s);
    UnionSize(Held(s), PinnedBufs(s));
    var i := OneMore(UpTo(|s.bufs|), Held(s) + PinnedBufs(s));
    InUse(c, s, i);
  }

  lemma SubsetAll(p: set<nat>, n: nat)
    requires (forall i :: i in p ==> i < n) && |p| >= n
    ensures |p| == n && forall i: nat :: i < n ==> i in p
  {
    var all := UpTo(n);
    assert all * p == p;
    assert |all - p| + |all * p| == |all|;
    assert all - p == {};
    forall i: nat | i < n ensures i in p { assert i in all && i !in all - p; }
  }

  /** With every buffer pinned, no log block is cached and no buffer is left over. */
  lemma NoneLeft(c: Config, s: State)
    requires Inv(c, s) && s.phase.Logging? && s.phase.k < |s.lh| && |s.bufs| <= |s.lh|
    ensures |s.bufs| == |s.lh| && !Cached(s, LogBlock(c, s)) && forall i: nat :: !Unreferenced(s, i)
  {
    var p := PinnedBufs(s);
    PinnedCount(c, s);
    SubsetAll(p, |s.bufs|);
    forall i: nat ensures !Unreferenced(s, i) && !Tagged(s.bufs, i, LogBlock(c, s)) {
      if i < |s.bufs| {
        InUse(c, s, i);
        assert i in p && c.l.Home(s.bufs[i].blockno);
      }
    }
  }

  /** The committer gets a buffer for its next log block exactly when that is cached or some
      buffer is unreferenced. There are enough when the cache has more buffers than the
      transaction has blocks and threads refer to, and there is none when it has no more than
      the transaction has blocks; while nobody else refers to a buffer that decides it. */
  lemma CommitterGets(c: Config, s: State)
    requires Reachable(c, s) && s.phase.Logging? && s.phase.k < |s.lh|
    ensures LogBlock(c, s) < c.l.size && |s.refs| == |s.bufs| >= |s.lh|
    ensures CanGet(c, s, LogBlock(c, s)) <==> Cached(s, LogBlock(c, s)) || exists i: nat :: Unreferenced(s, i)
    ensures |s.bufs| > |s.lh| + |Held(s)| ==> CanGet(c, s, LogBlock(c, s))
    ensures |s.bufs| == |s.lh| ==> !CanGet(c, s, LogBlock(c, s))
    ensures Held(s) == {} ==> (CanGet(c, s, LogBlock(c, s)) <==> |s.bufs| > |s.lh|)
  {
    ReachableInv(c, s);
    ProtocolSafety(c, s);
    GetIff(c, s, LogBlock(c, s));
    if |s.bufs| <= |s.lh| {
      NoneLeft(c, s);
    } else if |s.bufs| > |s.lh| + |Held(s)| {
      SomeLeft(c, s);
    }
  }

  // ----- it happens -----

  lemma {:induction false} RunOneMore(c: Config, s: State, es: seq<Event>, e: Event)
    requires CanRun(c, s, es) && Enabled(c, Run(c, s, es), e)
    ensures CanRun(c, s, es + [e]) && Run(c, s, es + [e]) == Do(c, Run(c, s, es), e)
    decreases |es|
  {
    if es == [] {
      assert (es + [e])[1..] == [];
    } else {
      assert (es + [e])[1..] == es[1..] + [e];
      RunOneMore(c, Do(c, s, es[0]), es[1..], e);
    }
  }

  lemma ReachableMore(c: Config, s: State, e: Event)
    requires Reachable(c, s) && Enabled(c, s, e)
    ensures Reachable(c, Do(c, s, e))
  {
    var s0, es :| Init(c, s0) && CanRun(c, s0, es) && s == Run(c, s0, es);
    RunOneMore(c, s0, es, e);
  }

  /** The states of the small run after releasesleep, brelse and end_op. */
  ghost function SmallLast(t: Tid, k: nat): State {
    var u := SmallAfter(t, 5).(bufs := [Buf(DEV, 2, true, 2, Zeroed(), None)]);
    var d := u.(bufs := [Buf(DEV, 2, true, 1, Zeroed(), None)], refs := [multiset{}]);
    if k == 0 then u
    else if k == 1 then d
    else d.(outstanding := 0, ops := map[], ended := {0}, phase := Logging(0), committer := t)
  }

  lemma SmallUnlock(t: Tid)
    ensures Enabled(SMALL, SmallAfter(t, 5), Unlock(t, 0))
    ensures Do(SMALL, SmallAfter(t, 5), Unlock(t, 0)) == SmallLast(t, 0)
  {
    assert SmallAfter(t, 5).bufs[0 := Buf(DEV, 2, true, 2, Zeroed(), None)] == SmallLast(t, 0).bufs;
  }

  lemma SmallDrop(t: Tid)
    ensures Enabled(SMALL, SmallLast(t, 0), Drop(t, 0))
    ensures Do(SMALL, SmallLast(t, 0), Drop(t, 0)) == SmallLast(t, 1)
  {
    var s, r := SmallLast(t, 0), SmallLast(t, 1);
    assert s.refs[0] - multiset{t} == r.refs[0];
    assert s.bufs[0 := r.bufs[0]] == r.bufs && s.refs[0 := r.refs[0]] == r.refs;
  }

  lemma SmallEnd(t: Tid)
    ensures Enabled(SMALL, SmallLast(t, 1), End(t))
    ensures Do(SMALL, SmallLast(t, 1), End(t)) == SmallLast(t, 2)
  {
    var s := SmallLast(t, 1);
    assert s.ops - {t} == map[] && s.ended + {s.ops[t].id} == {0};
  }

  lemma SmallLastReached(t: Tid)
    ensures Reachable(SMALL, SmallLast(t, 2))
  {
    FullLogHappens(t);
    SmallUnlock(t);
    ReachableMore(SMALL, SmallAfter(t, 5), Unlock(t, 0));
    SmallDrop(t);
    ReachableMore(SMALL, SmallLast(t, 0), Drop(t, 0));
    SmallEnd(t);
    ReachableMore(SMALL, SmallLast(t, 1), End(t));
  }

  /** One buffer, a log of one block, and an operation that logged one: after its unlock, its
      brelse and its end_op nothing is left for the log block. */
  lemma NoBufferHappens(t: Tid)
    ensures var s := SmallLast(t, 2);
            && Reachable(SMALL, s) && s.phase == Logging(0) && s.lh == [2] && |s.bufs| == SMALL.l.cap
            && !CanGet(SMALL, s, LogBlock(SMALL, s))
  {
    SmallLastReached(t);
    CommitterGets(SMALL, SmallLast(t, 2));
  }
}
