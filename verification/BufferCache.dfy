/** The buffer cache of xv6/kernel/bio.c: a circular doubly linked list through
    `prev` and `next`, kept in most-recently-used order. Buffers are numbered
    0 .. NBUF - 1 and the list head has number NBUF. */
module BufferCache {
  /** The list read off from the head and back to it. */
  function Circle(order: seq<nat>, head: nat): (f: seq<nat>)
    ensures |f| == |order| + 2
  {
    [head] + order + [head]
  }

  ghost predicate Linked(next: seq<nat>, prev: seq<nat>, order: seq<nat>, head: nat) {
    && |next| == |prev| == head + 1
    && Listing(order, head)
    && forall k :: 0 <= k <= |order| ==>
         var f := Circle(order, head);
         next[f[k]] == f[k + 1] && prev[f[k + 1]] == f[k]
  }

  /** Each number below `n` occurs at most once. */
  ghost predicate Listing(order: seq<nat>, n: nat) {
    && (forall i :: 0 <= i < |order| ==> order[i] < n)
    && (forall i, j :: 0 <= i < j < |order| ==> order[i] != order[j])
  }

  ghost function Without(order: seq<nat>, b: nat): (r: seq<nat>)
    ensures b !in order ==> r == order
  {
    if order == [] then []
    else if order[0] == b then order[1..]
    else [order[0]] + Without(order[1..], b)
  }

  lemma {:induction false} WithoutAt(order: seq<nat>, k: nat, n: nat)
    requires Listing(order, n) && k < |order|
    ensures Without(order, order[k]) == order[..k] + order[k + 1..]
    decreases k
  {
    if k > 0 {
      assert Listing(order[1..], n);
      WithoutAt(order[1..], k - 1, n);
      assert [order[0]] + (order[1..][..k - 1] + order[1..][k..]) == order[..k] + order[k + 1..];
    }
  }

  lemma RemoveListing(order: seq<nat>, k: nat, n: nat)
    requires Listing(order, n) && k < |order|
    ensures Listing(order[..k] + order[k + 1..], n)
    ensures order[k] !in order[..k] + order[k + 1..]
  {
  }

  /** Taking the buffer at position `k` out of the list. */
  lemma UnlinkAt(next: seq<nat>, prev: seq<nat>, order: seq<nat>, head: nat, k: nat)
    requires Linked(next, prev, order, head) && k < |order|
    ensures var b := order[k];
            && next[b] <= head && prev[b] <= head
            && Linked(next[prev[b] := next[b]], prev[next[b] := prev[b]], order[..k] + order[k + 1..], head)
  {
    var b := order[k];
    var f := Circle(order, head);
    assert f[k + 1] == b && next[f[k + 1]] == f[k + 2] && prev[f[k + 1]] == f[k];
    var rest := order[..k] + order[k + 1..];
    var g := Circle(rest, head);
    RemoveListing(order, k, head);
    var n2, p2 := next[f[k] := f[k + 2]], prev[f[k + 2] := f[k]];
    forall j | 0 <= j <= |rest|
      ensures n2[g[j]] == g[j + 1] && p2[g[j + 1]] == g[j]
    {
      var i := if j <= k then j else j + 1;
      assert g[j] == f[i];
      assert g[j + 1] == if j < k then f[j + 1] else f[j + 2];
      assert next[f[i]] == f[i + 1] && prev[f[i + 1]] == f[i];
    }
  }

  /** Putting an unlisted buffer right after the head. */
  lemma PushFrontLinks(next: seq<nat>, prev: seq<nat>, order: seq<nat>, head: nat, b: nat)
    requires Linked(next, prev, order, head) && b < head && b !in order
    ensures var first := next[head];
            && first <= head
            && Linked(next[b := first][head := b], prev[b := head][first := b], [b] + order, head)
  {
    var f := Circle(order, head);
    assert next[f[0]] == f[1];
    var first := f[1];
    var n2, p2 := next[b := first][head := b], prev[b := head][first := b];
    var g := Circle([b] + order, head);
    forall j | 0 <= j <= |order| + 1
      ensures n2[g[j]] == g[j + 1] && p2[g[j + 1]] == g[j]
    {
      if j >= 2 {
        assert g[j] == f[j - 1] && g[j + 1] == f[j];
        assert next[f[j - 1]] == f[j] && prev[f[j]] == f[j - 1];
      }
    }
  }

  /** The last buffer in `order` that nobody refers to. */
  ghost predicate IsLru(order: seq<nat>, refcnt: seq<nat>, i: nat) {
    exists k :: 0 <= k < |order| && order[k] == i && i < |refcnt| && refcnt[i] == 0
                && forall m :: k < m < |order| && order[m] < |refcnt| ==> refcnt[order[m]] != 0
  }

  /** The bookkeeping fields of all buffers. */
  datatype Tags = Tags(dev: seq<nat>, blockno: seq<nat>, valid: seq<bool>, refcnt: seq<nat>) {
    predicate Has(i: nat, d: nat, b: nat) {
      i < |dev| && i < |blockno| && dev[i] == d && blockno[i] == b
    }

    ghost predicate OfSize(n: nat) {
      |dev| == |blockno| == |valid| == |refcnt| == n
    }
  }

  /** What bget(d, b) may do: use the buffer that holds the block; else recycle the
      least recently used unreferenced buffer; else fail (`i == n`). */
  ghost predicate BgetResult(v: Tags, w: Tags, order: seq<nat>, n: nat, d: nat, b: nat, i: nat)
    requires v.OfSize(n)
  {
    if exists j: nat :: v.Has(j, d, b) then
      i < n && v.Has(i, d, b) && w == v.(refcnt := v.refcnt[i := v.refcnt[i] + 1])
    else if i < n then
      && IsLru(order, v.refcnt, i)
      && w == Tags(v.dev[i := d], v.blockno[i := b], v.valid[i := false], v.refcnt[i := 1])
    else
      i == n && w == v && forall j :: 0 <= j < n ==> v.refcnt[j] != 0
  }

  class Bcache {
    const nbuf: nat
    const next: array<nat>
    const prev: array<nat>
    const dev: array<nat>
    const blockno: array<nat>
    const valid: array<bool>
    const refcnt: array<nat>
    ghost var order: seq<nat>    // most recently used first

    ghost predicate Shape()
      reads this
    {
      && next.Length == prev.Length == nbuf + 1
      && dev.Length == blockno.Length == valid.Length == refcnt.Length == nbuf
      && next != prev && dev != blockno && dev != refcnt && blockno != refcnt
      && next != dev && next != blockno && next != refcnt
      && prev != dev && prev != blockno && prev != refcnt
    }

    ghost predicate Valid()
      reads this, next, prev, dev, blockno, valid, refcnt
    {
      && Shape()
      && Linked(next[..], prev[..], order, nbuf)
      && |order| == nbuf
      && (forall i :: 0 <= i < nbuf ==> i in order)
    }

    ghost function View(): Tags
      reads dev, blockno, valid, refcnt
    {
      Tags(dev[..], blockno[..], valid[..], refcnt[..])
    }

    /** binit: link every buffer in at the front. */
    constructor (n: nat)
      ensures Valid() && nbuf == n
      ensures forall i :: 0 <= i < n ==> dev[i] == 0 && blockno[i] == 0 && !valid[i] && refcnt[i] == 0
    {
      nbuf := n;
      next := new nat[n + 1](_ => n);
      prev := new nat[n + 1](_ => n);
      dev := new nat[n](_ => 0);
      blockno := new nat[n](_ => 0);
      valid := new bool[n](_ => false);
      refcnt := new nat[n](_ => 0);
      order := [];
      new;
      for b := 0 to n
        invariant Shape() && nbuf == n
        invariant Linked(next[..], prev[..], order, n)
        invariant |order| == b && (forall i :: 0 <= i < n ==> (i in order <==> i < b))
        invariant forall i :: 0 <= i < n ==> dev[i] == 0 && blockno[i] == 0 && !valid[i] && refcnt[i] == 0
      {
        PushFront(b);
      }
    }

    method PushFront(b: nat)
      requires Shape() && Linked(next[..], prev[..], order, nbuf) && b < nbuf && b !in order
      modifies this`order, next, prev
      ensures Linked(next[..], prev[..], order, nbuf) && order == [b] + old(order)
    {
      PushFrontLinks(next[..], prev[..], order, nbuf, b);
      ghost var n2 := next[..][b := next[nbuf]][nbuf := b];
      ghost var p2 := prev[..][b := nbuf][next[nbuf] := b];
      next[b] := next[nbuf];
      prev[b] := nbuf;
      prev[next[nbuf]] := b;
      next[nbuf] := b;
      assert next[..] == n2 && prev[..] == p2;
      order := [b] + order;
    }

    method Unlink(b: nat)
      requires Shape() && Linked(next[..], prev[..], order, nbuf) && b in order
      modifies this`order, next, prev
      ensures Linked(next[..], prev[..], order, nbuf) && order == Without(old(order), b) && b !in order
    {
      ghost var k :| 0 <= k < |order| && order[k] == b;
      UnlinkAt(next[..], prev[..], order, nbuf, k);
      WithoutAt(order, k, nbuf);
      RemoveListing(order, k, nbuf);
      ghost var n2 := next[..][prev[b] := next[b]];
      ghost var p2 := prev[..][next[b] := prev[b]];
      prev[next[b]] := prev[b];
      next[prev[b]] := next[b];
      assert prev[..] == p2;
      assert next[..] == n2;
      order := Without(order, b);
    }

    /** Is block (d, b) cached? Walks the list from the front. */
    method Lookup(d: nat, b: nat) returns (i: nat)
      requires Valid()
      ensures i <= nbuf
      ensures i < nbuf ==> View().Has(i, d, b)
      ensures i == nbuf ==> forall j: nat :: !View().Has(j, d, b)
    {
      ghost var f := Circle(order, nbuf);
      assert next[f[0]] == f[1];
      i := next[nbuf];
      ghost var k := 0;
      while i != nbuf
        invariant 0 <= k <= |order| && i == f[k + 1]
        invariant forall m :: 0 <= m < k ==> !View().Has(order[m], d, b)
        decreases |order| - k
      {
        assert i == order[k];
        if dev[i] == d && blockno[i] == b {
          return;
        }
        assert next[f[k + 1]] == f[k + 2];
        i := next[i];
        k := k + 1;
      }
      assert k == |order|;
      forall j: nat
        ensures !View().Has(j, d, b)
      {
        assert j < nbuf ==> j in order;
      }
    }

    /** The least recently used unreferenced buffer. Walks the list from the back. */
    method FindFree() returns (i: nat)
      requires Valid()
      ensures i <= nbuf
      ensures i < nbuf ==> IsLru(order, refcnt[..], i)
      ensures i == nbuf ==> forall j :: 0 <= j < nbuf ==> refcnt[j] != 0
    {
      ghost var f := Circle(order, nbuf);
      assert prev[f[|order| + 1]] == f[|order|];
      i := prev[nbuf];
      ghost var k := |order|;
      while i != nbuf
        invariant 0 <= k <= |order| && i == f[k]
        invariant forall m :: k <= m < |order| ==> refcnt[order[m]] != 0
        decreases k
      {
        assert i == order[k - 1];
        if refcnt[i] == 0 {
          return;
        }
        assert prev[f[k]] == f[k - 1];
        i := prev[i];
        k := k - 1;
      }
      assert k == 0;
      forall j | 0 <= j < nbuf
        ensures refcnt[j] != 0
      {
        assert j in order;
      }
    }

    /** bget up to the acquiresleep. `i == nbuf` is the "no buffers" panic. */
    method Bget(d: nat, b: nat) returns (i: nat)
      requires Valid()
      modifies dev, blockno, valid, refcnt
      ensures Valid()
      ensures BgetResult(old(View()), View(), order, nbuf, d, b, i)
    {
      i := Lookup(d, b);
      if i != nbuf {
        refcnt[i] := refcnt[i] + 1;
        return;
      }
      i := FindFree();
      if i != nbuf {
        dev[i] := d;
        blockno[i] := b;
        valid[i] := false;
        refcnt[i] := 1;
      }
    }

    /** brelse after the releasesleep: the last reference moves the buffer to the
        front of the list. */
    method Brelse(i: nat)
      requires Valid() && i < nbuf && refcnt[i] > 0
      modifies this`order, next, prev, refcnt
      ensures Valid() && refcnt[..] == old(refcnt[..])[i := old(refcnt[i]) - 1]
      ensures order == if old(refcnt[i]) == 1 then [i] + Without(old(order), i) else old(order)
    {
      refcnt[i] := refcnt[i] - 1;
      if refcnt[i] == 0 {
        ghost var was := order;
        Unlink(i);
        PushFront(i);
        MoveToFront(was, i, nbuf);
      }
    }
  }

  lemma MoveToFront(order: seq<nat>, b: nat, n: nat)
    requires Listing(order, n) && b in order
    ensures |[b] + Without(order, b)| == |order|
    ensures forall i :: i in order <==> i in [b] + Without(order, b)
  {
    var k :| 0 <= k < |order| && order[k] == b;
    WithoutAt(order, k, n);
    var w := [b] + (order[..k] + order[k + 1..]);
    assert order == order[..k] + [b] + order[k + 1..];
  }
}
