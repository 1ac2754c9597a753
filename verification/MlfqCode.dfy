/** The queue code of xv6/kernel/proc.c on its arrays: `mlfq[4][NPROC]` and
    `qcount[4]`, proved against the queue operations of the Mlfq module. */
module MlfqCode {
  import opened Options
  import opened Mlfq

  class RunQueues {
    const nproc: nat
    const mlfq: array2<Pid>
    const qcount: array<nat>

    ghost predicate Valid()
      reads this, mlfq, qcount
    {
      && mlfq.Length0 == 4 && mlfq.Length1 == nproc && qcount.Length == 4
      && forall q :: 0 <= q < 4 ==> qcount[q] <= nproc
    }

    ghost function Row(q: nat): (r: seq<Pid>)
      reads this, mlfq, qcount
      requires Valid() && q < 4
      ensures |r| == qcount[q] && forall j :: 0 <= j < |r| ==> r[j] == mlfq[q, j]
    {
      seq(qcount[q], j requires Valid() && 0 <= j < qcount[q] reads this, mlfq, qcount => mlfq[q, j])
    }

    ghost function Contents(): Queues
      reads this, mlfq, qcount
      requires Valid()
    {
      [Row(0), Row(1), Row(2), Row(3)]
    }

    constructor (n: nat)
      ensures Valid() && nproc == n && Contents() == [[], [], [], []]
      ensures fresh(mlfq) && fresh(qcount)
    {
      nproc := n;
      mlfq := new Pid[4, n]((i, j) => 0);
      qcount := new nat[4](_ => 0);
    }

    /** enqueue; a bad level or a full queue panics and changes nothing. */
    method Enqueue(q: int, p: Pid) returns (panic: bool)
      requires Valid()
      modifies mlfq, qcount
      ensures Valid()
      ensures panic <==> !(0 <= q < 4 && |old(Contents())[q]| < nproc)
      ensures Contents() == if panic then old(Contents()) else Enq(old(Contents()), q, p)
    {
      if q < 0 || q > 3 {
        return true;
      }
      if qcount[q] >= nproc {
        return true;
      }
      ghost var was := Contents();
      mlfq[q, qcount[q]] := p;
      qcount[q] := qcount[q] + 1;
      panic := false;
      assert Row(q) == was[q] + [p];
      assert forall i :: 0 <= i < 4 && i != q ==> Row(i) == was[i];
    }

    /** dequeue: shift the rest of the row down by one. */
    method Dequeue(q: nat) returns (p: Option<Pid>)
      requires Valid() && q < 4
      modifies mlfq, qcount
      ensures Valid()
      ensures p == if old(Contents())[q] == [] then None else Some(old(Contents())[q][0])
      ensures Contents() == if p == None then old(Contents()) else old(Contents())[q := old(Contents())[q][1..]]
    {
      if qcount[q] == 0 {
        return None;
      }
      ghost var was := Contents();
      p := Some(mlfq[q, 0]);
      var n := qcount[q] - 1;
      for i := 0 to n
        invariant Valid() && qcount[q] == n + 1
        invariant forall j :: 0 <= j < i ==> mlfq[q, j] == was[q][j + 1]
        invariant forall j :: i <= j <= n ==> mlfq[q, j] == was[q][j]
        invariant forall k, j :: 0 <= k < 4 && k != q && 0 <= j < nproc ==> mlfq[k, j] == old(mlfq[k, j])
        invariant forall k :: 0 <= k < 4 ==> qcount[k] == old(qcount[k])
      {
        mlfq[q, i] := mlfq[q, i + 1];
      }
      qcount[q] := qcount[q] - 1;
      assert Row(q) == was[q][1..];
      assert forall i :: 0 <= i < 4 && i != q ==> Row(i) == was[i];
    }

    /** yield's look at the higher queues. */
    method HigherBusy(queue: nat) returns (preempt: bool)
      requires Valid() && queue < 4
      ensures preempt == Busier(Contents(), queue)
    {
      preempt := false;
      for i := 0 to queue
        invariant preempt == exists k :: 0 <= k < i && Contents()[k] != []
      {
        assert |Contents()[i]| == qcount[i];
        if qcount[i] > 0 {
          preempt := true;
        }
      }
    }

    /** Append row `i` to the temporary array. */
    method AppendRow(i: nat, temp: array<Pid>, start: nat) returns (count: nat)
      requires Valid() && i < 4 && temp != qcount
      requires start + qcount[i] <= temp.Length
      modifies temp
      ensures count == start + qcount[i]
      ensures temp[..count] == old(temp[..start]) + Row(i)
    {
      count := start;
      for j := 0 to qcount[i]
        invariant count == start + j && temp[..count] == old(temp[..start]) + Row(i)[..j]
      {
        temp[count] := mlfq[i, j];
        count := count + 1;
        assert Row(i)[..j + 1] == Row(i)[..j] + [Row(i)[j]];
      }
      assert Row(i)[..qcount[i]] == Row(i);
    }

    /** Collect every queue in level order and empty it. */
    method Collect(temp: array<Pid>) returns (count: nat)
      requires Valid() && temp != qcount && Queued(Contents()) <= temp.Length
      modifies temp, qcount
      ensures Valid() && forall k :: 0 <= k < 4 ==> qcount[k] == 0
      ensures count <= temp.Length && temp[..count] == Merge(old(Contents()))[0]
    {
      ghost var was := Contents();
      count := 0;
      for i := 0 to 4
        invariant Valid() && count == |Flat(was, i)| <= temp.Length && temp[..count] == Flat(was, i)
        invariant forall k :: 0 <= k < 4 ==> qcount[k] == if k < i then 0 else |was[k]|
      {
        FlatFits(was, i + 1);
        assert Row(i) == was[i];
        count := AppendRow(i, temp, count);
        qcount[i] := 0;
      }
      FlatFits(was, 4);
    }

    /** boost_priority's second half: collect every queue in a temporary array,
        then refill queue 0 from it. */
    method MergeQueues()
      requires Valid() && Queued(Contents()) <= nproc
      modifies mlfq, qcount
      ensures Valid() && Contents() == Merge(old(Contents()))
    {
      var temp := new Pid[nproc](_ => 0);
      var count := Collect(temp);
      for i := 0 to count
        invariant Valid() && qcount[0] == i && qcount[1] == qcount[2] == qcount[3] == 0
        invariant temp[..count] == Merge(old(Contents()))[0]
        invariant forall j :: 0 <= j < i ==> mlfq[0, j] == temp[j]
      {
        mlfq[0, qcount[0]] := temp[i];
        qcount[0] := qcount[0] + 1;
      }
      assert Row(0) == temp[..count];
    }
  }

  /** The first `k` queues one after the other. */
  ghost function Flat(qs: Queues, k: nat): seq<Pid>
    requires k <= 4
  {
    if k == 0 then [] else Flat(qs, k - 1) + qs[k - 1]
  }

  lemma FlatFits(qs: Queues, k: nat)
    requires k <= 4
    ensures |Flat(qs, k)| <= Queued(qs)
    ensures Flat(qs, 4) == Merge(qs)[0]
  {
    assert Flat(qs, 1) == qs[0];
    assert Flat(qs, 2) == qs[0] + qs[1];
    assert Flat(qs, 3) == qs[0] + qs[1] + qs[2];
    assert Flat(qs, 4) == qs[0] + qs[1] + qs[2] + qs[3];
  }
}
