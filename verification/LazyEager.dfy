/** One operation of a process on its memory, against what the process can observe of it:
    what it reads back and what its calls return do not depend on what was grown lazily. */
module LazyEager {
  import opened Options
  import opened PageTable
  import opened AddressSpace
  import opened UserMemory
  import opened LazyMemory

  datatype Op =
    | Sbrk(n: int)
    | Load(va: nat)
    | Store(va: nat, x: Byte)
    | Copyout(dst: nat, data: seq<Byte>)
    | Copyin(src: nat, len: nat)

  datatype Res =
    | Ret(v: int)
    | Loaded(b: Option<Byte>)
    | Stored(ok: bool)
    | Wrote(ok: bool)
    | Read(data: seq<Byte>, ok: bool)

  predicate OpOk(op: Op) {
    op.Sbrk? ==> -0x8000_0000 <= op.n < 0x8000_0000
  }

  /** User accesses keep off the unused rest of the last page. */
  ghost predicate Clear(u: Memory, op: Op) {
    && (op.Load? ==> !Slack(u.sz, op.va))
    && (op.Store? ==> !Slack(u.sz, op.va))
  }

  ghost function AbsStep(u: Memory, op: Op): (w: Memory)
    requires GoodImage(u)
    ensures GoodImage(w)
  {
    match op
    case Sbrk(n) => AbsSbrkGood(u, n); AbsSbrk(u, n)
    case Load(_) => u
    case Store(va, x) => if Allowed(u, va, true) then Written(u, va, [x]) else u
    case Copyout(dst, data) => Written(u, dst, data[..Reach(u, dst, |data|, true)])
    case Copyin(_, _) => u
  }

  lemma AbsSbrkGood(u: Memory, n: int)
    requires GoodImage(u)
    ensures GoodImage(AbsSbrk(u, n))
  {
    if n >= 0 {
      PagesMonotone(u.sz, u.sz + n);
    } else if u.sz + n >= 0 {
      PagesMonotone(u.sz + n, u.sz);
    }
  }

  ghost function AbsRes(u: Memory, op: Op): Res
    requires GoodImage(u)
  {
    match op
    case Sbrk(n) => Ret(SbrkValue(u.sz, n))
    case Load(va) => Loaded(AbsLoad(u, va))
    case Store(va, x) => Stored(Allowed(u, va, true))
    case Copyout(dst, data) => Wrote(Reach(u, dst, |data|, true) == |data|)
    case Copyin(src, len) =>
      var c := Reach(u, src, len, false);
      Read(ReadOut(u, src, c), c == len)
  }

  /** As many free pages as an operation can use up: three for every page it may add, as
      two page-table pages may be missing. */
  function Cost(op: Op): (n: nat) {
    match op
    case Sbrk(n) => if n > 0 then 3 * (n / PGSIZE + 1) else 0
    case Load(_) => 3
    case Store(_, _) => 3
    case Copyout(dst, data) => 3 * PagesOf(dst, |data|)
    case Copyin(src, len) => 3 * PagesOf(src, len)
  }

  lemma PagesAdded(sz: nat, n: nat)
    ensures Pages(sz + n) - Pages(sz) <= n / PGSIZE + 1
  {
  }

  /** One operation of a process whose sbrk is lazy or not. */
  method Step(p: Process, op: Op, lazy: bool) returns (r: Res, ghost oom: bool)
    requires p.Valid() && OpOk(op)
    modifies p, p.k
    ensures p.Valid() && OnlySpace(old(p.view), p.view, p.root) && GoodImage(old(p.mem))
    ensures !oom && Clear(old(p.mem), op) ==> p.mem == AbsStep(old(p.mem), op) && r == AbsRes(old(p.mem), op)
    ensures oom ==> |old(p.k.free)| < Cost(op)
    ensures !oom ==> |p.k.free| + Cost(op) >= |old(p.k.free)|
  {
    p.Good();
    ghost var s := p.view.spaces[p.root];
    match op
    case Sbrk(n) =>
      if n > 0 { PagesAdded(p.sz, n); }
      var v;
      v, oom := p.Sbrk(n, lazy);
      r := Ret(v);
    case Load(va) =>
      AccessIsObservable(s, p.sz, va);
      var b;
      b, oom := p.Load(va);
      r := Loaded(b);
    case Store(va, x) =>
      AccessIsObservable(s, p.sz, va);
      var ok;
      ok, oom := p.Store(va, x);
      r := Stored(ok);
    case Copyout(dst, data) =>
      var ok;
      ok, oom := p.Copyout(dst, data);
      r := Wrote(ok);
    case Copyin(src, len) =>
      var data, ok;
      data, ok, oom := p.Copyin(src, len);
      ReadFromIs(p.mem, src, data);
      r := Read(data, ok);
  }
}
