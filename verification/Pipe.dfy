/** Pipes (xv6/kernel/pipe.c) with any number of readers and writers. A step is what a
    process does while it holds the pipe's lock, from waking up or entering to the next
    sleep or the return. */
module Pipe {
  const PIPESIZE: nat := 512
  const UINT: nat := 0x1_0000_0000

  type Byte = b: nat | b < 256

  /** A process inside pipewrite with `i` bytes copied, or inside piperead. */
  datatype Thread = Writer(data: seq<Byte>, i: nat, asleep: bool) | Reader(n: nat, asleep: bool)

  /** The pipe, its processes, and what went through it: all bytes written, all bytes
      delivered, and how many those are. */
  datatype State = State(
    ring: seq<Byte>, nread: nat, nwrite: nat, readopen: bool, writeopen: bool,
    threads: map<nat, Thread>, written: seq<Byte>, got: seq<Byte>, taken: nat)

  // ---------------------------------------------------------------------------
  // The ring
  // ---------------------------------------------------------------------------

  function Slot(k: nat): (p: nat)
    ensures p < PIPESIZE
  {
    k % PIPESIZE
  }

  /** The counters are counts modulo 2^32, and the bytes between them are those written
      and not yet delivered, in order. */
  ghost predicate RingOk(ring: seq<Byte>, nread: nat, nwrite: nat, written: seq<Byte>, taken: nat) {
    && |ring| == PIPESIZE && taken <= |written| <= taken + PIPESIZE
    && nread == taken % UINT && nwrite == |written| % UINT
    && forall k: nat {:trigger Slot(k)} :: taken <= k < |written| ==> ring[Slot(k)] == written[k]
  }

  ghost function Pending(s: State): int {
    |s.written| - s.taken
  }

  lemma CounterIsSlot(k: nat)
    ensures k % UINT % PIPESIZE == Slot(k)
  {
  }

  lemma SlotsDiffer(j: nat, k: nat)
    requires j < k < j + PIPESIZE
    ensures Slot(j) != Slot(k)
  {
  }

  /** The tests for full and empty, on wrapped counters, are those on the counts. */
  lemma FullAndEmpty(ring: seq<Byte>, nread: nat, nwrite: nat, written: seq<Byte>, taken: nat)
    requires RingOk(ring, nread, nwrite, written, taken)
    ensures nwrite == (nread + PIPESIZE) % UINT <==> |written| == taken + PIPESIZE
    ensures nread == nwrite <==> |written| == taken
  {
    var d := |written| - taken;
    assert |written| % UINT == (taken + d) % UINT;
    WrapEqual(taken, d, PIPESIZE);
    WrapEqual(taken, d, 0);
  }

  lemma WrapEqual(a: nat, d: nat, e: nat)
    requires d <= PIPESIZE && e <= PIPESIZE
    ensures (a + d) % UINT == (a % UINT + e) % UINT <==> d == e
  {
    var r := a % UINT;
    assert (a + d) % UINT == (r + d) % UINT;
  }

  lemma WrapNext(k: nat)
    ensures (k % UINT + 1) % UINT == (k + 1) % UINT
  {
  }

  /** One byte in. */
  lemma PutOk(ring: seq<Byte>, nread: nat, nwrite: nat, written: seq<Byte>, taken: nat, ch: Byte)
    requires RingOk(ring, nread, nwrite, written, taken) && |written| < taken + PIPESIZE
    ensures RingOk(ring[nwrite % PIPESIZE := ch], nread, (nwrite + 1) % UINT, written + [ch], taken)
  {
    CounterIsSlot(|written|);
    WrapNext(|written|);
    forall k: nat | taken <= k < |written + [ch]|
      ensures ring[nwrite % PIPESIZE := ch][Slot(k)] == (written + [ch])[k]
    {
      if k < |written| {
        SlotsDiffer(k, |written|);
      }
    }
  }

  /** One byte out: the oldest one. */
  lemma GetOk(ring: seq<Byte>, nread: nat, nwrite: nat, written: seq<Byte>, taken: nat)
    requires RingOk(ring, nread, nwrite, written, taken) && taken < |written|
    ensures ring[nread % PIPESIZE] == written[taken]
    ensures RingOk(ring, (nread + 1) % UINT, nwrite, written, taken + 1)
  {
    CounterIsSlot(taken);
    WrapNext(taken);
    assert ring[Slot(taken)] == written[taken];
  }

  // ---------------------------------------------------------------------------
  // Steps
  // ---------------------------------------------------------------------------

  /** wakeup(&pi->nread), wakeup(&pi->nwrite). */
  function WakeReaders(t: map<nat, Thread>): (u: map<nat, Thread>) {
    map p | p in t :: match t[p] case Reader(n, _) => Reader(n, false) case Writer(_, _, _) => t[p]
  }

  function WakeWriters(t: map<nat, Thread>): (u: map<nat, Thread>) {
    map p | p in t :: match t[p] case Writer(d, i, _) => Writer(d, i, false) case Reader(_, _) => t[p]
  }

  /** How a stretch of pipewrite ends: all bytes copied; the source is unreadable; the
      pipe is full; the reading end is closed; the process was killed. */
  datatype WEnd = WDone | WFault | WSleep | WClosed | WKilled

  /** How a stretch of piperead ends: it slept; it was killed; it copied what it could. */
  datatype REnd = RSleep | RKilled | RDone

  datatype Event =
    | EnterWrite(p: nat, data: seq<Byte>)
    | EnterRead(p: nat, n: nat)
    | WriteStep(p: nat, k: nat, wend: WEnd)
    | ReadStep(p: nat, k: nat, rend: REnd)
    | CloseWrite
    | CloseRead
    | Kill(p: nat)

  /** A stretch of pipewrite can copy `k` bytes and end like this. */
  predicate CanWrite(room: int, readopen: bool, n: nat, i: nat, k: nat, wend: WEnd) {
    && i + k <= n && k <= room
    && (k > 0 ==> readopen)
    && (wend.WDone? <==> i + k == n)
    && (wend.WClosed? ==> !readopen && k == 0)
    && (wend.WSleep? ==> readopen && k == room)
    && (wend.WFault? ==> readopen && k < room)
    && (wend.WKilled? ==> readopen)
  }

  predicate CanRead(pending: int, writeopen: bool, n: nat, k: nat, rend: REnd) {
    && k <= n && k <= pending
    && (rend.RSleep? || rend.RKilled? ==> k == 0 && pending == 0 && writeopen)
    && (rend.RDone? ==> pending > 0 || !writeopen)
  }

  ghost predicate Enabled(s: State, e: Event) {
    match e
    case EnterWrite(p, data) => p !in s.threads && s.writeopen
    case EnterRead(p, n) => p !in s.threads && s.readopen
    case WriteStep(p, k, wend) =>
      && p in s.threads && s.threads[p].Writer? && !s.threads[p].asleep && s.threads[p].i <= |s.threads[p].data|
      && CanWrite(PIPESIZE - Pending(s), s.readopen, |s.threads[p].data|, s.threads[p].i, k, wend)
    case ReadStep(p, k, rend) =>
      && p in s.threads && s.threads[p].Reader? && !s.threads[p].asleep
      && CanRead(Pending(s), s.writeopen, s.threads[p].n, k, rend)
    case CloseWrite => s.writeopen && forall p :: p in s.threads ==> !s.threads[p].Writer?
    case CloseRead => s.readopen && forall p :: p in s.threads ==> !s.threads[p].Reader?
    case Kill(p) => p in s.threads
  }

  /** The ring after `bytes`, one by one. */
  function PutRing(ring: seq<Byte>, nwrite: nat, bytes: seq<Byte>): (r: seq<Byte>)
    requires |ring| == PIPESIZE
    ensures |r| == PIPESIZE
    decreases |bytes|
  {
    if bytes == [] then ring else PutRing(ring[nwrite % PIPESIZE := bytes[0]], (nwrite + 1) % UINT, bytes[1..])
  }

  /** The next `k` bytes of the ring. */
  function GetRing(ring: seq<Byte>, nread: nat, k: nat): (r: seq<Byte>)
    requires |ring| == PIPESIZE
    decreases k
  {
    if k == 0 then [] else [ring[nread % PIPESIZE]] + GetRing(ring, (nread + 1) % UINT, k - 1)
  }

  ghost function AfterWrite(s: State, p: nat, k: nat, wend: WEnd): State
    requires Enabled(s, WriteStep(p, k, wend)) && |s.ring| == PIPESIZE
  {
    var t := s.threads[p];
    var bytes := t.data[t.i..t.i + k];
    var threads :=
      match wend
      case WDone => WakeReaders(s.threads - {p})
      case WFault => WakeReaders(s.threads - {p})
      case WSleep => WakeReaders(s.threads[p := Writer(t.data, t.i + k, true)])
      case WClosed => s.threads - {p}
      case WKilled => s.threads - {p};
    s.(ring := PutRing(s.ring, s.nwrite, bytes), nwrite := (s.nwrite + k) % UINT, written := s.written + bytes,
        threads := threads)
  }

  ghost function AfterRead(s: State, p: nat, k: nat, rend: REnd): State
    requires Enabled(s, ReadStep(p, k, rend)) && |s.ring| == PIPESIZE
  {
    var threads :=
      match rend
      case RSleep => s.threads[p := Reader(s.threads[p].n, true)]
      case RKilled => s.threads - {p}
      case RDone => WakeWriters(s.threads - {p});
    s.(nread := (s.nread + k) % UINT, taken := s.taken + k, got := s.got + GetRing(s.ring, s.nread, k), threads :=
        threads)
  }

  ghost function Next(s: State, e: Event): State
    requires Enabled(s, e) && |s.ring| == PIPESIZE
  {
    match e
    case EnterWrite(p, data) => s.(threads := s.threads[p := Writer(data, 0, false)])
    case EnterRead(p, n) => s.(threads := s.threads[p := Reader(n, false)])
    case WriteStep(p, k, wend) => AfterWrite(s, p, k, wend)
    case ReadStep(p, k, rend) => AfterRead(s, p, k, rend)
    case CloseWrite => s.(writeopen := false, threads := WakeReaders(s.threads))
    case CloseRead => s.(readopen := false, threads := WakeWriters(s.threads))
    case Kill(p) => s.(threads := s.threads[p := s.threads[p].(asleep := false)])
  }

  // ---------------------------------------------------------------------------
  // Invariants
  // ---------------------------------------------------------------------------

  ghost predicate ThreadsOk(s: State) {
    && (forall p :: p in s.threads && s.threads[p].Writer? ==> s.threads[p].i <= |s.threads[p].data| && s.writeopen)
    && (forall p :: p in s.threads && s.threads[p].Reader? ==> s.readopen)
  }

  ghost predicate Inv(s: State) {
    RingOk(s.ring, s.nread, s.nwrite, s.written, s.taken) && ThreadsOk(s) && s.got == s.written[..s.taken]
  }

  /** A reader sleeps only while the pipe is empty and a writer may come; a writer sleeps
      only while it is full and a reader may come. */
  ghost predicate NoLostWakeup(s: State) {
    && (forall p :: p in s.threads && s.threads[p].Reader? && s.threads[p].asleep ==> Pending(s) == 0 && s.writeopen)
    && (forall p :: p in s.threads && s.threads[p].Writer? && s.threads[p].asleep ==>
           Pending(s) == PIPESIZE && s.readopen)
  }

  lemma {:induction false} PutRingOk(ring: seq<Byte>, nread: nat, nwrite: nat, written: seq<Byte>, taken: nat,
                                     bytes: seq<Byte>)
    requires RingOk(ring, nread, nwrite, written, taken) && |written| + |bytes| <= taken + PIPESIZE
    ensures RingOk(PutRing(ring, nwrite, bytes), nread, (nwrite + |bytes|) % UINT, written + bytes, taken)
    decreases |bytes|
  {
    if bytes == [] {
      assert written + bytes == written;
    } else {
      PutOk(ring, nread, nwrite, written, taken, bytes[0]);
      PutRingOk(ring[nwrite % PIPESIZE := bytes[0]], nread, (nwrite + 1) % UINT, written + [bytes[0]], taken,
                bytes[1..]);
      assert written + [bytes[0]] + bytes[1..] == written + bytes;
      WrapSum(|written|, 1, |bytes| - 1);
    }
  }

  lemma WrapSum(a: nat, b: nat, c: nat)
    ensures ((a % UINT + b) % UINT + c) % UINT == (a % UINT + (b + c)) % UINT
  {
  }

  lemma {:induction false} GetManyOk(ring: seq<Byte>, nread: nat, nwrite: nat, written: seq<Byte>, taken: nat, k: nat)
    requires RingOk(ring, nread, nwrite, written, taken) && taken + k <= |written|
    ensures RingOk(ring, (nread + k) % UINT, nwrite, written, taken + k)
    ensures GetRing(ring, nread, k) == written[taken..taken + k]
    decreases k
  {
    if k > 0 {
      GetOk(ring, nread, nwrite, written, taken);
      GetManyOk(ring, (nread + 1) % UINT, nwrite, written, taken + 1, k - 1);
      WrapSum(taken, 1, k - 1);
    }
  }

  lemma WriteInv(s: State, p: nat, k: nat, wend: WEnd)
    requires Inv(s) && Enabled(s, WriteStep(p, k, wend))
    ensures Inv(AfterWrite(s, p, k, wend))
  {
    var bytes := s.threads[p].data[s.threads[p].i..s.threads[p].i + k];
    PutRingOk(s.ring, s.nread, s.nwrite, s.written, s.taken, bytes);
    assert (s.written + bytes)[..s.taken] == s.written[..s.taken];
    WriteThreads(s, p, k, wend);
  }

  lemma WriteThreads(s: State, p: nat, k: nat, wend: WEnd)
    requires ThreadsOk(s) && Enabled(s, WriteStep(p, k, wend)) && |s.ring| == PIPESIZE
    ensures ThreadsOk(AfterWrite(s, p, k, wend))
  {
  }

  lemma ReadInv(s: State, p: nat, k: nat, rend: REnd)
    requires Inv(s) && Enabled(s, ReadStep(p, k, rend))
    ensures Inv(AfterRead(s, p, k, rend))
  {
    GetManyOk(s.ring, s.nread, s.nwrite, s.written, s.taken, k);
    assert s.written[..s.taken] + s.written[s.taken..s.taken + k] == s.written[..s.taken + k];
  }

  lemma StepInv(s: State, e: Event)
    requires Inv(s) && Enabled(s, e)
    ensures Inv(Next(s, e))
  {
    match e
    case WriteStep(p, k, wend) => WriteInv(s, p, k, wend);
    case ReadStep(p, k, rend) => ReadInv(s, p, k, rend);
    case _ =>
  }

  /** The one way to lose a wakeup: a writer that was killed after copying bytes leaves
      without waking the readers. */
  ghost predicate Forgets(s: State, e: Event) {
    && e.WriteStep? && e.wend.WKilled? && e.k > 0
    && exists q :: q in s.threads && s.threads[q].Reader? && s.threads[q].asleep
  }

  lemma StepWakes(s: State, e: Event)
    requires Inv(s) && NoLostWakeup(s) && Enabled(s, e)
    ensures NoLostWakeup(Next(s, e)) <==> !Forgets(s, e)
  {
    var t := Next(s, e);
    if Forgets(s, e) {
      var q :| q in s.threads && s.threads[q].Reader? && s.threads[q].asleep;
      assert q in t.threads && t.threads[q] == s.threads[q];
    }
  }

  // ---------------------------------------------------------------------------
  // Runs
  // ---------------------------------------------------------------------------

  ghost predicate Start(s: State) {
    && |s.ring| == PIPESIZE && s.nread == s.nwrite == s.taken == 0 && s.readopen && s.writeopen
    && s.threads == map[] && s.written == [] && s.got == []
  }

  /** The states of a run, one after each event. */
  ghost predicate IsRun(states: seq<State>, events: seq<Event>) {
    && |states| == |events| + 1 && Start(states[0])
    && forall k :: 0 <= k < |events| ==>
         |states[k].ring| == PIPESIZE && Enabled(states[k], events[k]) && states[k + 1] == Next(states[k], events[k])
  }

  lemma {:induction false} RunInv(states: seq<State>, events: seq<Event>, k: nat)
    requires IsRun(states, events) && k <= |events|
    ensures Inv(states[k])
  {
    if k > 0 {
      RunInv(states, events, k - 1);
      StepInv(states[k - 1], events[k - 1]);
    }
  }

  /** In every run, across any number of wraps of the counters, what was delivered is a
      prefix of what was written, and at most PIPESIZE bytes are in between. */
  lemma DeliveredInOrder(states: seq<State>, events: seq<Event>, k: nat)
    requires IsRun(states, events) && k <= |events|
    ensures states[k].got <= states[k].written && |states[k].written| - |states[k].got| <= PIPESIZE
  {
    RunInv(states, events, k);
  }

  /** In every run in which no writer is killed half-way while a reader sleeps, nobody
      sleeps who could go on. */
  lemma {:induction false} NobodyForgotten(states: seq<State>, events: seq<Event>, k: nat)
    requires IsRun(states, events) && k <= |events| && forall j :: 0 <= j < |events| ==> !Forgets(states[j], events[j])
    ensures NoLostWakeup(states[k])
  {
    if k > 0 {
      NobodyForgotten(states, events, k - 1);
      RunInv(states, events, k - 1);
      StepWakes(states[k - 1], events[k - 1]);
    }
  }

  /** An open pipe with the threads `t` from which nothing was read. */
  ghost function Unread(ring: seq<Byte>, t: map<nat, Thread>, written: seq<Byte>): State {
    State(ring, 0, |written|, true, true, t, written, [], 0)
  }

  /** A reader of an empty pipe goes to sleep; a writer of two bytes copies one and is
      killed. */
  const KILLRUN: seq<Event> := [EnterRead(0, 1), ReadStep(0, 0, RSleep), EnterWrite(1, [7, 7]), WriteStep(1, 1,
      WKilled)]

  ghost function KillStates(ring: seq<Byte>): seq<State>
    requires |ring| == PIPESIZE
  {
    var sleeper := map[0 := Reader(1, true)];
    [Unread(ring, map[], []), Unread(ring, map[0 := Reader(1, false)], []), Unread(ring, sleeper, []),
     Unread(ring, sleeper[1 := Writer([7, 7], 0, false)], []), Unread(ring[0 := 7], sleeper, [7])]
  }

  /** With such a kill it does happen: at the end of this run one byte is in the pipe,
      nobody is left to write another, and the reader sleeps. */
  lemma KilledWriterForgets(ring: seq<Byte>)
    requires |ring| == PIPESIZE
    ensures var states := KillStates(ring);
            && IsRun(states, KILLRUN) && !NoLostWakeup(states[4])
            && Pending(states[4]) == 1 && states[4].threads == map[0 := Reader(1, true)]
  {
    var states := KillStates(ring);
    assert Next(states[0], KILLRUN[0]) == states[1];
    assert GetRing(ring, 0, 0) == [];
    assert Next(states[1], KILLRUN[1]) == states[2];
    assert Next(states[2], KILLRUN[2]) == states[3];
    var t := states[3].threads[1];
    assert t.data[0..1] == [7] && [7][1..] == [];
    assert PutRing(ring, 0, [7]) == ring[0 := 7];
    assert states[3].threads - {1} == states[4].threads;
    assert Next(states[3], KILLRUN[3]) == states[4];
  }
}
