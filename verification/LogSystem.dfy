/** The buffer cache (bio.c) and the logging system (log.c) running together.

    A state machine whose events are the critical sections of both files: cache
    lookups, sleep-lock hand-overs, disk reads, log_write, begin_op / end_op, the
    disk writes of commit, and sys_sync. Any number of threads take events in any
    order, a crash may happen in any state, and readers may touch any block at any
    time, also while a commit is under way. */
module LogSystem {
  import opened Options
  import opened LogDisk

  /** The root device; buffers start out tagged (0, 0). */
  const DEV: nat := 1

  type Tid = nat
  type OpId = nat

  datatype Buf = Buf(dev: nat, blockno: nat, valid: bool, refcnt: nat, data: Block, lock: Option<Tid>)

  /** A file-system operation between begin_op and end_op: `used` counts the
      blocks it has added to the transaction. */
  datatype Op = Op(id: OpId, used: nat)

  /** One change of a home block, made by an operation. */
  datatype Change = Change(op: OpId, block: nat, data: Block)

  /** A sys_sync call that has to wait: the commit count it waits for and the
      operations that had ended when it was called. */
  datatype Waiting = Waiting(target: nat, seen: set<OpId>)

  /** Where the committing thread is. `Logging(k)`: k blocks copied to the log.
      `Installing(k)`: header written, k blocks installed. `Finishing`: header
      erased. */
  datatype Phase = Open | Logging(k: nat) | Installing(k: nat) | Finishing

  datatype State = State(
    bufs: seq<Buf>,
    refs: seq<multiset<Tid>>,   // references taken by bget and not yet dropped by brelse
    unlogged: set<nat>,         // locked buffers changed since their last log_write
    disk: Disk,
    lh: seq<int>,
    phase: Phase,
    committer: Tid,
    ops: map<Tid, Op>,
    outstanding: int,
    ncommit: nat,
    syncs: map<Tid, Waiting>,
    // history
    origin: Disk,
    hist: seq<Change>,          // every change, in the order it was made
    durable: nat,               // hist[..durable] has passed the commit point
    installed: nat,             // hist[..installed] was home when the last commit cleared the log
    logical: Disk,
    stable: Disk,
    base: Disk,
    nextId: OpId,
    ended: set<OpId>,
    committed: set<OpId>,
    synced: set<OpId>)

  datatype Config = Config(l: Layout, maxop: nat)

  datatype Event =
    | GetHit(t: Tid, b: nat, i: nat)
    | GetMiss(t: Tid, b: nat, i: nat)
    | Lock(t: Tid, i: nat)
    | Fill(t: Tid, i: nat)
    | Modify(t: Tid, i: nat, data: Block)
    | LogWrite(t: Tid, i: nat)
    | Unlock(t: Tid, i: nat)
    | Drop(t: Tid, i: nat)
    | Begin(t: Tid)
    | End(t: Tid)
    | CopyToLog(to: nat, from: nat)
    | WriteHead(i: nat)
    | Install(lb: nat, db: nat)
    | Clear(i: nat)
    | Finish
    | SyncCall(t: Tid)
    | SyncReturn(t: Tid)

  predicate Tagged(bufs: seq<Buf>, i: nat, b: int) {
    i < |bufs| && bufs[i].dev == DEV && bufs[i].blockno == b
  }

  /** bread has returned buffer `i` to `t`: locked and filled. */
  predicate Owns(bufs: seq<Buf>, t: Tid, i: nat) {
    i < |bufs| && bufs[i].dev == DEV && bufs[i].valid && bufs[i].lock == Some(t)
  }

  predicate CanGetHit(c: Config, s: State, t: Tid, b: nat, i: nat) {
    b < c.l.size && Tagged(s.bufs, i, b) && i < |s.refs|
  }

  function DoGetHit(c: Config, s: State, t: Tid, b: nat, i: nat): (r: State)
    requires CanGetHit(c, s, t, b, i)
  {
    s.(bufs := s.bufs[i := s.bufs[i].(refcnt := s.bufs[i].refcnt + 1)],
       refs := s.refs[i := s.refs[i] + multiset{t}])
  }

  predicate CanGetMiss(c: Config, s: State, t: Tid, b: nat, i: nat) {
    && b < c.l.size && i < |s.bufs| && i < |s.refs| && s.bufs[i].refcnt == 0
    && forall j :: 0 <= j < |s.bufs| ==> !Tagged(s.bufs, j, b)
  }

  function DoGetMiss(c: Config, s: State, t: Tid, b: nat, i: nat): (r: State)
    requires CanGetMiss(c, s, t, b, i)
  {
    s.(bufs := s.bufs[i := s.bufs[i].(dev := DEV, blockno := b, valid := false, refcnt := 1)],
       refs := s.refs[i := s.refs[i] + multiset{t}])
  }

  predicate CanLock(c: Config, s: State, t: Tid, i: nat) {
    i < |s.bufs| && i < |s.refs| && t in s.refs[i] && s.bufs[i].lock == None
  }

  function DoLock(c: Config, s: State, t: Tid, i: nat): (r: State)
    requires CanLock(c, s, t, i)
  {
    s.(bufs := s.bufs[i := s.bufs[i].(lock := Some(t))])
  }

  predicate CanFill(c: Config, s: State, t: Tid, i: nat) {
    && i < |s.bufs| && s.bufs[i].lock == Some(t) && !s.bufs[i].valid
    && s.bufs[i].dev == DEV && s.bufs[i].blockno < |s.disk|
  }

  function DoFill(c: Config, s: State, t: Tid, i: nat): (r: State)
    requires CanFill(c, s, t, i)
  {
    s.(bufs := s.bufs[i := s.bufs[i].(data := s.disk[s.bufs[i].blockno], valid := true)])
  }

  predicate CanModify(c: Config, s: State, t: Tid, i: nat, data: Block) {
    && Owns(s.bufs, t, i) && t in s.ops
    && c.l.Home(s.bufs[i].blockno) && s.bufs[i].blockno < |s.logical|
  }

  function DoModify(c: Config, s: State, t: Tid, i: nat, data: Block): (r: State)
    requires CanModify(c, s, t, i, data)
  {
    var b := s.bufs[i].blockno;
    s.(bufs := s.bufs[i := s.bufs[i].(data := data)],
       unlogged := s.unlogged + {i},
       logical := s.logical[b := data],
       hist := s.hist + [Change(s.ops[t].id, b, data)])
  }

  predicate CanLogWrite(c: Config, s: State, t: Tid, i: nat) {
    && Owns(s.bufs, t, i) && t in s.ops && c.l.Home(s.bufs[i].blockno) && |s.lh| < c.l.cap
    && (s.bufs[i].blockno !in s.lh ==> s.ops[t].used < c.maxop)
  }

  function DoLogWrite(c: Config, s: State, t: Tid, i: nat): (r: State)
    requires CanLogWrite(c, s, t, i)
  {
    var b := s.bufs[i].blockno;
    if b in s.lh then
      s.(unlogged := s.unlogged - {i})
    else
      s.(unlogged := s.unlogged - {i},
         bufs := s.bufs[i := s.bufs[i].(refcnt := s.bufs[i].refcnt + 1)],
         lh := s.lh + [b],
         ops := s.ops[t := s.ops[t].(used := s.ops[t].used + 1)])
  }

  predicate CanUnlock(c: Config, s: State, t: Tid, i: nat) {
    i < |s.bufs| && s.bufs[i].lock == Some(t) && i !in s.unlogged
  }

  function DoUnlock(c: Config, s: State, t: Tid, i: nat): (r: State)
    requires CanUnlock(c, s, t, i)
  {
    s.(bufs := s.bufs[i := s.bufs[i].(lock := None)])
  }

  predicate CanDrop(c: Config, s: State, t: Tid, i: nat) {
    && i < |s.bufs| && i < |s.refs| && t in s.refs[i] && s.bufs[i].refcnt > 0
    && (s.bufs[i].lock == Some(t) ==> s.refs[i][t] > 1)
  }

  function DoDrop(c: Config, s: State, t: Tid, i: nat): (r: State)
    requires CanDrop(c, s, t, i)
  {
    s.(bufs := s.bufs[i := s.bufs[i].(refcnt := s.bufs[i].refcnt - 1)],
       refs := s.refs[i := s.refs[i] - multiset{t}])
  }

  predicate CanBegin(c: Config, s: State, t: Tid) {
    t !in s.ops && s.phase.Open? && |s.lh| + (s.outstanding + 1) * c.maxop <= c.l.cap
  }

  function DoBegin(c: Config, s: State, t: Tid): (r: State)
    requires CanBegin(c, s, t)
  {
    s.(outstanding := s.outstanding + 1, ops := s.ops[t := Op(s.nextId, 0)], nextId := s.nextId + 1)
  }

  predicate CanEnd(c: Config, s: State, t: Tid) {
    t in s.ops && forall i :: i in s.unlogged && i < |s.bufs| ==> s.bufs[i].lock != Some(t)
  }

  function DoEnd(c: Config, s: State, t: Tid): (r: State)
    requires CanEnd(c, s, t)
  {
    var r := s.(outstanding := s.outstanding - 1, ops := s.ops - {t}, ended := s.ended + {s.ops[t].id});
    if r.outstanding == 0 then r.(phase := Logging(0), committer := t) else r
  }

  predicate CanCopyToLog(c: Config, s: State, to: nat, from: nat) {
    && s.phase.Logging? && s.phase.k < |s.lh| && c.l.start + 1 + s.phase.k < |s.disk|
    && Owns(s.bufs, s.committer, to) && s.bufs[to].blockno == c.l.start + 1 + s.phase.k
    && Owns(s.bufs, s.committer, from) && s.bufs[from].blockno == s.lh[s.phase.k]
  }

  function DoCopyToLog(c: Config, s: State, to: nat, from: nat): (r: State)
    requires CanCopyToLog(c, s, to, from)
  {
    s.(bufs := s.bufs[to := s.bufs[to].(data := s.bufs[from].data)],
       disk := s.disk[s.bufs[to].blockno := s.bufs[from].data],
       phase := Logging(s.phase.k + 1))
  }

  predicate CanWriteHead(c: Config, s: State, i: nat) {
    && s.phase.Logging? && s.phase.k == |s.lh| > 0 && |s.lh| + 1 < WORDS
    && Owns(s.bufs, s.committer, i) && s.bufs[i].blockno == c.l.start < |s.disk|
  }

  function DoWriteHead(c: Config, s: State, i: nat): (r: State)
    requires CanWriteHead(c, s, i)
  {
    var h := PutHeader(s.bufs[i].data, s.lh);
    s.(bufs := s.bufs[i := s.bufs[i].(data := h)], disk := s.disk[s.bufs[i].blockno := h],
       phase := Installing(0), durable := |s.hist|, stable := s.logical, committed := s.ended)
  }

  predicate CanInstall(c: Config, s: State, lb: nat, db: nat) {
    && s.phase.Installing? && s.phase.k < |s.lh| && 0 <= s.lh[s.phase.k] < |s.disk|
    && Owns(s.bufs, s.committer, lb) && s.bufs[lb].blockno == c.l.start + 1 + s.phase.k
    && Owns(s.bufs, s.committer, db) && s.bufs[db].blockno == s.lh[s.phase.k]
    && s.bufs[db].refcnt > 0
  }

  function DoInstall(c: Config, s: State, lb: nat, db: nat): (r: State)
    requires CanInstall(c, s, lb, db)
  {
    s.(bufs := s.bufs[db := s.bufs[db].(data := s.bufs[lb].data, refcnt := s.bufs[db].refcnt - 1)],
       disk := s.disk[s.bufs[db].blockno := s.bufs[lb].data],
       phase := Installing(s.phase.k + 1))
  }

  predicate CanClear(c: Config, s: State, i: nat) {
    && s.phase.Installing? && s.phase.k == |s.lh|
    && Owns(s.bufs, s.committer, i) && s.bufs[i].blockno == c.l.start < |s.disk|
  }

  function DoClear(c: Config, s: State, i: nat): (r: State)
    requires CanClear(c, s, i)
  {
    var h := PutHeader(s.bufs[i].data, []);
    s.(bufs := s.bufs[i := s.bufs[i].(data := h)], disk := s.disk[s.bufs[i].blockno := h],
       lh := [], phase := Finishing, installed := |s.hist|, base := s.logical)
  }

  predicate CanFinish(c: Config, s: State) {
    s.phase.Finishing? || (s.phase == Logging(0) && s.lh == [])
  }

  function DoFinish(c: Config, s: State): (r: State)
    requires CanFinish(c, s)
  {
    s.(phase := Open, ncommit := s.ncommit + 1, synced := s.ended, committed := s.ended,
       durable := |s.hist|, stable := s.logical, installed := |s.hist|, base := s.logical)
  }

  predicate CanSyncCall(c: Config, s: State, t: Tid) {
    t !in s.syncs
  }

  function DoSyncCall(c: Config, s: State, t: Tid): (r: State)
    requires CanSyncCall(c, s, t)
  {
    if !s.phase.Open? || s.outstanding > 0 then
      s.(syncs := s.syncs[t := Waiting(s.ncommit + 1, s.ended)])
    else
      s
  }

  predicate CanSyncReturn(c: Config, s: State, t: Tid) {
    t in s.syncs && s.ncommit >= s.syncs[t].target
  }

  function DoSyncReturn(c: Config, s: State, t: Tid): (r: State)
    requires CanSyncReturn(c, s, t)
  {
    s.(syncs := s.syncs - {t})
  }

  /** What the code and its callers guarantee when the event happens: the guards
      in the source, and the rules of use that log.c states (change blocks inside
      a transaction, log_write a changed buffer before brelse, at most MAXOPBLOCKS
      new blocks per operation). */
  predicate Enabled(c: Config, s: State, e: Event) {
    match e
    case GetHit(t, b, i) => CanGetHit(c, s, t, b, i)
    case GetMiss(t, b, i) => CanGetMiss(c, s, t, b, i)
    case Lock(t, i) => CanLock(c, s, t, i)
    case Fill(t, i) => CanFill(c, s, t, i)
    case Modify(t, i, data) => CanModify(c, s, t, i, data)
    case LogWrite(t, i) => CanLogWrite(c, s, t, i)
    case Unlock(t, i) => CanUnlock(c, s, t, i)
    case Drop(t, i) => CanDrop(c, s, t, i)
    case Begin(t) => CanBegin(c, s, t)
    case End(t) => CanEnd(c, s, t)
    case CopyToLog(to, from) => CanCopyToLog(c, s, to, from)
    case WriteHead(i) => CanWriteHead(c, s, i)
    case Install(lb, db) => CanInstall(c, s, lb, db)
    case Clear(i) => CanClear(c, s, i)
    case Finish => CanFinish(c, s)
    case SyncCall(t) => CanSyncCall(c, s, t)
    case SyncReturn(t) => CanSyncReturn(c, s, t)
  }

  function Do(c: Config, s: State, e: Event): (r: State)
    requires Enabled(c, s, e)
  {
    match e
    case GetHit(t, b, i) => DoGetHit(c, s, t, b, i)
    case GetMiss(t, b, i) => DoGetMiss(c, s, t, b, i)
    case Lock(t, i) => DoLock(c, s, t, i)
    case Fill(t, i) => DoFill(c, s, t, i)
    case Modify(t, i, data) => DoModify(c, s, t, i, data)
    case LogWrite(t, i) => DoLogWrite(c, s, t, i)
    case Unlock(t, i) => DoUnlock(c, s, t, i)
    case Drop(t, i) => DoDrop(c, s, t, i)
    case Begin(t) => DoBegin(c, s, t)
    case End(t) => DoEnd(c, s, t)
    case CopyToLog(to, from) => DoCopyToLog(c, s, to, from)
    case WriteHead(i) => DoWriteHead(c, s, i)
    case Install(lb, db) => DoInstall(c, s, lb, db)
    case Clear(i) => DoClear(c, s, i)
    case Finish => DoFinish(c, s)
    case SyncCall(t) => DoSyncCall(c, s, t)
    case SyncReturn(t) => DoSyncReturn(c, s, t)
  }

  // ---------------------------------------------------------------------------
  // Invariant
  // ---------------------------------------------------------------------------

  /** The blocks that log_write has pinned in the cache and install_trans has not
      unpinned yet. */
  function Pinned(lh: seq<int>, p: Phase): (r: set<int>) {
    if p.Installing? && p.k <= |lh| then set b | b in lh[p.k..] else set b | b in lh
  }

  ghost predicate UniqueTags(bufs: seq<Buf>) {
    forall i, j :: 0 <= i < j < |bufs| && bufs[i].dev == DEV && bufs[j].dev == DEV
      ==> bufs[i].blockno != bufs[j].blockno
  }

  ghost predicate RefCounts(bufs: seq<Buf>, refs: seq<multiset<Tid>>, pinned: set<int>) {
    && |refs| == |bufs|
    && forall i :: 0 <= i < |bufs| ==>
         bufs[i].refcnt == |refs[i]| + if bufs[i].dev == DEV && bufs[i].blockno in pinned then 1 else 0
  }

  ghost predicate LocksHeld(bufs: seq<Buf>, refs: seq<multiset<Tid>>) {
    && |refs| == |bufs|
    && forall i :: 0 <= i < |bufs| && bufs[i].lock.Some? ==> bufs[i].lock.value in refs[i]
  }

  ghost predicate Holds(bufs: seq<Buf>, i: nat, b: int) {
    Tagged(bufs, i, b) && bufs[i].valid
  }

  ghost predicate PinnedCached(bufs: seq<Buf>, pinned: set<int>) {
    forall b :: b in pinned ==> exists i :: Holds(bufs, i, b)
  }

  /** The contents that a read of block `b` must see. */
  ghost function Truth(l: Layout, disk: Disk, logical: Disk, b: nat): Block
    requires b < |disk| == |logical|
  {
    if l.InLog(b) then disk[b] else logical[b]
  }

  ghost predicate Coherent(l: Layout, bufs: seq<Buf>, disk: Disk, logical: Disk) {
    && |disk| == |logical| == l.size
    && forall i :: 0 <= i < |bufs| && bufs[i].dev == DEV ==>
         && bufs[i].blockno < l.size
         && (bufs[i].valid ==> bufs[i].data == Truth(l, disk, logical, bufs[i].blockno))
  }

  /** A home block that is out of date on disk is kept in the cache. */
  ghost predicate DirtyKept(l: Layout, bufs: seq<Buf>, disk: Disk, logical: Disk, pinned: set<int>,
                            unlogged: set<nat>) {
    && |disk| == |logical| == l.size
    && forall b :: l.Home(b) ==>
         disk[b] == logical[b] || b in pinned || exists i :: i in unlogged && Holds(bufs, i, b)
  }

  ghost predicate UnloggedHeld(l: Layout, bufs: seq<Buf>, ops: map<Tid, Op>, unlogged: set<nat>) {
    forall i :: i in unlogged ==>
      && i < |bufs| && bufs[i].dev == DEV && bufs[i].valid && l.Home(bufs[i].blockno)
      && bufs[i].lock.Some? && bufs[i].lock.value in ops
  }

  ghost predicate CacheInv(c: Config, s: State) {
    var pinned := Pinned(s.lh, s.phase);
    && UniqueTags(s.bufs)
    && RefCounts(s.bufs, s.refs, pinned)
    && LocksHeld(s.bufs, s.refs)
    && PinnedCached(s.bufs, pinned)
    && Coherent(c.l, s.bufs, s.disk, s.logical)
    && DirtyKept(c.l, s.bufs, s.disk, s.logical, pinned, s.unlogged)
    && UnloggedHeld(c.l, s.bufs, s.ops, s.unlogged)
  }

  ghost predicate Distinct(lh: seq<int>) {
    forall i, j :: 0 <= i < j < |lh| ==> lh[i] != lh[j]
  }

  ghost function Pick(ts: set<Tid>): (t: Tid)
    requires ts != {}
    ensures t in ts
  {
    var t :| t in ts; t
  }

  /** Log space reserved by the running operations and not yet used. */
  ghost function Spare(ops: map<Tid, Op>, maxop: nat): int
    decreases ops.Keys
  {
    if ops.Keys == {} then 0
    else
      var t := Pick(ops.Keys);
      maxop - ops[t].used + Spare(ops - {t}, maxop)
  }

  ghost predicate LogInv(c: Config, s: State) {
    && Distinct(s.lh) && LoggedOk(c.l, s.lh)
    && s.outstanding == |s.ops.Keys|
    && (!s.phase.Open? ==> s.ops == map[])
    && (s.phase.Open? && s.ops == map[] ==> s.lh == [])
    && (forall t :: t in s.ops ==> s.ops[t].used <= c.maxop)
    && |s.lh| + Spare(s.ops, c.maxop) <= c.l.cap
    && (s.phase.Logging? || s.phase.Installing? ==> s.phase.k <= |s.lh|)
    && (s.phase.Finishing? ==> s.lh == [])
  }

  ghost predicate SameHome(l: Layout, d: Disk, e: Disk) {
    && |d| == |e| == l.size
    && forall b :: l.Home(b) ==> d[b] == e[b]
  }

  /** What a crash would find on the disk, phase by phase. */
  ghost predicate CrashInv(c: Config, s: State) {
    && DiskOk(c.l, s.disk) && |s.logical| == |s.stable| == |s.base| == c.l.size
    && (s.phase.Open? || s.phase.Logging? ==>
          && Header(c.l, s.disk[c.l.start]) == []
          && SameHome(c.l, s.disk, s.base) && s.stable == s.base)
    && (s.phase.Logging? ==> LogCopied(c.l, s.disk, s.logical, s.lh, s.phase.k))
    && (s.phase.Installing? ==>
          && Header(c.l, s.disk[c.l.start]) == s.lh
          && LogCopied(c.l, s.disk, s.logical, s.lh, |s.lh|)
          && s.stable == s.logical
          && Mixed(c.l, s.disk, s.base, s.logical, s.lh, s.phase.k))
    && (s.phase.Finishing? ==>
          && Header(c.l, s.disk[c.l.start]) == []
          && SameHome(c.l, s.disk, s.logical) && s.stable == s.base == s.logical)
  }

  ghost predicate LogCopied(l: Layout, disk: Disk, logical: Disk, lh: seq<int>, k: nat) {
    && l.start + k < |disk| && k <= |lh|
    && (forall j :: 0 <= j < |lh| ==> 0 <= lh[j] < |logical|)
    && forall j :: 0 <= j < k ==> disk[l.start + 1 + j] == logical[lh[j]]
  }

  /** During installation the first `k` logged blocks are new and the others are
      as at the end of the previous commit. */
  ghost predicate Mixed(l: Layout, disk: Disk, base: Disk, logical: Disk, lh: seq<int>, k: nat) {
    && |disk| == |base| == |logical| == l.size && k <= |lh|
    && forall b :: l.Home(b) ==> disk[b] == if b in lh[..k] then logical[b] else base[b]
  }

  // ---------------------------------------------------------------------------
  // History
  // ---------------------------------------------------------------------------

  ghost function Replay(d: Disk, hist: seq<Change>): (r: Disk)
    ensures |r| == |d|
  {
    if hist == [] then d
    else
      var h := hist[|hist| - 1];
      var e := Replay(d, hist[..|hist| - 1]);
      if h.block < |e| then e[h.block := h.data] else e
  }

  /** The cut `hist[..durable]` splits no operation: each operation is entirely
      before it or entirely after it. */
  ghost predicate CutsNoOp(hist: seq<Change>, cut: nat, before: set<OpId>) {
    && cut <= |hist|
    && (forall j :: 0 <= j < cut ==> hist[j].op in before)
    && (forall j :: cut <= j < |hist| ==> hist[j].op !in before)
  }

  ghost predicate Running(ops: map<Tid, Op>, id: OpId) {
    exists t :: t in ops && ops[t].id == id
  }

  /** The three versions of the contents, as replays of the history. */
  ghost predicate Versions(origin: Disk, hist: seq<Change>, durable: nat, installed: nat, logical: Disk, stable: Disk,
                           base: Disk) {
    && logical == Replay(origin, hist)
    && installed <= durable <= |hist|
    && stable == Replay(origin, hist[..durable])
    && base == Replay(origin, hist[..installed])
  }

  /** Which operations the durable and the installed part of the history belong to. */
  ghost predicate Cuts(hist: seq<Change>, durable: nat, installed: nat, ended: set<OpId>, committed: set<OpId>,
                       synced: set<OpId>) {
    && CutsNoOp(hist, durable, committed)
    && synced <= committed <= ended
    && (forall j {:trigger hist[j]} :: installed <= j < |hist| ==> hist[j].op !in synced)
  }

  /** Ids are given out once; a change belongs to an ended or a running operation. */
  ghost predicate Ids(hist: seq<Change>, ops: map<Tid, Op>, nextId: OpId, ended: set<OpId>) {
    && (forall x :: x in ended ==> x < nextId)
    && (forall t :: t in ops ==> ops[t].id < nextId && ops[t].id !in ended)
    && (forall t, u :: t in ops && u in ops && t != u ==> ops[t].id != ops[u].id)
    && (forall j :: 0 <= j < |hist| ==> hist[j].op in ended || Running(ops, hist[j].op))
  }

  ghost predicate Progress(s: State) {
    && (s.phase.Open? && s.ops == map[] ==> s.synced == s.ended)
    && (s.phase.Installing? || s.phase.Finishing? ==> s.durable == |s.hist| && s.committed == s.ended)
    && (s.phase.Finishing? ==> s.installed == |s.hist|)
  }

  ghost predicate SyncsOk(syncs: map<Tid, Waiting>, ncommit: nat, ended: set<OpId>, synced: set<OpId>) {
    forall t :: t in syncs ==>
      && syncs[t].seen <= ended
      && (ncommit >= syncs[t].target ==> syncs[t].seen <= synced)
      && syncs[t].target <= ncommit + 1
  }

  ghost predicate HistInv(c: Config, s: State) {
    && Versions(s.origin, s.hist, s.durable, s.installed, s.logical, s.stable, s.base)
    && Cuts(s.hist, s.durable, s.installed, s.ended, s.committed, s.synced)
    && Ids(s.hist, s.ops, s.nextId, s.ended)
    && Progress(s)
    && SyncsOk(s.syncs, s.ncommit, s.ended, s.synced)
  }

  ghost predicate Inv(c: Config, s: State) {
    && c.l.Valid()
    && CacheInv(c, s) && LogInv(c, s) && CrashInv(c, s) && HistInv(c, s)
  }

  // ---------------------------------------------------------------------------
  // Every event keeps the cache invariant
  // ---------------------------------------------------------------------------

  /** Same tags and contents; only reference counts and locks may differ. */
  ghost predicate SameContents(a: seq<Buf>, b: seq<Buf>) {
    && |a| == |b|
    && forall i :: 0 <= i < |a| ==>
         a[i].dev == b[i].dev && a[i].blockno == b[i].blockno && a[i].valid == b[i].valid && a[i].data == b[i].data
  }

  ghost predicate ContentsInv(l: Layout, bufs: seq<Buf>, disk: Disk, logical: Disk, pinned: set<int>,
                              unlogged: set<nat>) {
    && UniqueTags(bufs)
    && PinnedCached(bufs, pinned)
    && Coherent(l, bufs, disk, logical)
    && DirtyKept(l, bufs, disk, logical, pinned, unlogged)
  }

  lemma FrameContents(l: Layout, a: seq<Buf>, b: seq<Buf>, disk: Disk, logical: Disk, pinned: set<int>,
                      unlogged: set<nat>)
    requires SameContents(a, b)
    requires ContentsInv(l, a, disk, logical, pinned, unlogged)
    ensures ContentsInv(l, b, disk, logical, pinned, unlogged)
  {
    assert forall i, x :: Holds(a, i, x) == Holds(b, i, x);
    assert UniqueTags(b);
  }

  lemma CacheGetHit(c: Config, s: State, t: Tid, b: nat, i: nat)
    requires CacheInv(c, s) && CanGetHit(c, s, t, b, i)
    ensures CacheInv(c, DoGetHit(c, s, t, b, i))
  {
    var r := DoGetHit(c, s, t, b, i);
    FrameContents(c.l, s.bufs, r.bufs, s.disk, s.logical, Pinned(s.lh, s.phase), s.unlogged);
  }

  lemma CacheLock(c: Config, s: State, t: Tid, i: nat)
    requires CacheInv(c, s) && CanLock(c, s, t, i)
    ensures CacheInv(c, DoLock(c, s, t, i))
  {
    var r := DoLock(c, s, t, i);
    FrameContents(c.l, s.bufs, r.bufs, s.disk, s.logical, Pinned(s.lh, s.phase), s.unlogged);
  }

  lemma CacheUnlock(c: Config, s: State, t: Tid, i: nat)
    requires CacheInv(c, s) && CanUnlock(c, s, t, i)
    ensures CacheInv(c, DoUnlock(c, s, t, i))
  {
    var r := DoUnlock(c, s, t, i);
    FrameContents(c.l, s.bufs, r.bufs, s.disk, s.logical, Pinned(s.lh, s.phase), s.unlogged);
  }

  lemma CacheDrop(c: Config, s: State, t: Tid, i: nat)
    requires CacheInv(c, s) && CanDrop(c, s, t, i)
    ensures CacheInv(c, DoDrop(c, s, t, i))
  {
    var r := DoDrop(c, s, t, i);
    FrameContents(c.l, s.bufs, r.bufs, s.disk, s.logical, Pinned(s.lh, s.phase), s.unlogged);
  }

  /** An unreferenced buffer is not pinned, not locked and not dirty, so it may be
      recycled for another block. */
  lemma UnreferencedIsClean(c: Config, s: State, i: nat)
    requires CacheInv(c, s) && i < |s.bufs| && s.bufs[i].refcnt == 0
    ensures |s.refs[i]| == 0 && s.bufs[i].lock == None && i !in s.unlogged
    ensures s.bufs[i].dev == DEV ==>
              && s.bufs[i].blockno !in Pinned(s.lh, s.phase)
              && (c.l.Home(s.bufs[i].blockno) ==> s.disk[s.bufs[i].blockno] == s.logical[s.bufs[i].blockno])
              && (s.bufs[i].valid ==> s.bufs[i].data == s.disk[s.bufs[i].blockno])
  {
    assert |s.refs[i]| == 0;
    assert s.bufs[i].dev == DEV ==> forall k :: k in s.unlogged ==> !Holds(s.bufs, k, s.bufs[i].blockno);
  }

  lemma RecycledTags(bufs: seq<Buf>, i: nat, b: nat, nb: Buf)
    requires UniqueTags(bufs) && i < |bufs| && nb.dev == DEV && nb.blockno == b
    requires forall j :: 0 <= j < |bufs| ==> !Tagged(bufs, j, b)
    ensures UniqueTags(bufs[i := nb])
  {
    var n := bufs[i := nb];
    forall j | 0 <= j < |n| && j != i && n[j].dev == DEV ensures n[j].blockno != b { assert !Tagged(bufs, j, b); }
  }

  lemma RecycleContents(l: Layout, bufs: seq<Buf>, i: nat, b: nat, nb: Buf, disk: Disk, logical: Disk,
                        pinned: set<int>, unlogged: set<nat>)
    requires ContentsInv(l, bufs, disk, logical, pinned, unlogged)
    requires i < |bufs| && i !in unlogged && b < l.size
    requires bufs[i].dev == DEV ==> bufs[i].blockno !in pinned
    requires forall j :: 0 <= j < |bufs| ==> !Tagged(bufs, j, b)
    requires nb.dev == DEV && nb.blockno == b && !nb.valid
    ensures ContentsInv(l, bufs[i := nb], disk, logical, pinned, unlogged)
  {
    var n := bufs[i := nb];
    assert forall k, x :: k != i && Holds(bufs, k, x) ==> Holds(n, k, x);
    RecycledTags(bufs, i, b, nb);
    forall x | x in pinned
      ensures exists k :: Holds(n, k, x)
    {
      var k :| Holds(bufs, k, x);
      assert Holds(n, k, x);
    }
  }

  lemma CacheGetMiss(c: Config, s: State, t: Tid, b: nat, i: nat)
    requires CacheInv(c, s) && CanGetMiss(c, s, t, b, i)
    ensures CacheInv(c, DoGetMiss(c, s, t, b, i))
  {
    var r := DoGetMiss(c, s, t, b, i);
    var pinned := Pinned(s.lh, s.phase);
    UnreferencedIsClean(c, s, i);
    assert b !in pinned;
    RecycleContents(c.l, s.bufs, i, b, r.bufs[i], s.disk, s.logical, pinned, s.unlogged);
  }

  /** A block without a valid buffer is up to date on the disk. */
  lemma UncachedIsOnDisk(c: Config, s: State, i: nat)
    requires CacheInv(c, s) && i < |s.bufs| && s.bufs[i].dev == DEV && !s.bufs[i].valid
    ensures s.disk[s.bufs[i].blockno] == Truth(c.l, s.disk, s.logical, s.bufs[i].blockno)
  {
    assert forall k :: !Holds(s.bufs, k, s.bufs[i].blockno);
  }

  lemma FillContents(l: Layout, bufs: seq<Buf>, i: nat, nb: Buf, disk: Disk, logical: Disk, pinned: set<int>,
                     unlogged: set<nat>)
    requires ContentsInv(l, bufs, disk, logical, pinned, unlogged)
    requires i < |bufs| && bufs[i].dev == nb.dev == DEV && nb.blockno == bufs[i].blockno && nb.valid
    requires nb.data == Truth(l, disk, logical, nb.blockno)
    ensures ContentsInv(l, bufs[i := nb], disk, logical, pinned, unlogged)
  {
    var n := bufs[i := nb];
    assert forall k, x :: Holds(bufs, k, x) ==> Holds(n, k, x);
    assert UniqueTags(n);
  }

  lemma CacheFill(c: Config, s: State, t: Tid, i: nat)
    requires CacheInv(c, s) && CanFill(c, s, t, i)
    ensures CacheInv(c, DoFill(c, s, t, i))
  {
    var r := DoFill(c, s, t, i);
    UncachedIsOnDisk(c, s, i);
    FillContents(c.l, s.bufs, i, r.bufs[i], s.disk, s.logical, Pinned(s.lh, s.phase), s.unlogged);
  }

  lemma ModifyContents(l: Layout, bufs: seq<Buf>, i: nat, data: Block, disk: Disk, logical: Disk, pinned: set<int>,
                       unlogged: set<nat>)
    requires ContentsInv(l, bufs, disk, logical, pinned, unlogged)
    requires i < |bufs| && bufs[i].dev == DEV && bufs[i].valid && l.Home(bufs[i].blockno)
    ensures ContentsInv(l, bufs[i := bufs[i].(data := data)], disk, logical[bufs[i].blockno := data], pinned,
        unlogged + {i})
  {
    var n := bufs[i := bufs[i].(data := data)];
    assert forall k, x :: Holds(bufs, k, x) == Holds(n, k, x);
    assert Holds(n, i, bufs[i].blockno);
    assert UniqueTags(n);
    assert forall j :: 0 <= j < |bufs| && j != i && bufs[j].dev == DEV ==> bufs[j].blockno != bufs[i].blockno;
  }

  lemma CacheModify(c: Config, s: State, t: Tid, i: nat, data: Block)
    requires CacheInv(c, s) && CanModify(c, s, t, i, data)
    ensures CacheInv(c, DoModify(c, s, t, i, data))
  {
    ModifyContents(c.l, s.bufs, i, data, s.disk, s.logical, Pinned(s.lh, s.phase), s.unlogged);
  }

  /** A write of a log-area block through its buffer. */
  lemma LogAreaContents(l: Layout, bufs: seq<Buf>, i: nat, data: Block, disk: Disk, logical: Disk, pinned: set<int>,
                        unlogged: set<nat>)
    requires ContentsInv(l, bufs, disk, logical, pinned, unlogged)
    requires i < |bufs| && bufs[i].dev == DEV && l.InLog(bufs[i].blockno)
    ensures ContentsInv(l, bufs[i := bufs[i].(data := data)], disk[bufs[i].blockno := data], logical, pinned, unlogged)
  {
    var n := bufs[i := bufs[i].(data := data)];
    assert forall k, x :: Holds(bufs, k, x) == Holds(n, k, x);
    assert UniqueTags(n);
    assert forall j :: 0 <= j < |bufs| && j != i && bufs[j].dev == DEV ==> bufs[j].blockno != bufs[i].blockno;
  }

  lemma CacheCopyToLog(c: Config, s: State, to: nat, from: nat)
    requires CacheInv(c, s) && LogInv(c, s) && CanCopyToLog(c, s, to, from)
    ensures CacheInv(c, DoCopyToLog(c, s, to, from))
  {
    LogAreaContents(c.l, s.bufs, to, s.bufs[from].data, s.disk, s.logical, Pinned(s.lh, s.phase), s.unlogged);
    assert Pinned(s.lh, s.phase) == Pinned(s.lh, Logging(s.phase.k + 1));
  }

  lemma CacheWriteHead(c: Config, s: State, i: nat)
    requires CacheInv(c, s) && LogInv(c, s) && CanWriteHead(c, s, i)
    ensures CacheInv(c, DoWriteHead(c, s, i))
  {
    LogAreaContents(c.l, s.bufs, i, PutHeader(s.bufs[i].data, s.lh), s.disk, s.logical, Pinned(s.lh, s.phase),
                    s.unlogged);
    assert Pinned(s.lh, s.phase) == Pinned(s.lh, Installing(0));
  }

  lemma CacheClear(c: Config, s: State, i: nat)
    requires CacheInv(c, s) && LogInv(c, s) && CanClear(c, s, i)
    ensures CacheInv(c, DoClear(c, s, i))
  {
    LogAreaContents(c.l, s.bufs, i, PutHeader(s.bufs[i].data, []), s.disk, s.logical, Pinned(s.lh, s.phase),
                    s.unlogged);
    assert Pinned(s.lh, s.phase) == Pinned([], Finishing);
  }

  lemma PinCounts(bufs: seq<Buf>, refs: seq<multiset<Tid>>, i: nat, pinned: set<int>)
    requires UniqueTags(bufs) && RefCounts(bufs, refs, pinned)
    requires i < |bufs| && bufs[i].dev == DEV && bufs[i].blockno !in pinned
    ensures RefCounts(bufs[i := bufs[i].(refcnt := bufs[i].refcnt + 1)], refs, pinned + {bufs[i].blockno as int})
  {
    assert forall j :: 0 <= j < |bufs| && j != i && bufs[j].dev == DEV ==> bufs[j].blockno != bufs[i].blockno;
  }

  lemma UnpinCounts(bufs: seq<Buf>, refs: seq<multiset<Tid>>, i: nat, nb: Buf, pinned: set<int>)
    requires UniqueTags(bufs) && RefCounts(bufs, refs, pinned)
    requires i < |bufs| && bufs[i].dev == DEV && bufs[i].blockno in pinned
    requires nb.dev == DEV && nb.blockno == bufs[i].blockno && nb.refcnt == bufs[i].refcnt - 1
    ensures RefCounts(bufs[i := nb], refs, pinned - {bufs[i].blockno as int})
  {
    assert forall j :: 0 <= j < |bufs| && j != i && bufs[j].dev == DEV ==> bufs[j].blockno != bufs[i].blockno;
  }

  lemma CacheLogWrite(c: Config, s: State, t: Tid, i: nat)
    requires CacheInv(c, s) && LogInv(c, s) && CanLogWrite(c, s, t, i)
    ensures CacheInv(c, DoLogWrite(c, s, t, i))
  {
    var b := s.bufs[i].blockno;
    var r := DoLogWrite(c, s, t, i);
    assert s.phase.Open?;
    assert Pinned(r.lh, r.phase) == Pinned(s.lh, s.phase) + {b};
    if b !in s.lh {
      PinCounts(s.bufs, s.refs, i, Pinned(s.lh, s.phase));
    } else {
      assert Pinned(s.lh, s.phase) + {b} == Pinned(s.lh, s.phase);
    }
    LoggedContents(c.l, s.bufs, r.bufs, i, s.disk, s.logical, Pinned(s.lh, s.phase), s.unlogged);
  }

  lemma LoggedContents(l: Layout, bufs: seq<Buf>, n: seq<Buf>, i: nat, disk: Disk, logical: Disk, pinned: set<int>,
                       unlogged: set<nat>)
    requires ContentsInv(l, bufs, disk, logical, pinned, unlogged) && SameContents(bufs, n)
    requires i < |bufs| && Holds(bufs, i, bufs[i].blockno)
    ensures ContentsInv(l, n, disk, logical, pinned + {bufs[i].blockno as int}, unlogged - {i})
  {
    FrameContents(l, bufs, n, disk, logical, pinned, unlogged);
    var b := bufs[i].blockno;
    assert Holds(n, i, b);
    forall x | l.Home(x) && disk[x] != logical[x] && x !in pinned && x != b
      ensures exists k :: k in unlogged - {i} && Holds(n, k, x)
    {
      var k :| k in unlogged && Holds(n, k, x);
      assert k != i;
    }
  }

  lemma CacheInstall(c: Config, s: State, lb: nat, db: nat)
    requires CacheInv(c, s) && LogInv(c, s) && CanInstall(c, s, lb, db)
    requires s.disk[c.l.start + 1 + s.phase.k] == s.logical[s.lh[s.phase.k]]
    ensures CacheInv(c, DoInstall(c, s, lb, db))
  {
    var r := DoInstall(c, s, lb, db);
    var k := s.phase.k;
    PinnedTail(s.lh, k);
    assert c.l.Home(s.lh[k]);
    assert s.bufs[lb].data == s.logical[s.lh[k]];
    UnpinCounts(s.bufs, s.refs, db, r.bufs[db], Pinned(s.lh, s.phase));
    InstalledContents(c.l, s.bufs, r.bufs, db, s.disk, s.logical, Pinned(s.lh, s.phase), s.unlogged);
  }

  lemma PinnedTail(lh: seq<int>, k: nat)
    requires Distinct(lh) && k < |lh|
    ensures lh[k] in Pinned(lh, Installing(k))
    ensures Pinned(lh, Installing(k + 1)) == Pinned(lh, Installing(k)) - {lh[k]}
  {
    assert lh[k..] == [lh[k]] + lh[k + 1..];
  }

  lemma InstalledContents(l: Layout, bufs: seq<Buf>, n: seq<Buf>, i: nat, disk: Disk, logical: Disk, pinned: set<int>,
                          unlogged: set<nat>)
    requires ContentsInv(l, bufs, disk, logical, pinned, unlogged) && SameContents(bufs, n)
    requires i < |bufs| && Holds(bufs, i, bufs[i].blockno) && l.Home(bufs[i].blockno)
    ensures ContentsInv(l, n, disk[bufs[i].blockno := logical[bufs[i].blockno]], logical,
                        pinned - {bufs[i].blockno as int}, unlogged)
  {
    FrameContents(l, bufs, n, disk, logical, pinned, unlogged);
  }

  lemma CacheOther(c: Config, s: State, e: Event)
    requires CacheInv(c, s) && LogInv(c, s) && Enabled(c, s, e)
    requires e.Begin? || e.End? || e.Finish? || e.SyncCall? || e.SyncReturn?
    ensures CacheInv(c, Do(c, s, e))
  {
    var r := Do(c, s, e);
    assert Pinned(r.lh, r.phase) == Pinned(s.lh, s.phase);
  }

  // ---------------------------------------------------------------------------
  // Every event keeps the log invariant
  // ---------------------------------------------------------------------------

  lemma {:induction false} SpareRemove(ops: map<Tid, Op>, maxop: nat, t: Tid)
    requires t in ops
    ensures Spare(ops, maxop) == maxop - ops[t].used + Spare(ops - {t}, maxop)
    decreases ops.Keys
  {
    var u := Pick(ops.Keys);
    if u != t {
      SpareRemove(ops - {u}, maxop, t);
      SpareRemove(ops - {t}, maxop, u);
      assert ops - {u} - {t} == ops - {t} - {u};
    }
  }

  lemma TimesSucc(n: nat, m: nat)
    ensures (n + 1) * m == n * m + m
  {
  }

  lemma {:induction false} SpareBound(ops: map<Tid, Op>, maxop: nat)
    requires forall t :: t in ops ==> ops[t].used <= maxop
    ensures 0 <= Spare(ops, maxop) <= |ops.Keys| * maxop
    decreases ops.Keys
  {
    if ops.Keys != {} {
      var t := Pick(ops.Keys);
      var rest := ops - {t};
      assert rest.Keys == ops.Keys - {t};
      assert |ops.Keys| == |rest.Keys| + 1;
      assert forall u :: u in rest ==> rest[u] == ops[u];
      SpareBound(rest, maxop);
      TimesSucc(|rest.Keys|, maxop);
    }
  }

  lemma SparePut(ops: map<Tid, Op>, maxop: nat, t: Tid, o: Op)
    ensures Spare(ops[t := o], maxop) == maxop - o.used + Spare(ops - {t}, maxop)
  {
    SpareRemove(ops[t := o], maxop, t);
    assert ops[t := o] - {t} == ops - {t};
  }

  lemma SpareAdd(ops: map<Tid, Op>, maxop: nat, t: Tid, o: Op)
    requires t !in ops
    ensures Spare(ops[t := o], maxop) == maxop - o.used + Spare(ops, maxop)
  {
    SparePut(ops, maxop, t, o);
    assert ops - {t} == ops;
  }

  lemma RoomForOne(n: nat, outstanding: nat, spare: int, maxop: nat, cap: nat)
    requires n + (outstanding + 1) * maxop <= cap && spare <= outstanding * maxop
    ensures n + maxop + spare <= cap
  {
    TimesSucc(outstanding, maxop);
  }

  lemma LogBegin(c: Config, s: State, t: Tid)
    requires LogInv(c, s) && CanBegin(c, s, t)
    ensures LogInv(c, DoBegin(c, s, t))
  {
    var r := DoBegin(c, s, t);
    BeginFits(c, s, t);
    assert r.ops.Keys == s.ops.Keys + {t};
  }

  lemma BeginFits(c: Config, s: State, t: Tid)
    requires LogInv(c, s) && CanBegin(c, s, t)
    ensures |s.lh| + Spare(DoBegin(c, s, t).ops, c.maxop) <= c.l.cap
  {
    SpareAdd(s.ops, c.maxop, t, Op(s.nextId, 0));
    SpareBound(s.ops, c.maxop);
    RoomForOne(|s.lh|, s.outstanding, Spare(s.ops, c.maxop), c.maxop, c.l.cap);
  }

  lemma LogEnd(c: Config, s: State, t: Tid)
    requires LogInv(c, s) && CanEnd(c, s, t)
    ensures LogInv(c, DoEnd(c, s, t))
  {
    var r := DoEnd(c, s, t);
    SpareRemove(s.ops, c.maxop, t);
    assert r.ops.Keys == s.ops.Keys - {t};
  }

  lemma LogLogWrite(c: Config, s: State, t: Tid, i: nat)
    requires LogInv(c, s) && CanLogWrite(c, s, t, i)
    ensures LogInv(c, DoLogWrite(c, s, t, i))
  {
    var r := DoLogWrite(c, s, t, i);
    if s.bufs[i].blockno !in s.lh {
      SpareRemove(s.ops, c.maxop, t);
      SparePut(s.ops, c.maxop, t, r.ops[t]);
      assert r.ops.Keys == s.ops.Keys;
    }
  }

  lemma LogStep(c: Config, s: State, e: Event)
    requires LogInv(c, s) && Enabled(c, s, e)
    ensures LogInv(c, Do(c, s, e))
  {
    match e
    case Begin(t) => LogBegin(c, s, t);
    case End(t) => LogEnd(c, s, t);
    case LogWrite(t, i) => LogLogWrite(c, s, t, i);
    case _ =>
  }

  // ---------------------------------------------------------------------------
  // Every event keeps the disk recoverable
  // ---------------------------------------------------------------------------

  lemma CrashStep(c: Config, s: State, e: Event)
    requires c.l.Valid() && CacheInv(c, s) && LogInv(c, s) && CrashInv(c, s) && Enabled(c, s, e)
    ensures CrashInv(c, Do(c, s, e))
  {
    if e.CopyToLog? || e.WriteHead? {
      CrashLogging(c, s, e);
    } else if e.Install? || e.Clear? || e.Finish? {
      CrashInstalling(c, s, e);
    } else {
      CrashOther(c, s, e);
    }
  }

  lemma CrashLogging(c: Config, s: State, e: Event)
    requires c.l.Valid() && CacheInv(c, s) && LogInv(c, s) && CrashInv(c, s) && Enabled(c, s, e)
             && (e.CopyToLog? || e.WriteHead?)
    ensures CrashInv(c, Do(c, s, e))
  {
    match e
    case CopyToLog(to, from) => CrashCopyToLog(c, s, to, from);
    case WriteHead(i) => CrashWriteHead(c, s, i);
  }

  lemma CrashInstalling(c: Config, s: State, e: Event)
    requires c.l.Valid() && CacheInv(c, s) && LogInv(c, s) && CrashInv(c, s) && Enabled(c, s, e)
    requires e.Install? || e.Clear? || e.Finish?
    ensures CrashInv(c, Do(c, s, e))
  {
    match e
    case Install(lb, db) => CrashInstall(c, s, lb, db);
    case Clear(i) => CrashClear(c, s, i);
    case Finish => CrashFinish(c, s);
  }

  lemma CrashOther(c: Config, s: State, e: Event)
    requires c.l.Valid() && CacheInv(c, s) && LogInv(c, s) && CrashInv(c, s) && Enabled(c, s, e) && !OfDisk(e)
             && e != Finish
    ensures CrashInv(c, Do(c, s, e))
  {
    OtherFrozen(c, s, e);
    CrashFrozen(c, s, Do(c, s, e));
  }

  /** Nothing that recovery depends on has changed; a commit may have begun. */
  ghost predicate Frozen(s: State, r: State) {
    && r.disk == s.disk && r.stable == s.stable && r.base == s.base && |r.logical| == |s.logical|
    && (r.phase == s.phase || (s.phase.Open? && r.phase == Logging(0)))
    && (r.phase.Open? || (r.logical == s.logical && r.lh == s.lh))
  }

  lemma CrashFrozen(c: Config, s: State, r: State)
    requires LoggedOk(c.l, s.lh) && c.l.Valid() && CrashInv(c, s) && Frozen(s, r)
    ensures CrashInv(c, r)
  {
    if r.phase.Logging? && s.phase.Open? { assert LogCopied(c.l, r.disk, r.logical, r.lh, 0); }
  }

  lemma OtherFrozen(c: Config, s: State, e: Event)
    requires LogInv(c, s) && CacheInv(c, s) && Enabled(c, s, e) && !OfDisk(e) && e != Finish
    ensures Frozen(s, Do(c, s, e))
  {
    if e.Modify? { assert s.phase.Open?; }
  }

  lemma CrashCopyToLog(c: Config, s: State, to: nat, from: nat)
    requires c.l.Valid() && CacheInv(c, s) && LogInv(c, s) && CrashInv(c, s) && CanCopyToLog(c, s, to, from)
    ensures CrashInv(c, DoCopyToLog(c, s, to, from))
  {
    var k := s.phase.k;
    assert c.l.Home(s.lh[k]);
    assert s.bufs[from].data == s.logical[s.lh[k]];
  }

  lemma CrashWriteHead(c: Config, s: State, i: nat)
    requires c.l.Valid() && CacheInv(c, s) && LogInv(c, s) && CrashInv(c, s) && CanWriteHead(c, s, i)
    ensures CrashInv(c, DoWriteHead(c, s, i))
  {
    HeaderRoundTrip(c.l, s.bufs[i].data, s.lh);
  }

  lemma CrashInstall(c: Config, s: State, lb: nat, db: nat)
    requires c.l.Valid() && CacheInv(c, s) && LogInv(c, s) && CrashInv(c, s) && CanInstall(c, s, lb, db)
    ensures CrashInv(c, DoInstall(c, s, lb, db))
  {
    var k := s.phase.k;
    assert c.l.Home(s.lh[k]) && c.l.InLog(c.l.start + 1 + k);
    assert s.bufs[lb].data == s.logical[s.lh[k]];
    MixedStep(c.l, s.disk, s.base, s.logical, s.lh, k);
    CopiesUntouched(c.l, s.disk, s.logical, s.lh, s.lh[k]);
  }

  lemma CopiesUntouched(l: Layout, disk: Disk, logical: Disk, lh: seq<int>, b: int)
    requires l.Valid() && |disk| == l.size && l.Home(b) && b < |logical| && |lh| <= l.cap
    requires LogCopied(l, disk, logical, lh, |lh|)
    ensures LogCopied(l, disk[b := logical[b]], logical, lh, |lh|)
  {
    assert b < l.start || b > l.start + |lh|;
  }

  lemma MixedStep(l: Layout, disk: Disk, base: Disk, logical: Disk, lh: seq<int>, k: nat)
    requires Mixed(l, disk, base, logical, lh, k) && k < |lh| && l.Home(lh[k])
    ensures Mixed(l, disk[lh[k] := logical[lh[k]]], base, logical, lh, k + 1)
  {
    assert lh[..k + 1] == lh[..k] + [lh[k]];
  }

  lemma NothingDirty(c: Config, s: State)
    requires CacheInv(c, s) && s.ops == map[] && Pinned(s.lh, s.phase) == {}
    ensures SameHome(c.l, s.disk, s.logical)
  {
  }

  lemma CrashClear(c: Config, s: State, i: nat)
    requires c.l.Valid() && CacheInv(c, s) && LogInv(c, s) && CrashInv(c, s) && CanClear(c, s, i)
    ensures CrashInv(c, DoClear(c, s, i))
  {
    NothingDirty(c, s);
    HeaderRoundTrip(c.l, s.bufs[i].data, []);
  }

  lemma CrashFinish(c: Config, s: State)
    requires c.l.Valid() && CacheInv(c, s) && LogInv(c, s) && CrashInv(c, s) && CanFinish(c, s)
    ensures CrashInv(c, DoFinish(c, s))
  {
    NothingDirty(c, s);
  }

  // ---------------------------------------------------------------------------
  // Every event keeps the history invariant
  // ---------------------------------------------------------------------------

  lemma HistModify(c: Config, s: State, t: Tid, i: nat, data: Block)
    requires LogInv(c, s) && HistInv(c, s) && CanModify(c, s, t, i, data)
    ensures HistInv(c, DoModify(c, s, t, i, data))
  {
    var r := DoModify(c, s, t, i, data);
    assert r.hist[..|s.hist|] == s.hist;
    assert r.hist[..s.durable] == s.hist[..s.durable];
    assert r.hist[..s.installed] == s.hist[..s.installed];
    assert Running(r.ops, s.ops[t].id);
  }

  lemma HistLogWrite(c: Config, s: State, t: Tid, i: nat)
    requires LogInv(c, s) && HistInv(c, s) && CanLogWrite(c, s, t, i)
    ensures HistInv(c, DoLogWrite(c, s, t, i))
  {
    StillRunning(s.ops, DoLogWrite(c, s, t, i).ops, t);
  }

  lemma HistBegin(c: Config, s: State, t: Tid)
    requires LogInv(c, s) && HistInv(c, s) && CanBegin(c, s, t)
    ensures HistInv(c, DoBegin(c, s, t))
  {
    StillRunning(s.ops, DoBegin(c, s, t).ops, t);
  }

  lemma LastOpCommits(ops: map<Tid, Op>, t: Tid)
    requires t in ops
    ensures ops - {t} == map[] ==> |ops.Keys| == 1
  {
    if ops - {t} == map[] {
      assert forall u :: u in ops && u != t ==> u in ops - {t};
      assert ops.Keys == {t};
    }
  }

  lemma HistEnd(c: Config, s: State, t: Tid)
    requires LogInv(c, s) && HistInv(c, s) && CanEnd(c, s, t)
    ensures HistInv(c, DoEnd(c, s, t))
  {
    var r := DoEnd(c, s, t);
    StillRunning(s.ops, r.ops, t);
    LastOpCommits(s.ops, t);
  }

  lemma HistCommit(c: Config, s: State, e: Event)
    requires LogInv(c, s) && HistInv(c, s) && Enabled(c, s, e)
    requires e.WriteHead? || e.Clear? || e.Finish?
    ensures HistInv(c, Do(c, s, e))
  {
    assert s.hist[..|s.hist|] == s.hist;
    assert forall id :: !Running(s.ops, id);
  }

  lemma HistStep(c: Config, s: State, e: Event)
    requires LogInv(c, s) && HistInv(c, s) && Enabled(c, s, e)
    ensures HistInv(c, Do(c, s, e))
  {
    if OfOperation(e) {
      HistOperation(c, s, e);
    } else if e.WriteHead? || e.Clear? || e.Finish? {
      HistCommit(c, s, e);
    } else if e.SyncCall? || e.SyncReturn? {
      HistSync(c, s, e);
    } else {
      HistOther(c, s, e);
    }
  }

  ghost predicate OfOperation(e: Event) { e.Modify? || e.LogWrite? || e.Begin? || e.End? }

  lemma HistOperation(c: Config, s: State, e: Event)
    requires LogInv(c, s) && HistInv(c, s) && Enabled(c, s, e) && OfOperation(e)
    ensures HistInv(c, Do(c, s, e))
  {
    match e
    case Modify(t, i, data) => HistModify(c, s, t, i, data);
    case LogWrite(t, i) => HistLogWrite(c, s, t, i);
    case Begin(t) => HistBegin(c, s, t);
    case End(t) => HistEnd(c, s, t);
  }

  lemma HistSync(c: Config, s: State, e: Event)
    requires LogInv(c, s) && HistInv(c, s) && Enabled(c, s, e) && (e.SyncCall? || e.SyncReturn?)
    ensures HistInv(c, Do(c, s, e))
  {
  }

  ghost predicate SameHistory(s: State, r: State) {
    && r.origin == s.origin && r.hist == s.hist && r.durable == s.durable && r.installed == s.installed
    && r.logical == s.logical && r.stable == s.stable && r.base == s.base
    && r.ops == s.ops && r.nextId == s.nextId && r.ended == s.ended && r.committed == s.committed
       && r.synced == s.synced
    && r.syncs == s.syncs && r.ncommit == s.ncommit
    && (r.phase.Open? <==> s.phase.Open?) && (r.phase.Installing? <==> s.phase.Installing?)
    && (r.phase.Finishing? <==> s.phase.Finishing?)
  }

  /** Events that touch neither the history nor the operations. */
  ghost predicate Silent(e: Event) { OfReference(e) || e.Fill? || e.CopyToLog? || e.Install? }

  lemma SilentKeeps(c: Config, s: State, e: Event)
    requires Enabled(c, s, e) && Silent(e)
    ensures SameHistory(s, Do(c, s, e))
  {
  }

  lemma HistOther(c: Config, s: State, e: Event)
    requires HistInv(c, s) && Enabled(c, s, e) && Silent(e)
    ensures HistInv(c, Do(c, s, e))
  {
    SilentKeeps(c, s, e);
  }

  lemma StillRunning(a: map<Tid, Op>, b: map<Tid, Op>, t: Tid)
    requires forall u :: u in a && u != t ==> u in b && b[u].id == a[u].id
    ensures forall id :: Running(a, id) ==> Running(b, id) || (t in a && a[t].id == id)
    ensures t in a && t in b && a[t].id == b[t].id ==> forall id :: Running(a, id) ==> Running(b, id)
  {
    forall id | Running(a, id)
      ensures Running(b, id) || (t in a && a[t].id == id)
      ensures t in a && t in b && a[t].id == b[t].id ==> Running(b, id)
    {
      var u :| u in a && a[u].id == id;
      if u != t {
        assert u in b && b[u].id == id;
      }
    }
  }

  // ---------------------------------------------------------------------------
  // Whole runs
  // ---------------------------------------------------------------------------

  /** A freshly booted system: recovery has emptied the on-disk log, and all
      buffers are tagged (dev 0, block 0). */
  ghost predicate Init(c: Config, s: State) {
    && DiskOk(c.l, s.disk) && Header(c.l, s.disk[c.l.start]) == []
    && (forall i :: 0 <= i < |s.bufs| ==> s.bufs[i] == Buf(0, 0, false, 0, s.bufs[i].data, None))
    && |s.refs| == |s.bufs| && (forall i :: 0 <= i < |s.refs| ==> s.refs[i] == multiset{})
    && s.unlogged == {} && s.lh == [] && s.phase == Open && s.ops == map[] && s.outstanding == 0
    && s.syncs == map[]
    && s.origin == s.logical == s.stable == s.base == s.disk
    && s.hist == [] && s.durable == s.installed == 0
    && s.ended == s.committed == s.synced == {}
  }

  lemma InitInv(c: Config, s: State)
    requires Init(c, s)
    ensures Inv(c, s)
  {
    assert Pinned(s.lh, s.phase) == {};
    assert Spare(s.ops, c.maxop) == 0;
  }

  /** Events that take or give back a reference or a lock. */
  ghost predicate OfReference(e: Event) { e.GetHit? || e.GetMiss? || e.Lock? || e.Unlock? || e.Drop? }

  /** Events on the contents of a locked buffer. */
  ghost predicate OfContents(e: Event) { e.Fill? || e.Modify? || e.LogWrite? }

  /** Events that write to the disk. */
  ghost predicate OfDisk(e: Event) { e.CopyToLog? || e.WriteHead? || e.Install? || e.Clear? }

  lemma CacheReferenceStep(c: Config, s: State, e: Event)
    requires CacheInv(c, s) && Enabled(c, s, e) && OfReference(e)
    ensures CacheInv(c, Do(c, s, e))
  {
    match e
    case GetHit(t, b, i) => CacheGetHit(c, s, t, b, i);
    case GetMiss(t, b, i) => CacheGetMiss(c, s, t, b, i);
    case Lock(t, i) => CacheLock(c, s, t, i);
    case Unlock(t, i) => CacheUnlock(c, s, t, i);
    case Drop(t, i) => CacheDrop(c, s, t, i);
  }

  lemma CacheContentsStep(c: Config, s: State, e: Event)
    requires CacheInv(c, s) && LogInv(c, s) && CrashInv(c, s) && Enabled(c, s, e) && OfContents(e)
    ensures CacheInv(c, Do(c, s, e))
  {
    match e
    case Fill(t, i) => CacheFill(c, s, t, i);
    case Modify(t, i, data) => CacheModify(c, s, t, i, data);
    case LogWrite(t, i) => CacheLogWrite(c, s, t, i);
  }

  lemma CacheDiskStep(c: Config, s: State, e: Event)
    requires CacheInv(c, s) && LogInv(c, s) && CrashInv(c, s) && Enabled(c, s, e) && OfDisk(e)
    ensures CacheInv(c, Do(c, s, e))
  {
    if e.CopyToLog? || e.Install? {
      CacheCopyStep(c, s, e);
    } else {
      CacheHeadStep(c, s, e);
    }
  }

  lemma CacheCopyStep(c: Config, s: State, e: Event)
    requires CacheInv(c, s) && LogInv(c, s) && CrashInv(c, s) && Enabled(c, s, e) && (e.CopyToLog? || e.Install?)
    ensures CacheInv(c, Do(c, s, e))
  {
    match e
    case CopyToLog(to, from) => CacheCopyToLog(c, s, to, from);
    case Install(lb, db) => CacheInstall(c, s, lb, db);
  }

  lemma CacheHeadStep(c: Config, s: State, e: Event)
    requires CacheInv(c, s) && LogInv(c, s) && CrashInv(c, s) && Enabled(c, s, e) && (e.WriteHead? || e.Clear?)
    ensures CacheInv(c, Do(c, s, e))
  {
    match e
    case WriteHead(i) => CacheWriteHead(c, s, i);
    case Clear(i) => CacheClear(c, s, i);
  }

  lemma CacheStep(c: Config, s: State, e: Event)
    requires CacheInv(c, s) && LogInv(c, s) && CrashInv(c, s) && Enabled(c, s, e)
    ensures CacheInv(c, Do(c, s, e))
  {
    if OfReference(e) {
      CacheReferenceStep(c, s, e);
    } else if OfContents(e) {
      CacheContentsStep(c, s, e);
    } else if OfDisk(e) {
      CacheDiskStep(c, s, e);
    } else {
      CacheOther(c, s, e);
    }
  }

  /** Every event keeps the whole invariant. */
  lemma StepInv(c: Config, s: State, e: Event)
    requires Inv(c, s) && Enabled(c, s, e)
    ensures Inv(c, Do(c, s, e))
  {
    CacheStep(c, s, e);
    LogStep(c, s, e);
    CrashStep(c, s, e);
    HistStep(c, s, e);
  }

  ghost predicate CanRun(c: Config, s: State, es: seq<Event>)
    decreases |es|
  {
    es == [] || (Enabled(c, s, es[0]) && CanRun(c, Do(c, s, es[0]), es[1..]))
  }

  ghost function Run(c: Config, s: State, es: seq<Event>): State
    requires CanRun(c, s, es)
    decreases |es|
  {
    if es == [] then s else Run(c, Do(c, s, es[0]), es[1..])
  }

  lemma {:induction false} RunInv(c: Config, s: State, es: seq<Event>)
    requires Inv(c, s) && CanRun(c, s, es)
    ensures Inv(c, Run(c, s, es))
    decreases |es|
  {
    if es != [] {
      StepInv(c, s, es[0]);
      RunInv(c, Do(c, s, es[0]), es[1..]);
    }
  }

  ghost predicate Reachable(c: Config, s: State) {
    exists s0, es :: Init(c, s0) && CanRun(c, s0, es) && s == Run(c, s0, es)
  }

  lemma ReachableInv(c: Config, s: State)
    requires Reachable(c, s)
    ensures Inv(c, s)
  {
    var s0, es :| Init(c, s0) && CanRun(c, s0, es) && s == Run(c, s0, es);
    InitInv(c, s0);
    RunInv(c, s0, es);
  }

  // ---------------------------------------------------------------------------
  // Main results
  // ---------------------------------------------------------------------------

  /** In every reachable state the logical contents of the disk are those of the
      durable changes. */
  lemma ViewIsStable(c: Config, s: State)
    requires Inv(c, s)
    ensures forall b :: c.l.Home(b) ==> View(c.l, s.disk, b) == s.stable[b]
  {
    forall b | c.l.Home(b)
      ensures View(c.l, s.disk, b) == s.stable[b]
    {
      if s.phase.Installing? && b !in s.lh { NotLoggedIsHome(c, s, b); }
    }
  }

  lemma NotLoggedIsHome(c: Config, s: State, b: int)
    requires Inv(c, s) && c.l.Home(b) && s.phase.Installing? && b !in s.lh
    ensures s.disk[b] == s.logical[b]
  {
    assert b !in Pinned(s.lh, s.phase);
    assert s.unlogged == {};
  }

  /** Crash at any moment of any run, crash any number of times inside recovery,
      then recover: the disk holds exactly the durable prefix of the changes, that
      prefix contains each operation entirely or not at all, and it contains every
      operation that a completed sync has waited for. */
  lemma CrashAnywhere(c: Config, s: State, ks: seq<nat>)
    requires Reachable(c, s)
    ensures DiskOk(c.l, s.disk) && DiskOk(c.l, AfterCrashes(c.l, s.disk, ks))
    ensures var e := AfterCrashes(c.l, s.disk, ks);
            var r := Apply(e, RecoverWrites(c.l, e));
            && s.durable <= |s.hist|
            && DiskOk(c.l, r) && Header(c.l, r[c.l.start]) == []
            && |Replay(s.origin, s.hist[..s.durable])| == c.l.size
            && (forall b :: c.l.Home(b) ==> r[b] == Replay(s.origin, s.hist[..s.durable])[b])
    ensures CutsNoOp(s.hist, s.durable, s.committed) && s.synced <= s.committed <= s.ended
  {
    ReachableInv(c, s);
    ViewIsStable(c, s);
    RecoveryRestoresView(c.l, s.disk, ks);
  }

  /** Cache coherence. In every reachable state a buffer that bread has returned
      holds the result of all changes made so far, each block has at most one
      buffer, and an unreferenced buffer equals its disk block. */
  lemma BreadReturnsLatest(c: Config, s: State, t: Tid, i: nat)
    requires Reachable(c, s) && Owns(s.bufs, t, i) && c.l.Home(s.bufs[i].blockno)
    ensures |Replay(s.origin, s.hist)| == c.l.size
    ensures s.bufs[i].data == Replay(s.origin, s.hist)[s.bufs[i].blockno]
  {
    ReachableInv(c, s);
  }

  lemma CacheIsSound(c: Config, s: State)
    requires Reachable(c, s)
    ensures UniqueTags(s.bufs)
    ensures forall i :: 0 <= i < |s.bufs| && s.bufs[i].dev == DEV && s.bufs[i].valid && s.bufs[i].refcnt == 0
              ==> s.bufs[i].blockno < |s.disk| && s.bufs[i].data == s.disk[s.bufs[i].blockno]
    ensures forall b :: b in s.lh && s.phase.Open? ==>
              exists i: nat :: Holds(s.bufs, i, b) && s.bufs[i].refcnt > 0
  {
    ReachableInv(c, s);
    forall i | 0 <= i < |s.bufs| && s.bufs[i].refcnt == 0
      ensures s.bufs[i].dev == DEV && s.bufs[i].valid ==>
                s.bufs[i].blockno < |s.disk| && s.bufs[i].data == s.disk[s.bufs[i].blockno]
    {
      UnreferencedIsClean(c, s, i);
    }
    forall b | b in s.lh && s.phase.Open?
      ensures exists i: nat :: Holds(s.bufs, i, b) && s.bufs[i].refcnt > 0
    {
      assert b in Pinned(s.lh, s.phase);
      var i: nat :| Holds(s.bufs, i, b);
      assert s.bufs[i].refcnt > 0;
    }
  }

  /** A buffer that is referenced, locked or pinned keeps its tag: the only event
      that changes a tag recycles a buffer nobody refers to. */
  lemma TagsAreStable(c: Config, s: State, e: Event, i: nat)
    requires Reachable(c, s) && Enabled(c, s, e) && i < |s.bufs| == |s.refs|
    requires s.refs[i] != multiset{} || s.bufs[i].lock.Some?
             || (s.bufs[i].dev == DEV && s.bufs[i].blockno in Pinned(s.lh, s.phase))
    ensures var r := Do(c, s, e);
            |r.bufs| == |s.bufs| && r.bufs[i].dev == s.bufs[i].dev && r.bufs[i].blockno == s.bufs[i].blockno
  {
    ReachableInv(c, s);
    if s.bufs[i].refcnt == 0 { UnreferencedIsClean(c, s, i); }
    assert s.bufs[i].refcnt != 0;
    TagsKept(c, s, e, i);
  }

  lemma TagsKept(c: Config, s: State, e: Event, i: nat)
    requires Enabled(c, s, e) && i < |s.bufs| && s.bufs[i].refcnt != 0
    ensures var r := Do(c, s, e);
            |r.bufs| == |s.bufs| && r.bufs[i].dev == s.bufs[i].dev && r.bufs[i].blockno == s.bufs[i].blockno
  {
  }

  /** Log protocol. No operation runs during a commit, so end_op cannot find a
      commit in progress and no log_write overlaps one; the transaction never
      outgrows the log; and the reference counts never underflow. */
  lemma ProtocolSafety(c: Config, s: State)
    requires Reachable(c, s)
    ensures !s.phase.Open? ==> s.ops == map[] && s.outstanding == 0
    ensures |s.lh| <= c.l.cap
    ensures s.outstanding >= 0
    ensures forall i :: 0 <= i < |s.bufs| && s.bufs[i].lock.Some? ==> s.bufs[i].refcnt > 0
  {
    ReachableInv(c, s);
    SpareBound(s.ops, c.maxop);
  }

  /** begin_op never waits for a log that nobody uses; and with the numbers of param.h, ten
      blocks for each operation in a log of thirty, it admits an operation exactly when the
      logged blocks and ten for each running operation leave ten. */
  lemma BeginAdmits(c: Config, s: State, t: Tid)
    requires Reachable(c, s) && t !in s.ops && s.phase.Open?
    ensures s.ops == map[] && c.maxop <= c.l.cap ==> CanBegin(c, s, t)
    ensures c.maxop == 10 && c.l.cap == 30 ==> (CanBegin(c, s, t) <==> |s.lh| + 10 * |s.ops.Keys| <= 20)
  {
    ReachableInv(c, s);
    if s.ops == map[] {
      assert s.ops.Keys == {};
      assert (s.outstanding + 1) * c.maxop == c.maxop;
    }
  }

  /** log_write panics when the log is already full, even for a block that is
      logged already. That happens only when every running operation has used up
      its whole reservation. */
  lemma FullLogMeansSpent(c: Config, s: State, t: Tid)
    requires Reachable(c, s) && t in s.ops && |s.lh| == c.l.cap
    ensures s.ops[t].used == c.maxop
  {
    ReachableInv(c, s);
    SpareRemove(s.ops, c.maxop, t);
    SpareBound(s.ops - {t}, c.maxop);
  }

  /** A log_write that respects its reservation is refused exactly when the log is full;
      then its block is logged already, and every running operation has used up its whole
      reservation. */
  lemma LogWriteRefused(c: Config, s: State, t: Tid, i: nat)
    requires Reachable(c, s) && Owns(s.bufs, t, i) && t in s.ops && c.l.Home(s.bufs[i].blockno)
    requires s.bufs[i].blockno !in s.lh ==> s.ops[t].used < c.maxop
    ensures !CanLogWrite(c, s, t, i) <==> |s.lh| == c.l.cap
    ensures |s.lh| == c.l.cap ==> s.bufs[i].blockno in s.lh && forall u :: u in s.ops ==> s.ops[u].used == c.maxop
  {
    ReachableInv(c, s);
    if |s.lh| == c.l.cap {
      forall u | u in s.ops ensures s.ops[u].used == c.maxop { FullLogMeansSpent(c, s, u); }
    } else {
      SpareBound(s.ops, c.maxop);
    }
  }

  const SMALL := Config(Layout(0, 1, 3), 1)

  ghost function Zeroed(): Block { seq(WORDS, _ => 0) }

  ghost function SmallStart(): State {
    var d: Disk := [Zeroed(), Zeroed(), Zeroed()];
    State([Buf(0, 0, false, 0, Zeroed(), None)], [multiset{}], {}, d, [], Open, 0, map[], 0, 0, map[],
          d, [], 0, 0, d, d, d, 0, {}, {}, {})
  }

  /** The states after begin_op, and after bget, acquiresleep, the disk read and log_write
      of block 2. */
  ghost function SmallAfter(t: Tid, k: nat): State {
    var s := SmallStart().(outstanding := 1, ops := map[t := Op(0, 0)], nextId := 1);
    var r := s.(refs := [multiset{t}]);
    if k == 0 then SmallStart()
    else if k == 1 then s
    else if k == 2 then r.(bufs := [Buf(DEV, 2, false, 1, Zeroed(), None)])
    else if k == 3 then r.(bufs := [Buf(DEV, 2, false, 1, Zeroed(), Some(t))])
    else if k == 4 then r.(bufs := [Buf(DEV, 2, true, 1, Zeroed(), Some(t))])
    else r.(bufs := [Buf(DEV, 2, true, 2, Zeroed(), Some(t))], lh := [2], ops := map[t := Op(0, 1)])
  }

  ghost function SmallEvent(t: Tid, k: nat): Event {
    if k == 0 then Begin(t)
    else if k == 1 then GetMiss(t, 2, 0)
    else if k == 2 then Lock(t, 0)
    else if k == 3 then Fill(t, 0)
    else LogWrite(t, 0)
  }

  lemma SmallBegin(t: Tid)
    ensures CanBegin(SMALL, SmallAfter(t, 0), t) && DoBegin(SMALL, SmallAfter(t, 0), t) == SmallAfter(t, 1)
  {
  }

  lemma SmallGet(t: Tid)
    ensures CanGetMiss(SMALL, SmallAfter(t, 1), t, 2, 0)
            && DoGetMiss(SMALL, SmallAfter(t, 1), t, 2, 0) == SmallAfter(t, 2)
  {
    var s, r := SmallAfter(t, 1), SmallAfter(t, 2);
    assert s.refs[0] + multiset{t} == r.refs[0];
    assert s.refs[0 := r.refs[0]] == r.refs && s.bufs[0 := r.bufs[0]] == r.bufs;
  }

  lemma SmallLock(t: Tid)
    ensures CanLock(SMALL, SmallAfter(t, 2), t, 0) && DoLock(SMALL, SmallAfter(t, 2), t, 0) == SmallAfter(t, 3)
  {
    var s, r := SmallAfter(t, 2), SmallAfter(t, 3);
    assert s.bufs[0 := r.bufs[0]] == r.bufs;
  }

  lemma SmallFill(t: Tid)
    ensures CanFill(SMALL, SmallAfter(t, 3), t, 0) && DoFill(SMALL, SmallAfter(t, 3), t, 0) == SmallAfter(t, 4)
  {
    var s, r := SmallAfter(t, 3), SmallAfter(t, 4);
    assert s.disk[2] == Zeroed();
    assert s.bufs[0 := r.bufs[0]] == r.bufs;
  }

  lemma SmallLog(t: Tid)
    ensures CanLogWrite(SMALL, SmallAfter(t, 4), t, 0) && DoLogWrite(SMALL, SmallAfter(t, 4), t, 0) == SmallAfter(t, 5)
  {
    var s, r := SmallAfter(t, 4), SmallAfter(t, 5);
    assert s.bufs[0 := r.bufs[0]] == r.bufs && s.lh + [2] == r.lh && s.ops[t := Op(0, 1)] == r.ops;
  }

  lemma SmallStep(t: Tid, k: nat)
    requires k < 5
    ensures Enabled(SMALL, SmallAfter(t, k), SmallEvent(t, k))
    ensures Do(SMALL, SmallAfter(t, k), SmallEvent(t, k)) == SmallAfter(t, k + 1)
  {
    if k == 0 {
      SmallBegin(t);
    } else if k == 1 {
      SmallGet(t);
    } else if k == 2 {
      SmallLock(t);
    } else if k == 3 {
      SmallFill(t);
    } else {
      SmallLog(t);
    }
  }

  lemma {:induction false} SmallRun(t: Tid, k: nat) returns (es: seq<Event>)
    requires k <= 5
    ensures CanRun(SMALL, SmallAfter(t, k), es) && Run(SMALL, SmallAfter(t, k), es) == SmallAfter(t, 5)
    decreases 5 - k
  {
    if k == 5 {
      es := [];
    } else {
      var rest := SmallRun(t, k + 1);
      SmallStep(t, k);
      es := [SmallEvent(t, k)] + rest;
      assert es[1..] == rest;
    }
  }

  /** It does happen, where an operation may log one block and the log holds one: after its
      first log_write of block 2 the operation runs on with the block in hand, and log_write
      of that same block is not possible any more. */
  lemma FullLogHappens(t: Tid)
    ensures var s := SmallAfter(t, 5);
            && Reachable(SMALL, s) && t in s.ops && |s.lh| == SMALL.l.cap
            && Owns(s.bufs, t, 0) && s.bufs[0].blockno == 2 && 2 in s.lh && !CanLogWrite(SMALL, s, t, 0)
  {
    var es := SmallRun(t, 0);
    assert Init(SMALL, SmallStart());
  }

  /** sys_sync returns at once only when nothing is pending, and a waiting call
      returns only after every operation that had ended when it was called is
      committed and installed; it does not wait for more than the next commit. */
  lemma SyncWaits(c: Config, s: State, t: Tid)
    requires Reachable(c, s)
    ensures t in s.syncs && s.ncommit >= s.syncs[t].target ==> s.syncs[t].seen <= s.synced
    ensures t in s.syncs && CanFinish(c, s) ==> CanSyncReturn(c, DoFinish(c, s), t)
    ensures s.phase.Open? && s.outstanding == 0 ==> s.ended <= s.synced
    ensures forall j :: s.installed <= j < |s.hist| ==> s.hist[j].op !in s.synced
    ensures s.installed <= |s.hist| && |s.disk| == |s.origin| == c.l.size
    ensures forall b :: c.l.Home(b) ==>
              || s.disk[b] == Replay(s.origin, s.hist[..s.installed])[b]
              || (s.phase.Installing? && s.disk[b] == Replay(s.origin, s.hist)[b])
  {
    ReachableInv(c, s);
    assert s.outstanding == 0 ==> s.ops.Keys == {} && s.ops == map[];
  }
}
