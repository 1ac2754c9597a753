/** The on-disk write-ahead log of xv6/kernel/log.c, one disk block at a time.

    A disk is a sequence of blocks that are written atomically, one at a time.
    The commit and recovery code is imperative and works on a `LogDevice`; it is
    proved to issue exactly the write lists `CommitWrites` and `RecoverWrites`,
    and the crash theorems are about every prefix of those lists. */
module LogDisk {
  /** A block holds BSIZE / sizeof(int) words: the header block stores `n` in
      word 0 and the home block numbers in the words after it. */
  const WORDS: nat := 256

  type Block = b: seq<int> | |b| == WORDS witness seq(WORDS, _ => 0)

  type Disk = seq<Block>

  /** Where the log lives: the header at `start`, then `cap` (LOGBLOCKS) log
      blocks. `initlog` panics unless the header fits strictly inside a block. */
  datatype Layout = Layout(start: nat, cap: nat, size: nat) {
    ghost predicate Valid() {
      cap + 1 < WORDS && start + cap < size
    }

    predicate InLog(b: int) {
      start <= b <= start + cap
    }

    /** Blocks that may be logged: on the disk and outside the log area. */
    predicate Home(b: int) {
      0 <= b < size && !InLog(b)
    }
  }

  datatype Write = Write(block: nat, data: Block)

  // ---------------------------------------------------------------------------
  // Header block
  // ---------------------------------------------------------------------------

  predicate HeaderOk(l: Layout, b: Block) {
    && 0 <= b[0] <= l.cap
    && l.cap + 1 < WORDS
    && (forall i :: 1 <= i <= b[0] ==> l.Home(b[i]))
  }

  /** The list of home block numbers that a header block records. */
  function Header(l: Layout, b: Block): (lh: seq<int>)
    requires HeaderOk(l, b)
    ensures |lh| <= l.cap && forall i :: 0 <= i < |lh| ==> l.Home(lh[i])
  {
    b[1..1 + b[0]]
  }

  /** `write_head` overwrites `n` and the first `n` entries and leaves the stale
      entries behind them in the buffer. */
  function PutHeader(b: Block, lh: seq<int>): (r: Block)
    requires |lh| + 1 < WORDS
  {
    [|lh|] + lh + b[1 + |lh|..]
  }

  lemma HeaderRoundTrip(l: Layout, b: Block, lh: seq<int>)
    requires l.Valid() && LoggedOk(l, lh)
    ensures HeaderOk(l, PutHeader(b, lh)) && Header(l, PutHeader(b, lh)) == lh
  {
    var r := PutHeader(b, lh);
    assert forall i :: 0 <= i < |lh| ==> r[1 + i] == lh[i];
    assert r[1..1 + |lh|] == lh;
  }

  ghost predicate LoggedOk(l: Layout, lh: seq<int>) {
    |lh| <= l.cap && forall i :: 0 <= i < |lh| ==> l.Home(lh[i])
  }

  // ---------------------------------------------------------------------------
  // What a disk stands for
  // ---------------------------------------------------------------------------

  ghost predicate DiskOk(l: Layout, d: Disk) {
    l.Valid() && |d| == l.size && HeaderOk(l, d[l.start])
  }

  /** The last position of `b` in `lh`; a block logged twice takes its last copy. */
  function Last(lh: seq<int>, b: int): (j: nat)
    requires b in lh
    ensures j < |lh| && lh[j] == b
    ensures forall i :: j < i < |lh| ==> lh[i] != b
  {
    if lh[|lh| - 1] == b then |lh| - 1 else Last(lh[..|lh| - 1], b)
  }

  /** The logical contents of home block `b`: its committed copy in the log when
      the header lists it, else the block itself. */
  ghost function View(l: Layout, d: Disk, b: int): Block
    requires DiskOk(l, d) && l.Home(b)
  {
    var lh := Header(l, d[l.start]);
    if b in lh then d[l.start + 1 + Last(lh, b)] else d[b]
  }

  // ---------------------------------------------------------------------------
  // The write lists
  // ---------------------------------------------------------------------------

  function Apply(d: Disk, ws: seq<Write>): (r: Disk)
    ensures |r| == |d|
  {
    if ws == [] then d
    else
      var w := ws[|ws| - 1];
      var e := Apply(d, ws[..|ws| - 1]);
      if w.block < |e| then e[w.block := w.data] else e
  }

  /** Copies of the logged buffers, in log order (write_log). */
  function LogWrites(l: Layout, vals: seq<Block>): (ws: seq<Write>)
    ensures |ws| == |vals|
    ensures forall i :: 0 <= i < |ws| ==> ws[i] == Write(l.start + 1 + i, vals[i])
  {
    seq(|vals|, i requires 0 <= i < |vals| => Write(l.start + 1 + i, vals[i]))
  }

  /** Copies from the log to the home blocks, in log order (install_trans). */
  function InstallWrites(l: Layout, d: Disk, lh: seq<int>): (ws: seq<Write>)
    requires l.start + |lh| < |d|
    requires forall i :: 0 <= i < |lh| ==> 0 <= lh[i]
    ensures |ws| == |lh|
    ensures forall i :: 0 <= i < |ws| ==> ws[i] == Write(lh[i], d[l.start + 1 + i])
  {
    seq(|lh|, i requires 0 <= i < |lh| => Write(lh[i], d[l.start + 1 + i]))
  }

  /** Everything `commit` writes when the transaction holds the blocks `lh` with
      the cached contents `vals`; an empty transaction writes nothing. */
  function CommitWrites(l: Layout, d: Disk, lh: seq<int>, vals: seq<Block>): (ws: seq<Write>)
    requires |lh| == |vals| && |lh| + 1 < WORDS
    requires l.start + |lh| < |d|
    requires forall i :: 0 <= i < |lh| ==> 0 <= lh[i]
  {
    if lh == [] then []
    else
      var head := PutHeader(d[l.start], lh);
      LogWrites(l, vals)
      + [Write(l.start, head)]
      + seq(|lh|, i requires 0 <= i < |lh| => Write(lh[i], vals[i]))
      + [Write(l.start, PutHeader(head, []))]
  }

  /** Everything `recover_from_log` writes on disk `d`. */
  function RecoverWrites(l: Layout, d: Disk): (ws: seq<Write>)
    requires |d| == l.size && l.start + l.cap < l.size
    requires HeaderOk(l, d[l.start])
  {
    InstallWrites(l, d, Header(l, d[l.start]))
    + [Write(l.start, PutHeader(d[l.start], []))]
  }

  // ---------------------------------------------------------------------------
  // Crash theorems
  // ---------------------------------------------------------------------------

  lemma ApplyStep(d: Disk, ws: seq<Write>, k: nat)
    requires k < |ws| && ws[k].block < |d|
    ensures Apply(d, ws[..k + 1]) == Apply(d, ws[..k])[ws[k].block := ws[k].data]
  {
    assert ws[..k + 1][..k] == ws[..k];
  }

  lemma ApplyAppend(d: Disk, ws: seq<Write>, w: Write)
    requires w.block < |d|
    ensures Apply(d, ws + [w]) == Apply(d, ws)[w.block := w.data]
  {
    assert (ws + [w])[..|ws|] == ws;
  }

  lemma LastStep(lh: seq<int>, k: nat, b: int)
    requires k < |lh|
    ensures b in lh[..k + 1] <==> b in lh[..k] || b == lh[k]
    ensures b == lh[k] ==> Last(lh[..k + 1], b) == k
    ensures b != lh[k] && b in lh[..k] ==> Last(lh[..k + 1], b) == Last(lh[..k], b)
  {
    assert lh[..k + 1] == lh[..k] + [lh[k]];
    if b in lh[..k] {
      assert lh[..k + 1][Last(lh[..k], b)] == b;
    }
  }

  /** Home blocks of `d` after the first `k` blocks of `lh` took their copy from
      the sequence `vals`. */
  ghost predicate HomeInstalled(l: Layout, d: Disk, e: Disk, lh: seq<int>, vals: seq<Block>, k: nat)
    requires k <= |lh| == |vals|
    requires |d| == |e| == l.size
  {
    forall b :: l.Home(b) ==>
      e[b] == if b in lh[..k] then vals[Last(lh[..k], b)] else d[b]
  }

  ghost predicate SameLog(l: Layout, d: Disk, e: Disk)
    requires |d| == |e| == l.size
  {
    forall b :: 0 <= b < l.size && l.InLog(b) && b != l.start ==> e[b] == d[b]
  }

  lemma InstallStep(l: Layout, d: Disk, e: Disk, lh: seq<int>, vals: seq<Block>, k: nat)
    requires l.Valid() && k < |lh| == |vals| && |d| == |e| == l.size
    requires LoggedOk(l, lh) && HomeInstalled(l, d, e, lh, vals, k)
    ensures HomeInstalled(l, d, e[lh[k] := vals[k]], lh, vals, k + 1)
  {
    forall b | l.Home(b)
      ensures e[lh[k] := vals[k]][b] == if b in lh[..k + 1] then vals[Last(lh[..k + 1], b)] else d[b]
    {
      LastStep(lh, k, b);
    }
  }

  function LogCopies(l: Layout, d: Disk, n: nat): (vals: seq<Block>)
    requires l.start + n < |d|
    ensures |vals| == n && forall i :: 0 <= i < n ==> vals[i] == d[l.start + 1 + i]
  {
    d[l.start + 1..l.start + 1 + n]
  }

  lemma {:induction false} RecoverInstalls(l: Layout, d: Disk, k: nat)
    requires DiskOk(l, d) && k <= |Header(l, d[l.start])|
    ensures var lh := Header(l, d[l.start]);
            var e := Apply(d, RecoverWrites(l, d)[..k]);
            && e[l.start] == d[l.start] && SameLog(l, d, e)
            && HomeInstalled(l, d, e, lh, LogCopies(l, d, |lh|), k)
  {
    var lh := Header(l, d[l.start]);
    if k > 0 {
      RecoverInstalls(l, d, k - 1);
      ApplyStep(d, RecoverWrites(l, d), k - 1);
      InstallStep(l, d, Apply(d, RecoverWrites(l, d)[..k - 1]), lh, LogCopies(l, d, |lh|), k - 1);
    }
  }

  lemma PartlyInstalledView(l: Layout, d: Disk, e: Disk, k: nat)
    requires DiskOk(l, d) && |e| == |d| && e[l.start] == d[l.start] && SameLog(l, d, e)
    requires k <= |Header(l, d[l.start])|
    requires var lh := Header(l, d[l.start]); HomeInstalled(l, d, e, lh, LogCopies(l, d, |lh|), k)
    ensures forall b :: l.Home(b) ==> View(l, e, b) == View(l, d, b)
  {
    var lh := Header(l, d[l.start]);
    forall b | l.Home(b)
      ensures View(l, e, b) == View(l, d, b)
    {
      if b in lh {
        assert l.InLog(l.start + 1 + Last(lh, b));
      } else {
        assert b !in lh[..k];
      }
    }
  }

  lemma ClearedView(l: Layout, d: Disk, e: Disk)
    requires DiskOk(l, d) && |e| == |d| && e[l.start] == d[l.start]
    requires var lh := Header(l, d[l.start]); HomeInstalled(l, d, e, lh, LogCopies(l, d, |lh|), |lh|)
    ensures var r := e[l.start := PutHeader(d[l.start], [])];
            && DiskOk(l, r) && Header(l, r[l.start]) == []
            && forall b :: l.Home(b) ==> r[b] == View(l, d, b) == View(l, r, b)
  {
    var lh := Header(l, d[l.start]);
    HeaderRoundTrip(l, d[l.start], []);
    var r := e[l.start := PutHeader(d[l.start], [])];
    assert Header(l, r[l.start]) == [];
    assert lh[..|lh|] == lh;
    forall b | l.Home(b)
      ensures r[b] == View(l, d, b) == View(l, r, b)
    {
      assert r[b] == e[b];
    }
  }

  /** A crash anywhere inside recovery leaves the logical contents of every home
      block alone; a completed recovery makes the home blocks equal to them and
      empties the log. */
  lemma RecoverPrefix(l: Layout, d: Disk, k: nat)
    requires DiskOk(l, d) && k <= |RecoverWrites(l, d)|
    ensures var e := Apply(d, RecoverWrites(l, d)[..k]);
            && DiskOk(l, e)
            && (forall b :: l.Home(b) ==> View(l, e, b) == View(l, d, b))
            && (k == |RecoverWrites(l, d)| ==>
                  Header(l, e[l.start]) == [] && forall b :: l.Home(b) ==> e[b] == View(l, d, b))
  {
    var lh := Header(l, d[l.start]);
    if k <= |lh| {
      RecoverInstalls(l, d, k);
      PartlyInstalledView(l, d, Apply(d, RecoverWrites(l, d)[..k]), k);
    } else {
      RecoverInstalls(l, d, |lh|);
      ApplyStep(d, RecoverWrites(l, d), |lh|);
      ClearedView(l, d, Apply(d, RecoverWrites(l, d)[..|lh|]));
    }
  }

  /** The disk after recovery attempts that crash after `ks[0]`, `ks[1]`, ...
      writes (an attempt that is given more writes than it has completes). */
  function AfterCrashes(l: Layout, d: Disk, ks: seq<nat>): (r: Disk)
    requires |d| == l.size && l.start + l.cap < l.size && HeaderOk(l, d[l.start])
    decreases |ks|
  {
    if ks == [] then d
    else
      var ws := RecoverWrites(l, d);
      var e := Apply(d, ws[..if ks[0] <= |ws| then ks[0] else |ws|]);
      if HeaderOk(l, e[l.start]) then AfterCrashes(l, e, ks[1..]) else e
  }

  /** Any number of crashes inside recovery is harmless. */
  lemma {:induction false} CrashesKeepView(l: Layout, d: Disk, ks: seq<nat>)
    requires DiskOk(l, d)
    ensures DiskOk(l, AfterCrashes(l, d, ks))
    ensures forall b :: l.Home(b) ==> View(l, AfterCrashes(l, d, ks), b) == View(l, d, b)
    decreases |ks|
  {
    if ks != [] {
      var ws := RecoverWrites(l, d);
      var k := if ks[0] <= |ws| then ks[0] else |ws|;
      RecoverPrefix(l, d, k);
      CrashesKeepView(l, Apply(d, ws[..k]), ks[1..]);
    }
  }

  /** A disk image recovers, after any crashes during recovery, to exactly its
      logical contents with an empty log. */
  lemma RecoveryRestoresView(l: Layout, d: Disk, ks: seq<nat>)
    requires DiskOk(l, d)
    ensures var e := AfterCrashes(l, d, ks);
            && DiskOk(l, e)
            && var r := Apply(e, RecoverWrites(l, e));
               && DiskOk(l, r) && Header(l, r[l.start]) == []
               && (forall b :: l.Home(b) ==> r[b] == View(l, d, b) == View(l, r, b))
               && (forall b :: l.Home(b) ==> Apply(r, RecoverWrites(l, r))[b] == r[b])
  {
    CrashesKeepView(l, d, ks);
    var e := AfterCrashes(l, d, ks);
    var ws := RecoverWrites(l, e);
    assert ws[..|ws|] == ws;
    RecoverPrefix(l, e, |ws|);
    var r := Apply(e, ws);
    var us := RecoverWrites(l, r);
    assert us[..|us|] == us;
    RecoverPrefix(l, r, |us|);
  }

  lemma {:induction false} ApplyConcat(d: Disk, us: seq<Write>, ws: seq<Write>)
    ensures Apply(d, us + ws) == Apply(Apply(d, us), ws)
    decreases |ws|
  {
    if ws == [] {
      assert us + ws == us;
    } else {
      var k := |ws| - 1;
      ApplyConcat(d, us, ws[..k]);
      assert (us + ws)[..|us| + k] == us + ws[..k];
    }
  }

  lemma {:induction false} CommitLogs(l: Layout, d: Disk, vals: seq<Block>, k: nat)
    requires l.Valid() && |d| == l.size && k <= |vals| <= l.cap
    ensures var e := Apply(d, LogWrites(l, vals)[..k]);
            && (forall b :: 0 <= b < l.size && !(l.start < b <= l.start + k) ==> e[b] == d[b])
            && (forall i :: 0 <= i < k ==> e[l.start + 1 + i] == vals[i])
  {
    if k > 0 {
      CommitLogs(l, d, vals, k - 1);
      ApplyStep(d, LogWrites(l, vals), k - 1);
    }
  }

  /** What the home block `b` holds once the transaction is installed. */
  ghost function Committed(d: Disk, lh: seq<int>, vals: seq<Block>, b: int): Block
    requires |lh| == |vals| && 0 <= b < |d|
  {
    if b in lh then vals[Last(lh, b)] else d[b]
  }

  ghost predicate CanCommit(l: Layout, d: Disk, lh: seq<int>, vals: seq<Block>) {
    && DiskOk(l, d) && Header(l, d[l.start]) == []
    && LoggedOk(l, lh) && |lh| == |vals|
  }

  /** The disk right after the header write, the commit point. */
  ghost function AtCommitPoint(l: Layout, d: Disk, lh: seq<int>, vals: seq<Block>): Disk
    requires CanCommit(l, d, lh, vals)
  {
    Apply(d, LogWrites(l, vals))[l.start := PutHeader(d[l.start], lh)]
  }

  lemma PointDisk(l: Layout, d: Disk, lh: seq<int>, vals: seq<Block>)
    requires CanCommit(l, d, lh, vals)
    ensures var e := AtCommitPoint(l, d, lh, vals);
            && DiskOk(l, e) && Header(l, e[l.start]) == lh
            && (forall i :: 0 <= i < |lh| ==> e[l.start + 1 + i] == vals[i])
            && (forall b :: l.Home(b) ==> e[b] == d[b])
  {
    CommitLogs(l, d, vals, |vals|);
    assert LogWrites(l, vals)[..|vals|] == LogWrites(l, vals);
    HeaderRoundTrip(l, d[l.start], lh);
  }

  lemma PointView(l: Layout, d: Disk, lh: seq<int>, vals: seq<Block>)
    requires CanCommit(l, d, lh, vals) && DiskOk(l, AtCommitPoint(l, d, lh, vals))
    ensures var e := AtCommitPoint(l, d, lh, vals);
            forall b :: l.Home(b) ==> View(l, e, b) == Committed(d, lh, vals, b)
  {
    PointDisk(l, d, lh, vals);
  }

  lemma Concat3(a: seq<Write>, b: seq<Write>, c: seq<Write>, e: seq<Write>)
    ensures a + b + (c + e) == a + b + c + e
  {
  }

  lemma PointWrites(l: Layout, d: Disk, lh: seq<int>, vals: seq<Block>)
    requires CanCommit(l, d, lh, vals) && lh != [] && DiskOk(l, AtCommitPoint(l, d, lh, vals))
    ensures CommitWrites(l, d, lh, vals)
            == LogWrites(l, vals) + [Write(l.start, PutHeader(d[l.start], lh))]
               + RecoverWrites(l, AtCommitPoint(l, d, lh, vals))
  {
    PointDisk(l, d, lh, vals);
    var e, head := AtCommitPoint(l, d, lh, vals), PutHeader(d[l.start], lh);
    assert e[l.start] == head;
    var ws := seq(|lh|, i requires 0 <= i < |lh| => Write(lh[i], vals[i]));
    assert InstallWrites(l, e, lh) == ws;
    Concat3(LogWrites(l, vals), [Write(l.start, head)], ws, [Write(l.start, PutHeader(head, []))]);
  }

  lemma CommitPoint(l: Layout, d: Disk, lh: seq<int>, vals: seq<Block>)
    requires CanCommit(l, d, lh, vals) && lh != []
    ensures var e := AtCommitPoint(l, d, lh, vals);
            && DiskOk(l, e) && Header(l, e[l.start]) == lh
            && (forall b :: l.Home(b) ==> View(l, e, b) == Committed(d, lh, vals, b))
            && CommitWrites(l, d, lh, vals)
               == LogWrites(l, vals) + [Write(l.start, PutHeader(d[l.start], lh))] + RecoverWrites(l, e)
  {
    PointDisk(l, d, lh, vals);
    PointView(l, d, lh, vals);
    PointWrites(l, d, lh, vals);
  }

  /** A crash after any prefix of commit's writes: the logical contents are the
      old ones up to the header write and the new ones from it on. */
  lemma CommitPrefix(l: Layout, d: Disk, lh: seq<int>, vals: seq<Block>, k: nat)
    requires CanCommit(l, d, lh, vals) && k <= |CommitWrites(l, d, lh, vals)|
    ensures var e := Apply(d, CommitWrites(l, d, lh, vals)[..k]);
            && DiskOk(l, e)
            && forall b :: l.Home(b) ==>
                 View(l, e, b) == if k <= |lh| then d[b] else Committed(d, lh, vals, b)
  {
    if lh != [] {
      var ws := CommitWrites(l, d, lh, vals);
      var us := LogWrites(l, vals) + [Write(l.start, PutHeader(d[l.start], lh))];
      CommitPoint(l, d, lh, vals);
      if k <= |lh| {
        assert ws[..k] == LogWrites(l, vals)[..k];
        CommitLogs(l, d, vals, k);
      } else {
        var e := AtCommitPoint(l, d, lh, vals);
        var j := k - |us|;
        assert ws[..k] == us + RecoverWrites(l, e)[..j];
        ApplyAppend(d, LogWrites(l, vals), Write(l.start, PutHeader(d[l.start], lh)));
        ApplyConcat(d, us, RecoverWrites(l, e)[..j]);
        RecoverPrefix(l, e, j);
      }
    }
  }

  /** Crash atomicity. Crash after any prefix of commit's writes, crash any number
      of times inside recovery, then recover completely: every home block is as
      before the transaction, or every home block is as after it, and which of
      the two depends only on whether the header write was reached. */
  lemma CrashAtomicity(l: Layout, d: Disk, lh: seq<int>, vals: seq<Block>, k: nat, ks: seq<nat>)
    requires CanCommit(l, d, lh, vals) && k <= |CommitWrites(l, d, lh, vals)|
    ensures var e := Apply(d, CommitWrites(l, d, lh, vals)[..k]);
            && DiskOk(l, e) && DiskOk(l, AfterCrashes(l, e, ks))
            && var f := AfterCrashes(l, e, ks);
               var r := Apply(f, RecoverWrites(l, f));
               && Header(l, r[l.start]) == []
               && (k <= |lh| ==> forall b :: l.Home(b) ==> r[b] == d[b])
               && (k > |lh| ==> forall b :: l.Home(b) ==> r[b] == Committed(d, lh, vals, b))
  {
    CommitPrefix(l, d, lh, vals, k);
    RecoveryRestoresView(l, Apply(d, CommitWrites(l, d, lh, vals)[..k]), ks);
  }

  // ---------------------------------------------------------------------------
  // The imperative code
  // ---------------------------------------------------------------------------

  /** The disk together with the in-memory log header. `trace` records the disk
      writes in the order they are issued. */
  class LogDevice {
    const layout: Layout
    const disk: array<Block>
    const block: array<int>
    var n: nat
    ghost var trace: seq<Write>

    ghost predicate Valid()
      reads this, disk, block
    {
      && layout.Valid()
      && disk.Length == layout.size && block.Length == layout.cap
      && n <= layout.cap
      && LoggedOk(layout, Logged())
      && HeaderOk(layout, disk[layout.start])
    }

    /** The in-memory list of logged home blocks. */
    ghost function Logged(): seq<int>
      reads this, block
      requires n <= block.Length
    {
      block[..n]
    }

    constructor (l: Layout, image: Disk)
      requires DiskOk(l, image)
      ensures Valid() && layout == l && disk[..] == image && n == 0
      ensures trace == []
      ensures fresh(disk) && fresh(block)
    {
      layout := l;
      disk := new Block[l.size](i requires 0 <= i < |image| => image[i]);
      block := new int[l.cap](_ => 0);
      n := 0;
      trace := [];
      new;
      assert disk[..] == image;
    }

    method Bwrite(b: nat, data: Block)
      requires b < disk.Length
      modifies this`trace, disk
      ensures disk[..] == old(disk[..])[b := data]
      ensures trace == old(trace) + [Write(b, data)]
    {
      disk[b] := data;
      trace := trace + [Write(b, data)];
    }

    method ReadHead()
      requires Valid()
      modifies this`n, block
      ensures Valid() && Logged() == Header(layout, disk[layout.start])
    {
      var buf := disk[layout.start];
      n := buf[0];
      for i := 0 to n
        invariant n == buf[0] && forall j :: 0 <= j < i ==> block[j] == buf[1 + j]
      {
        block[i] := buf[1 + i];
      }
      assert block[..n] == buf[1..1 + n];
    }

    method WriteHead()
      requires Valid()
      modifies this`trace, disk
      ensures Valid()
      ensures trace == old(trace) + [Write(layout.start, PutHeader(old(disk[layout.start]), Logged()))]
      ensures disk[..] == old(disk[..])[layout.start := PutHeader(old(disk[layout.start]), Logged())]
    {
      var hb := disk[layout.start][0 := n];
      for i := 0 to n
        invariant |hb| == WORDS && hb[0] == n && hb[1..1 + i] == block[..i]
        invariant hb[1 + i..] == disk[layout.start][1 + i..]
      {
        ghost var was := hb;
        hb := hb[1 + i := block[i]];
        assert hb[1..1 + i] == was[1..1 + i];
        assert block[..i + 1] == block[..i] + [block[i]];
        assert hb[2 + i..] == was[1 + i..][1..];
      }
      assert hb == PutHeader(disk[layout.start], Logged());
      HeaderRoundTrip(layout, disk[layout.start], Logged());
      Bwrite(layout.start, hb);
    }

    /** The cached contents of the logged blocks, in log order. */
    static function Cached(cache: map<int, Block>, lh: seq<int>): (vals: seq<Block>)
      requires forall i :: 0 <= i < |lh| ==> lh[i] in cache
      ensures |vals| == |lh| && forall i :: 0 <= i < |lh| ==> vals[i] == cache[lh[i]]
    {
      seq(|lh|, i requires 0 <= i < |lh| => cache[lh[i]])
    }

    method WriteLog(cache: map<int, Block>)
      requires Valid() && forall i :: 0 <= i < n ==> block[i] in cache
      modifies this`trace, disk
      ensures Valid() && disk[layout.start] == old(disk[layout.start])
      ensures trace == old(trace) + LogWrites(layout, Cached(cache, Logged()))
      ensures disk[..] == Apply(old(disk[..]), LogWrites(layout, Cached(cache, Logged())))
    {
      ghost var ws := LogWrites(layout, Cached(cache, Logged()));
      for tail := 0 to n
        invariant disk[layout.start] == old(disk[layout.start])
        invariant trace == old(trace) + ws[..tail]
        invariant disk[..] == Apply(old(disk[..]), ws[..tail])
      {
        ApplyStep(old(disk[..]), ws, tail);
        Bwrite(layout.start + 1 + tail, cache[block[tail]]);
        assert ws[..tail + 1] == ws[..tail] + [ws[tail]];
      }
      assert ws[..n] == ws;
    }

    method InstallTrans()
      requires Valid()
      modifies this`trace, disk
      ensures Valid() && disk[layout.start] == old(disk[layout.start])
      ensures trace == old(trace) + InstallWrites(layout, old(disk[..]), Logged())
      ensures disk[..] == Apply(old(disk[..]), InstallWrites(layout, old(disk[..]), Logged()))
    {
      ghost var ws := InstallWrites(layout, old(disk[..]), Logged());
      for tail := 0 to n
        invariant disk[layout.start] == old(disk[layout.start])
        invariant forall b :: layout.start < b <= layout.start + layout.cap ==> disk[b] == old(disk[b])
        invariant trace == old(trace) + ws[..tail]
        invariant disk[..] == Apply(old(disk[..]), ws[..tail])
      {
        ApplyStep(old(disk[..]), ws, tail);
        assert layout.Home(Logged()[tail]);
        Bwrite(block[tail], disk[layout.start + 1 + tail]);
        assert ws[..tail + 1] == ws[..tail] + [ws[tail]];
      }
      assert ws[..n] == ws;
    }

    /** The first half of commit, up to the commit point. */
    method Publish(cache: map<int, Block>)
      requires Valid() && forall i :: 0 <= i < n ==> block[i] in cache
      requires Header(layout, disk[layout.start]) == []
      modifies this`trace, disk
      ensures Valid() && old(CanCommit(layout, disk[..], Logged(), Cached(cache, Logged())))
      ensures disk[..] == old(AtCommitPoint(layout, disk[..], Logged(), Cached(cache, Logged())))
      ensures trace == old(trace) + LogWrites(layout, Cached(cache, Logged()))
                       + [Write(layout.start, PutHeader(old(disk[layout.start]), Logged()))]
    {
      WriteLog(cache);
      WriteHead();
    }

    /** The second half: install and erase the header. */
    method Erase()
      requires Valid()
      modifies this, disk
      ensures Valid() && n == 0
      ensures disk[..] == old(Apply(disk[..], InstallWrites(layout, disk[..], Logged()))
                              [layout.start := PutHeader(disk[layout.start], [])])
      ensures trace == old(trace) + old(InstallWrites(layout, disk[..], Logged()))
                       + [Write(layout.start, PutHeader(old(disk[layout.start]), []))]
    {
      InstallTrans();
      n := 0;
      assert Logged() == [];
      WriteHead();
    }

    /** Commit the logged blocks with their cached contents. */
    method Commit(cache: map<int, Block>)
      requires Valid() && forall i :: 0 <= i < n ==> block[i] in cache
      requires Header(layout, disk[layout.start]) == []
      modifies this, disk
      ensures Valid() && n == 0 && Header(layout, disk[layout.start]) == []
      ensures old(CanCommit(layout, disk[..], Logged(), Cached(cache, Logged())))
      ensures trace == old(trace) + CommitWrites(layout, old(disk[..]), old(Logged()), Cached(cache, old(Logged())))
      ensures forall b :: layout.Home(b) ==>
                disk[b] == old(Committed(disk[..], Logged(), Cached(cache, Logged()), b))
    {
      ghost var d, lh := disk[..], Logged();
      ghost var vals := Cached(cache, lh);
      if n > 0 {
        Publish(cache);
        ghost var e, t := disk[..], trace;
        Erase();
        FinishCommit(layout, d, lh, vals, e, disk[..]);
        CommitTrace(layout, d, lh, vals, e, old(trace), t, trace);
      }
    }

    method RecoverFromLog()
      requires Valid()
      modifies this, disk, block
      ensures Valid() && n == 0 && Header(layout, disk[layout.start]) == []
      ensures trace == old(trace) + RecoverWrites(layout, old(disk[..]))
      ensures forall b :: layout.Home(b) ==> disk[b] == old(View(layout, disk[..], b))
    {
      ghost var d := disk[..];
      ReadHead();
      Erase();
      RecoverTrace(layout, d, old(trace));
      FinishInstall(layout, d, disk[..]);
    }
  }

  lemma RecoverTrace(l: Layout, d: Disk, trace: seq<Write>)
    requires DiskOk(l, d)
    ensures trace + InstallWrites(l, d, Header(l, d[l.start])) + [Write(l.start, PutHeader(d[l.start], []))]
            == trace + RecoverWrites(l, d)
  {
  }

  lemma FinishInstall(l: Layout, d: Disk, e: Disk)
    requires DiskOk(l, d)
    requires var lh := Header(l, d[l.start]);
             e == Apply(d, InstallWrites(l, d, lh))[l.start := PutHeader(d[l.start], [])]
    ensures HeaderOk(l, e[l.start]) && Header(l, e[l.start]) == []
    ensures e == Apply(d, RecoverWrites(l, d))
    ensures forall b :: l.Home(b) ==> e[b] == View(l, d, b)
  {
    var ws := RecoverWrites(l, d);
    ApplyAppend(d, InstallWrites(l, d, Header(l, d[l.start])), Write(l.start, PutHeader(d[l.start], [])));
    assert ws[..|ws|] == ws;
    RecoverPrefix(l, d, |ws|);
  }

  lemma FinishCommit(l: Layout, d: Disk, lh: seq<int>, vals: seq<Block>, e: Disk, f: Disk)
    requires CanCommit(l, d, lh, vals) && lh != [] && e == AtCommitPoint(l, d, lh, vals)
    requires f == Apply(e, InstallWrites(l, e, lh))[l.start := PutHeader(e[l.start], [])]
    ensures HeaderOk(l, f[l.start]) && Header(l, f[l.start]) == []
    ensures forall b :: l.Home(b) ==> f[b] == Committed(d, lh, vals, b)
    ensures CommitWrites(l, d, lh, vals)
            == LogWrites(l, vals) + [Write(l.start, PutHeader(d[l.start], lh))]
               + InstallWrites(l, e, lh) + [Write(l.start, PutHeader(e[l.start], []))]
  {
    CommitPoint(l, d, lh, vals);
    FinishInstall(l, e, f);
  }

  lemma Concat4(t: seq<Write>, a: seq<Write>, b: seq<Write>, c: seq<Write>, e: seq<Write>)
    ensures t + a + b + c + e == t + (a + b + c + e)
  {
  }

  lemma CommitTrace(l: Layout, d: Disk, lh: seq<int>, vals: seq<Block>, e: Disk, t0: seq<Write>, t1: seq<Write>,
                    t2: seq<Write>)
    requires CanCommit(l, d, lh, vals) && lh != [] && e == AtCommitPoint(l, d, lh, vals)
    requires t1 == t0 + LogWrites(l, vals) + [Write(l.start, PutHeader(d[l.start], lh))]
    requires t2 == t1 + InstallWrites(l, e, lh) + [Write(l.start, PutHeader(e[l.start], []))]
    requires CommitWrites(l, d, lh, vals)
             == LogWrites(l, vals) + [Write(l.start, PutHeader(d[l.start], lh))]
                + InstallWrites(l, e, lh) + [Write(l.start, PutHeader(e[l.start], []))]
    ensures t2 == t0 + CommitWrites(l, d, lh, vals)
  {
    Concat4(t0, LogWrites(l, vals), [Write(l.start, PutHeader(d[l.start], lh))],
            InstallWrites(l, e, lh), [Write(l.start, PutHeader(e[l.start], []))]);
  }
}
