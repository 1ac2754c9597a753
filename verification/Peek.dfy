/** peek, forwards and backwards (c-shell/src/peek.c): the backward reader, which takes
    the file in chunks from its end and carries what is left of a line from one chunk to
    the next, prints the lines of the file in reverse with their numbers. */
module Peek {
  import opened Options

  /** A printed line: its number, if it gets one, and its text without the newline. */
  datatype Out = Out(num: Option<int>, text: string)

  // ---------------------------------------------------------------------------
  // Lines
  // ---------------------------------------------------------------------------

  /** The segments between newlines; one more than there are newlines. */
  function Split(t: string): (segs: seq<string>)
    ensures |segs| >= 1
  {
    if t == [] then [[]]
    else if t[0] == '\n' then [[]] + Split(t[1..])
    else var s := Split(t[1..]); [[t[0]] + s[0]] + s[1..]
  }

  function Join(segs: seq<string>): (t: string) {
    if segs == [] then [] else if |segs| == 1 then segs[0] else segs[0] + "\n" + Join(segs[1..])
  }

  /** Split is what it should be: its segments hold no newline and give the text back. */
  lemma {:induction false} SplitJoins(t: string)
    ensures Join(Split(t)) == t
    ensures forall k :: 0 <= k < |Split(t)| ==> '\n' !in Split(t)[k]
  {
    if t != [] {
      SplitJoins(t[1..]);
      var s := Split(t[1..]);
      if t[0] == '\n' {
        assert Split(t)[1..] == s;
        assert Join(Split(t)) == [] + "\n" + Join(s);
      } else {
        var r := Split(t);
        assert r[1..] == s[1..];
        if |s| > 1 {
          assert Join(r) == [t[0]] + s[0] + "\n" + Join(s[1..]);
          assert Join(s) == s[0] + "\n" + Join(s[1..]);
        }
      }
      assert [t[0]] + t[1..] == t;
    }
  }

  /** is_not_empty. */
  predicate NotBlank(line: string) {
    exists k :: 0 <= k < |line| && line[k] !in {' ', '\t', '\n', '\r'}
  }

  method IsNotEmpty(line: string) returns (r: bool)
    ensures r <==> NotBlank(line)
  {
    var k := 0;
    while k < |line|
      invariant k <= |line| && forall i :: 0 <= i < k ==> line[i] in {' ', '\t', '\n', '\r'}
    {
      if line[k] != ' ' && line[k] != '\t' && line[k] != '\n' && line[k] != '\r' { return true; }
      k := k + 1;
    }
    return false;
  }

  lemma NewlineIsBlank(line: string)
    ensures NotBlank(line + "\n") <==> NotBlank(line)
  {
    var l := line + "\n";
    if k :| 0 <= k < |line| && line[k] !in {' ', '\t', '\n', '\r'} {
      assert l[k] == line[k];
    }
    if k :| 0 <= k < |l| && l[k] !in {' ', '\t', '\n', '\r'} {
      assert line[k] == l[k];
    }
  }

  function Weight(line: string): (n: nat) {
    if NotBlank(line) then 1 else 0
  }

  function Count(segs: seq<string>): (n: nat) {
    if segs == [] then 0 else Weight(segs[0]) + Count(segs[1..])
  }

  function Label(line: string, num: int, numbered: bool): (o: Out) {
    Out(if numbered && NotBlank(line) then Some(num) else None, line)
  }

  /** The lines with the numbers of a forward pass: those that are not blank count. */
  function Labelled(segs: seq<string>, num: int, numbered: bool): (outs: seq<Out>) {
    if segs == [] then [] else [Label(segs[0], num, numbered)] + Labelled(segs[1..], num + Weight(segs[0]), numbered)
  }

  /** The lines before `k` that are not blank. */
  ghost function Before(segs: seq<string>, k: nat): set<nat>
    requires k <= |segs|
  {
    set i: nat | i < k && NotBlank(segs[i])
  }

  /** Line k has as its number the first one plus the lines before it that are not blank, if
      it is not blank itself, and its own text. */
  lemma {:induction false} LabelledAt(segs: seq<string>, num: int, numbered: bool, k: nat)
    requires k < |segs|
    ensures |Labelled(segs, num, numbered)| == |segs|
    ensures Labelled(segs, num, numbered)[k].text == segs[k]
    ensures Labelled(segs, num, numbered)[k].num ==
            if numbered && NotBlank(segs[k]) then Some(num + |Before(segs, k)|) else None
    decreases |segs|
  {
    if k == 0 {
      assert Before(segs, 0) == {};
      LabelledSize(segs, num, numbered);
    } else {
      LabelledAt(segs[1..], num + Weight(segs[0]), numbered, k - 1);
      BeforeFront(segs, k);
    }
  }

  lemma {:induction false} LabelledSize(segs: seq<string>, num: int, numbered: bool)
    ensures |Labelled(segs, num, numbered)| == |segs|
  {
    if segs != [] { LabelledSize(segs[1..], num + Weight(segs[0]), numbered); }
  }

  lemma {:induction false} BeforeFront(segs: seq<string>, k: nat)
    requires 0 < k <= |segs|
    ensures |Before(segs, k)| == Weight(segs[0]) + |Before(segs[1..], k - 1)|
  {
    if k == 1 {
      assert Before(segs[1..], 0) == {};
      assert Before(segs, 1) == if NotBlank(segs[0]) then {0} else {};
    } else {
      BeforeFront(segs, k - 1);
      BeforeLast(segs, k);
      BeforeLast(segs[1..], k - 1);
    }
  }

  lemma BeforeLast(segs: seq<string>, k: nat)
    requires 0 < k <= |segs|
    ensures |Before(segs, k)| == |Before(segs, k - 1)| + Weight(segs[k - 1])
  {
    assert Before(segs, k) == Before(segs, k - 1) + if NotBlank(segs[k - 1]) then {k - 1} else {};
    assert k - 1 !in Before(segs, k - 1);
  }

  function Reversed(outs: seq<Out>): (r: seq<Out>) {
    if outs == [] then [] else Reversed(outs[1..]) + [outs[0]]
  }

  // ---------------------------------------------------------------------------
  // The forward pass
  // ---------------------------------------------------------------------------

  ghost predicate NoNewline(t: string, p: nat, q: nat) {
    q <= |t| && forall k :: p <= k < q ==> t[k] != '\n'
  }

  /** getline from position `p`: where the line ends, newline included. */
  method GetLine(t: string, p: nat) returns (q: nat)
    requires p < |t|
    ensures p < q <= |t| && NoNewline(t, p, q - 1) && (q < |t| ==> t[q - 1] == '\n')
  {
    q := p;
    while q < |t| && t[q] != '\n'
      invariant p <= q <= |t| && NoNewline(t, p, q)
    {
      q := q + 1;
    }
    if q < |t| {
      q := q + 1;
    }
  }

  /** The lines that getline finds: all segments, except an empty last one. */
  function Lines(t: string): (lines: seq<string>) {
    Trimmed(Split(t))
  }

  function Trimmed(s: seq<string>): (lines: seq<string>)
    requires |s| >= 1
  {
    if s[|s| - 1] == [] then s[..|s| - 1] else s
  }

  lemma SplitStep(t: string, p: nat)
    requires p < |t|
    ensures var s := Split(t[p + 1..]);
            Split(t[p..]) == if t[p] == '\n' then [[]] + s else [[t[p]] + s[0]] + s[1..]
  {
    assert t[p..][1..] == t[p + 1..];
  }

  lemma ConsSlice(t: string, p: nat, q: nat, u: string)
    requires p < q <= |t|
    ensures [t[p]] + (t[p + 1..q] + u) == t[p..q] + u
  {
    assert t[p..q] == [t[p]] + t[p + 1..q];
  }

  /** A stretch without newlines becomes part of the first segment. */
  lemma {:induction false} SplitRun(t: string, p: nat, q: nat)
    requires p <= q && NoNewline(t, p, q)
    ensures var s := Split(t[q..]); Split(t[p..]) == [t[p..q] + s[0]] + s[1..]
    decreases q - p
  {
    var s := Split(t[q..]);
    if p == q {
      assert t[p..q] + s[0] == s[0];
    } else {
      SplitStep(t, p);
      SplitRun(t, p + 1, q);
      ConsSlice(t, p, q, s[0]);
    }
  }

  lemma {:induction false} CountConcat(a: seq<string>, b: seq<string>)
    ensures Count(a + b) == Count(a) + Count(b)
  {
    if a == [] {
      assert a + b == b;
    } else {
      CountConcat(a[1..], b);
      assert (a + b)[1..] == a[1..] + b;
    }
  }

  /** An empty last segment does not count. */
  lemma CountLines(t: string)
    ensures Count(Lines(t)) == Count(Split(t))
  {
    var s := Split(t);
    if s[|s| - 1] == [] {
      CountConcat(s[..|s| - 1], [[]]);
      assert s[..|s| - 1] + [[]] == s;
    }
  }

  /** What is printed and counted up to position `p`. */
  ghost predicate Passed(t: string, p: nat, outs: seq<Out>, num: int, first: int, numbered: bool) {
    && p <= |t| && first + Count(Lines(t)) == num + Count(Lines(t[p..]))
    && Labelled(Lines(t), first, numbered) == outs + Labelled(Lines(t[p..]), num, numbered)
  }

  lemma PassedStart(t: string, first: int, numbered: bool)
    ensures Passed(t, 0, [], first, first, numbered)
  {
    assert t[0..] == t;
  }

  lemma PassedLine(t: string, p: nat, q: nat, line: string, outs: seq<Out>, num: int, first: int, numbered: bool)
    requires Passed(t, p, outs, num, first, numbered) && p < q <= |t| && Lines(t[p..]) == [line] + Lines(t[q..])
    ensures Passed(t, q, outs + [Label(line, num, numbered)], num + Weight(line), first, numbered)
  {
    var a, b := Lines(t[p..]), Lines(t[q..]);
    assert a[0] == line && a[1..] == b;
    assert outs + ([Label(line, num, numbered)] + Labelled(b, num + Weight(line), numbered))
        == outs + [Label(line, num, numbered)] + Labelled(b, num + Weight(line), numbered);
  }

  lemma PassedEnd(t: string, outs: seq<Out>, num: int, first: int, numbered: bool)
    requires Passed(t, |t|, outs, num, first, numbered)
    ensures outs == Labelled(Lines(t), first, numbered) && num == first + Count(Lines(t))
  {
    assert t[|t|..] == [] && Lines([]) == [];
  }

  /** One line of the forward branch. */
  method PrintNext(t: string, p: nat, outs: seq<Out>, next: int, numbered: bool, ghost num: int, ghost first: int)
    returns (q: nat, outs2: seq<Out>, next2: int, ghost num2: int)
    requires p < |t| && Passed(t, p, outs, num, first, numbered) && (numbered ==> next == num)
    ensures p < q <= |t| && Passed(t, q, outs2, num2, first, numbered) && (numbered ==> next2 == num2)
  {
    q := GetLine(t, p);
    var line := if t[q - 1] == '\n' then t[p..q - 1] else t[p..q];
    PassedNext(t, p, q, line, outs, num, first, numbered, next);
    outs2, next2 := PrintOne(outs, line, next, numbered);
    num2 := num + Weight(line);
  }

  /** Print a line, and count it if it gets a number. */
  method PrintOne(outs: seq<Out>, line: string, next: int, numbered: bool) returns (outs2: seq<Out>, next2: int)
    ensures outs2 == outs + [Label(line, next, numbered)]
    ensures next2 == if numbered && NotBlank(line) then next + 1 else next
  {
    var counts := IsNotEmpty(line);
    outs2 := outs + [Out(if numbered && counts then Some(next) else None, line)];
    next2 := if numbered && counts then next + 1 else next;
  }

  /** The forward branch: every line with its number, a missing last newline added. */
  method Forward(t: string, first: int, numbered: bool) returns (outs: seq<Out>, next: int)
    requires '\0' !in t
    ensures outs == Labelled(Lines(t), first, numbered)
    ensures numbered ==> next == first + Count(Lines(t))
  {
    outs, next := [], first;
    var p := 0;
    ghost var num := first;
    PassedStart(t, first, numbered);
    while p < |t|
      invariant 0 <= p <= |t| && Passed(t, p, outs, num, first, numbered) && (numbered ==> next == num)
    {
      p, outs, next, num := PrintNext(t, p, outs, next, numbered, num, first);
    }
    PassedEnd(t, outs, num, first, numbered);
  }

  lemma PassedNext(t: string, p: nat, q: nat, line: string, outs: seq<Out>, num: int, first: int, numbered: bool,
                   next: int)
    requires Passed(t, p, outs, num, first, numbered) && (numbered ==> next == num)
    requires p < q <= |t| && NoNewline(t, p, q - 1) && (q < |t| ==> t[q - 1] == '\n')
    requires line == if t[q - 1] == '\n' then t[p..q - 1] else t[p..q]
    ensures Passed(t, q, outs + [Label(line, next, numbered)], num + Weight(line), first, numbered)
    ensures numbered ==> num + Weight(line) == if NotBlank(line) then next + 1 else next
  {
    LineIs(t, p, q, line);
    PassedLine(t, p, q, line, outs, num, first, numbered);
    assert Label(line, num, numbered) == Label(line, next, numbered);
  }

  lemma LineIs(t: string, p: nat, q: nat, line: string)
    requires p < q <= |t| && NoNewline(t, p, q - 1) && (q < |t| ==> t[q - 1] == '\n')
    requires line == if t[q - 1] == '\n' then t[p..q - 1] else t[p..q]
    ensures Lines(t[p..]) == [line] + Lines(t[q..])
  {
    if t[q - 1] == '\n' {
      SplitRun(t, p, q - 1);
      SplitStep(t, q - 1);
      MoreLines(t[p..], t[q..], line);
    } else {
      SplitRun(t, p, q);
      assert t[q..] == [] && line + [] == line;
      assert Lines([]) == [];
    }
  }

  lemma MoreLines(a: string, b: string, line: string)
    requires Split(a) == [line + []] + Split(b)
    ensures Lines(a) == [line] + Lines(b)
  {
    var s, r := Split(a), Split(b);
    assert line + [] == line;
    assert s[|s| - 1] == r[|r| - 1];
    assert s[..|s| - 1] == [line] + r[..|r| - 1];
  }

  /** The counting pass of the reverse branch. */
  method CountPass(t: string) returns (total: nat)
    requires '\0' !in t
    ensures total == Count(Split(t))
  {
    total := 0;
    var p := 0;
    ghost var outs := [];
    PassedStart(t, 0, false);
    while p < |t|
      invariant Passed(t, p, outs, total, 0, false)
    {
      var q := GetLine(t, p);
      ghost var line := if t[q - 1] == '\n' then t[p..q - 1] else t[p..q];
      LineIs(t, p, q, line);
      SameWeight(t, p, q, line);
      PassedLine(t, p, q, line, outs, total, 0, false);
      outs := outs + [Label(line, total, false)];
      var counts := IsNotEmpty(t[p..q]);
      if counts {
        total := total + 1;
      }
      p := q;
    }
    PassedEnd(t, outs, total, 0, false);
    CountLines(t);
  }

  lemma SameWeight(t: string, p: nat, q: nat, line: string)
    requires p < q <= |t| && line == if t[q - 1] == '\n' then t[p..q - 1] else t[p..q]
    requires q < |t| ==> t[q - 1] == '\n'
    ensures NotBlank(t[p..q]) <==> NotBlank(line)
  {
    if t[q - 1] == '\n' {
      NewlineIsBlank(line);
      assert line + "\n" == t[p..q];
    }
  }

  // ---------------------------------------------------------------------------
  // The reverse branch
  // ---------------------------------------------------------------------------

  /** What reverse printing is to give: the segments in reverse order with their forward
      numbers, without an empty first one. */
  function Expected(t: string, first: int, numbered: bool): (outs: seq<Out>) {
    Backwards(Split(t), first, numbered)
  }

  function Backwards(s: seq<string>, first: int, numbered: bool): (outs: seq<Out>)
    requires |s| >= 1
  {
    if s[0] == [] then Reversed(Labelled(s[1..], first, numbered)) else Reversed(Labelled(s, first, numbered))
  }

  /** Printed so far, when the segments found are `segs`: all but the first, whose
      beginning may not have been seen. `total` is the number of lines that count. */
  ghost predicate Printed(segs: seq<string>, total: nat, outs: seq<Out>, cur: int, first: int, numbered: bool) {
    && |segs| >= 1
    && outs == Reversed(Labelled(segs[1..], first + total - Count(segs[1..]), numbered))
    && (numbered ==> cur == first + total - 1 - Count(segs[1..]))
  }

  /** A newline to the left completes the first segment. */
  lemma PrintedLine(segs: seq<string>, total: nat, outs: seq<Out>, cur: int, first: int, numbered: bool)
    requires Printed(segs, total, outs, cur, first, numbered)
    ensures Printed([[]] + segs, total, outs + [Label(segs[0], cur, numbered)], cur - Weight(segs[0]), first, numbered)
  {
    var r: seq<string> := [[]] + segs;
    assert r[1..] == segs;
    assert Count(segs) == Weight(segs[0]) + Count(segs[1..]);
    LastLine(segs, first + total - Count(segs), numbered, cur);
  }

  /** Any other character becomes part of it. */
  lemma PrintedChar(segs: seq<string>, total: nat, outs: seq<Out>, cur: int, first: int, numbered: bool, ch: char)
    requires Printed(segs, total, outs, cur, first, numbered)
    ensures Printed([[ch] + segs[0]] + segs[1..], total, outs, cur, first, numbered)
  {
    var r := [[ch] + segs[0]] + segs[1..];
    assert r[1..] == segs[1..];
  }

  /** The segments of the file from position `p` on. */
  ghost predicate Found(t: string, p: nat, segs: seq<string>) {
    p <= |t| && segs == Split(t[p..])
  }

  lemma FoundStep(t: string, p: nat, segs: seq<string>)
    requires Found(t, p, segs) && 0 < p
    ensures |segs| >= 1
    ensures Found(t, p - 1, if t[p - 1] == '\n' then [[]] + segs else [[t[p - 1]] + segs[0]] + segs[1..])
  {
    SplitStep(t, p - 1);
  }

  /** The print of a line in the reverse branch, at the newline before it. */
  method PrintLine(full: string, outs: seq<Out>, cur: int, numbered: bool,
                   ghost t: string, ghost p: nat, ghost segs: seq<string>, ghost total: nat, ghost first: int)
    returns (outs2: seq<Out>, cur2: int, ghost segs2: seq<string>)
    requires Found(t, p, segs) && 0 < p && t[p - 1] == '\n'
    requires Printed(segs, total, outs, cur, first, numbered) && full == segs[0]
    ensures Found(t, p - 1, segs2) && Printed(segs2, total, outs2, cur2, first, numbered) && segs2[0] == []
  {
    FoundStep(t, p, segs);
    PrintedLine(segs, total, outs, cur, first, numbered);
    outs2 := outs + [Label(full, cur, numbered)];
    var counts := IsNotEmpty(full);
    cur2 := if numbered && counts then cur - 1 else cur;
    segs2 := [[]] + segs;
  }

  lemma CharStep(t: string, pos: nat, chunk: string, j: nat, end: nat, left: string, segs: seq<string>, total: nat,
                 outs: seq<Out>, cur: int, first: int, numbered: bool) returns (segs2: seq<string>)
    requires j < end <= |chunk| && pos + j < |t| && chunk[j] == t[pos + j] && chunk[j] != '\n'
             && Found(t, pos + j + 1, segs)
    requires Printed(segs, total, outs, cur, first, numbered) && segs[0] == chunk[j + 1..end] + left
    ensures Found(t, pos + j, segs2) && Printed(segs2, total, outs, cur, first, numbered)
            && segs2[0] == chunk[j..end] + left
  {
    FoundStep(t, pos + j + 1, segs);
    PrintedChar(segs, total, outs, cur, first, numbered, chunk[j]);
    ConsSlice(chunk, j, end, left);
    segs2 := [[chunk[j]] + segs[0]] + segs[1..];
  }

  /** One chunk at `pos`, scanned down to its character `j`; the segment now open is
      the chunk's text from `j` to `end`, and then `left`. */
  ghost predicate Scanning(t: string, pos: nat, chunk: string, j: nat, end: nat, left: string, segs: seq<string>,
                           total: nat,
                           outs: seq<Out>, cur: int, first: int, numbered: bool) {
    && j <= end <= |chunk| && pos + |chunk| <= |t| && chunk == t[pos..pos + |chunk|] && Found(t, pos + j, segs)
    && Printed(segs, total, outs, cur, first, numbered) && segs[0] == chunk[j..end] + left
  }

  /** One turn of the loop over a chunk. */
  method ScanChar(t: string, pos: nat, chunk: string, j: nat, end: nat, leftover: string, outs: seq<Out>, cur: int,
                  numbered: bool, ghost segs: seq<string>, ghost total: nat, ghost first: int)
    returns (stop: nat, left: string, outs2: seq<Out>, cur2: int, ghost segs2: seq<string>)
    requires 0 < j && Scanning(t, pos, chunk, j, end, leftover, segs, total, outs, cur, first, numbered)
    ensures Scanning(t, pos, chunk, j - 1, stop, left, segs2, total, outs2, cur2, first, numbered)
  {
    assert chunk[j - 1] == t[pos + j - 1];
    if chunk[j - 1] == '\n' {
      outs2, cur2, segs2 := PrintLine(chunk[j..end] + leftover, outs, cur, numbered, t, pos + j, segs, total, first);
      stop, left := j - 1, [];
    } else {
      segs2 := CharStep(t, pos, chunk, j - 1, end, leftover, segs, total, outs, cur, first, numbered);
      stop, left, outs2, cur2 := end, leftover, outs, cur;
    }
  }

  /** The loop over one chunk, from its end: prints every segment that is complete. */
  method ScanChunk(t: string, pos: nat, chunk: string, leftover: string, outs: seq<Out>, cur: int, numbered: bool,
                   ghost segs: seq<string>, ghost total: nat, ghost first: int)
    returns (left: string, outs2: seq<Out>, cur2: int, ghost segs2: seq<string>)
    requires Scanning(t, pos, chunk, |chunk|, |chunk|, leftover, segs, total, outs, cur, first, numbered)
    ensures Found(t, pos, segs2) && Printed(segs2, total, outs2, cur2, first, numbered) && segs2[0] == left
  {
    left, outs2, cur2, segs2 := leftover, outs, cur, segs;
    var end := |chunk|;
    var j := |chunk|;
    while j > 0
      invariant 0 <= j <= end <= |chunk|
                && Scanning(t, pos, chunk, j, end, left, segs2, total, outs2, cur2, first, numbered)
    {
      end, left, outs2, cur2, segs2 := ScanChar(t, pos, chunk, j, end, left, outs2, cur2, numbered, segs2, total,
          first);
      j := j - 1;
    }
    left := chunk[..end] + left;
  }

  /** The reverse branch, for a file without NUL and any chunk size. */
  method Reverse(t: string, size: nat, first: int, numbered: bool) returns (outs: seq<Out>, next: int)
    requires size >= 1 && '\0' !in t
    ensures outs == Expected(t, first, numbered) && next == first + Count(Lines(t))
  {
    var total := CountPass(t);
    CountLines(t);
    var cur := first + total - 1;
    next := first + total;
    var pos := |t|;
    var leftover := "";
    outs := [];
    ghost var segs := [""];
    assert t[|t|..] == [];
    while pos > 0
      invariant 0 <= pos <= |t| && Found(t, pos, segs) && Printed(segs, total, outs, cur, first, numbered)
                && segs[0] == leftover
    {
      var n := if pos < size then pos else size;
      pos := pos - n;
      assert t[pos..pos + n][n..n] + leftover == leftover;
      leftover, outs, cur, segs := ScanChunk(t, pos, t[pos..pos + n], leftover, outs, cur, numbered, segs, total,
          first);
    }
    assert t[0..] == t;
    assert Count(segs) == Weight(segs[0]) + Count(segs[1..]);
    if |leftover| > 0 {
      outs := outs + [Label(leftover, cur, numbered)];
      LastLine(segs, first, numbered, cur);
    }
  }

  lemma LastLine(s: seq<string>, first: int, numbered: bool, cur: int)
    requires |s| >= 1 && (numbered && NotBlank(s[0]) ==> cur == first)
    ensures Reversed(Labelled(s, first, numbered)) ==
              Reversed(Labelled(s[1..], first + Weight(s[0]), numbered)) + [Label(s[0], cur, numbered)]
  {
    var l := Labelled(s, first, numbered);
    assert l[1..] == Labelled(s[1..], first + Weight(s[0]), numbered);
  }

  lemma {:induction false} LabelledSnoc(segs: seq<string>, last: string, num: int, numbered: bool)
    ensures Labelled(segs + [last], num, numbered) == Labelled(segs, num, numbered) + [Label(last, num + Count(segs),
        numbered)]
  {
    if segs == [] {
      assert segs + [last] == [last] && [last][1..] == [];
    } else {
      LabelledSnoc(segs[1..], last, num + Weight(segs[0]), numbered);
      assert (segs + [last])[1..] == segs[1..] + [last];
    }
  }

  lemma {:induction false} ReversedSnoc(outs: seq<Out>, o: Out)
    ensures Reversed(outs + [o]) == [o] + Reversed(outs)
  {
    if outs == [] {
      assert outs + [o] == [o];
    } else {
      ReversedSnoc(outs[1..], o);
      assert (outs + [o])[1..] == outs[1..] + [o];
    }
  }

  lemma WithoutFirst(s: seq<string>, first: int, numbered: bool)
    requires |s| >= 1
    ensures var r := Reversed(Labelled(s, first, numbered));
            |r| >= 1 && r[..|r| - 1] == Reversed(Labelled(s[1..], first + Weight(s[0]), numbered))
  {
    LastLine(s, first, numbered, first);
  }

  lemma LastEmpty(s: seq<string>, first: int, numbered: bool)
    requires |s| >= 1 && s[|s| - 1] == []
    ensures Reversed(Labelled(s, first, numbered)) == [Out(None, [])] + Reversed(Labelled(s[..|s| - 1], first,
        numbered))
  {
    var n := |s| - 1;
    assert s == s[..n] + [[]];
    LabelledSnoc(s[..n], [], first, numbered);
    ReversedSnoc(Labelled(s[..n], first, numbered), Out(None, []));
  }

  /** Reverse printing gives what forward printing gives, backwards: after a last newline
      it also prints the empty segment, and it leaves out an empty first one. */
  lemma ReverseOfForward(s: seq<string>, first: int, numbered: bool)
    requires |s| >= 1
    ensures var r := (if s[|s| - 1] == [] then [Out(None, [])] else []) + Reversed(Labelled(Trimmed(s), first,
        numbered));
            |r| >= 1 && Backwards(s, first, numbered) == if s[0] == [] then r[..|r| - 1] else r
  {
    if s[|s| - 1] == [] {
      LastEmpty(s, first, numbered);
    } else {
      assert [] + Reversed(Labelled(s, first, numbered)) == Reversed(Labelled(s, first, numbered));
    }
    WithoutFirst(s, first, numbered);
  }
}
