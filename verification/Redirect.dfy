/** How the shell finds the redirections of a command in the bare texts of its tokens, and
    when it finds those that were written. */
module Redirect {
  import opened Options
  import opened Shell

  datatype File = File(name: string, append: bool)

  /** What a command runs with: its arguments and the files on either side. */
  datatype Exec = Exec(args: seq<string>, ins: seq<File>, outs: seq<File>)

  const BUILTINS := {"hop", "reveal", "peek", "locate", "activities", "resume", "ping", "spy", "snoop"}

  /** Which redirections: those of the input, of the output, or both. */
  datatype Side = In | Out | Both

  /** The texts the code compares with. */
  predicate IsOp(d: Side, s: string) { (!d.Out? && s == "<") || (!d.In? && (s == ">" || s == ">>")) }

  predicate OpKind(d: Side, k: Kind) { (!d.Out? && k.LT?) || (!d.In? && (k.GT? || k.GTGT?)) }

  // ----- what the code reads from the texts -----

  function Texts(toks: seq<Token>): (args: seq<string>)
    ensures |args| == |toks| && forall k :: 0 <= k < |toks| ==> args[k] == toks[k].content
  {
    seq(|toks|, k requires 0 <= k < |toks| => toks[k].content)
  }

  /** The arguments: every redirection is dropped with the text behind it. */
  function Clean(args: seq<string>): seq<string> {
    if args == [] then []
    else if !IsOp(Both, args[0]) then [args[0]] + Clean(args[1..])
    else if |args| == 1 then [] else Clean(args[2..])
  }

  function Before(f: File, r: Option<seq<File>>): Option<seq<File>> {
    match r
    case None => None
    case Some(fs) => Some([f] + fs)
  }

  /** The files of one direction; nothing if a redirection is the last text. */
  function Files(d: Side, args: seq<string>): Option<seq<File>> {
    if args == [] then Some([])
    else if !IsOp(d, args[0]) then Files(d, args[1..])
    else if |args| == 1 then None
    else Before(File(args[1], args[0] == ">>"), Files(d, args[2..]))
  }

  /** What is run, if anything is: a command needs a name and its files, and a built-in
      command is not run in the background. */
  function Read(args: seq<string>, background: bool): Option<Exec> {
    var c, ins, outs := Clean(args), Files(In, args), Files(Out, args);
    if c == [] || (background && c[0] in BUILTINS) || ins.None? || outs.None? then None
    else Some(Exec(c, ins.value, outs.value))
  }

  // ----- the loops over the texts -----

  /** What a loop that may step over the end has still to read. */
  function From(args: seq<string>, i: nat): (rest: seq<string>)
    ensures i <= |args| ==> rest == args[i..]
    ensures i >= |args| ==> rest == []
  {
    if i <= |args| then args[i..] else []
  }

  lemma FromStep(args: seq<string>, i: nat)
    requires i < |args|
    ensures From(args, i)[0] == args[i] && From(args, i)[1..] == From(args, i + 1)
    ensures |From(args, i)| == 1 ==> i + 1 == |args|
    ensures |From(args, i)| > 1 ==> From(args, i)[1] == args[i + 1] && From(args, i)[2..] == From(args, i + 2)
  {
  }

  method CleanArgs(args: seq<string>) returns (clean: seq<string>)
    ensures clean == Clean(args)
  {
    clean := [];
    var i := 0;
    while i < |args|
      invariant Clean(args) == clean + Clean(From(args, i))
    {
      FromStep(args, i);
      if IsOp(Both, args[i]) {
        i := i + 1;
      } else {
        clean := clean + [args[i]];
      }
      i := i + 1;
    }
  }

  function After(fs: seq<File>, r: Option<seq<File>>): Option<seq<File>> {
    match r
    case None => None
    case Some(gs) => Some(fs + gs)
  }

  lemma AfterBefore(fs: seq<File>, f: File, r: Option<seq<File>>)
    ensures After(fs, Before(f, r)) == After(fs + [f], r)
  {
    if r.Some? { assert fs + ([f] + r.value) == fs + [f] + r.value; }
  }

  lemma AfterNone(r: Option<seq<File>>)
    ensures After([], r) == r
  {
    if r.Some? { assert [] + r.value == r.value; }
  }

  method FindFiles(d: Side, args: seq<string>) returns (r: Option<seq<File>>)
    ensures r == Files(d, args)
  {
    var fs := [];
    var i := 0;
    AfterNone(Files(d, args));
    assert From(args, 0) == args;
    while i < |args|
      invariant i <= |args| && Files(d, args) == After(fs, Files(d, From(args, i)))
    {
      FromStep(args, i);
      if IsOp(d, args[i]) {
        if i + 1 >= |args| { return None; }
        AfterBefore(fs, File(args[i + 1], args[i] == ">>"), Files(d, From(args, i + 2)));
        fs := fs + [File(args[i + 1], args[i] == ">>")];
        i := i + 1;
      }
      i := i + 1;
    }
    assert fs + [] == fs;
    r := Some(fs);
  }

  method ReadArgs(args: seq<string>, background: bool) returns (r: Option<Exec>)
    ensures r == Read(args, background)
  {
    var clean := CleanArgs(args);
    if clean == [] { return None; }
    if background && clean[0] in BUILTINS { return None; }
    var ins := FindFiles(In, args);
    if ins.None? { return None; }
    var outs := FindFiles(Out, args);
    if outs.None? { return None; }
    r := Some(Exec(clean, ins.value, outs.value));
  }

  // ----- what was written -----

  /** The tokens that are neither a redirection nor its file. */
  function Args(toks: seq<Token>): seq<string> {
    if toks == [] then []
    else if !OpKind(Both, toks[0].kind) then [toks[0].content] + Args(toks[1..])
    else if |toks| == 1 then [] else Args(toks[2..])
  }

  /** The files behind the redirections of one direction. */
  function Written(d: Side, toks: seq<Token>): seq<File> {
    if toks == [] then []
    else if OpKind(d, toks[0].kind) && |toks| > 1 then
      [File(toks[1].content, toks[0].kind.GTGT?)] + Written(d, toks[1..])
    else Written(d, toks[1..])
  }

  function Meant(toks: seq<Token>): Exec { Exec(Args(toks), Written(In, toks), Written(Out, toks)) }

  /** A word with the text of such a redirection that is not the file of one. */
  ghost predicate Odd(d: Side, toks: seq<Token>, k: int) {
    && 0 <= k < |toks| && toks[k].kind.WORD? && IsOp(d, toks[k].content)
    && !(k > 0 && OpKind(d, toks[k - 1].kind))
  }

  ghost predicate Clear(d: Side, toks: seq<Token>) { forall k :: !Odd(d, toks, k) }

  ghost predicate Unmistaken(toks: seq<Token>) { Clear(In, toks) && Clear(Out, toks) }

  /** Any stretch of an accepted segment that ends where it ends. */
  ghost predicate Paired(toks: seq<Token>) {
    && (forall k :: 0 <= k < |toks| ==> WellFormed(toks[k]))
    && (forall k :: 0 <= k < |toks| && OpKind(Both, toks[k].kind) ==> k + 1 < |toks| && toks[k + 1].kind.WORD?)
  }

  // ----- what was written, by position -----

  /** A redirection of the input, or of the output. */
  ghost predicate Redirects(d: Side, t: Token) {
    (d != Out && t.kind == LT) || (d != In && (t.kind == GT || t.kind == GTGT))
  }

  ghost predicate Rising(at: seq<nat>) { forall j, k :: 0 <= j < k < |at| ==> at[j] < at[k] }

  /** `f` is the file behind token `i`, for appending exactly behind `>>`. */
  ghost predicate FileAt(toks: seq<Token>, i: nat, f: File) {
    i + 1 < |toks| && f == File(toks[i + 1].content, toks[i].kind == GTGT)
  }

  /** `at` lists the redirections from `n` on, and `fs` the files behind them. */
  ghost predicate FilesAt(d: Side, toks: seq<Token>, n: nat, at: seq<nat>, fs: seq<File>) {
    && |fs| == |at| && Rising(at)
    && (forall k :: 0 <= k < |at| ==> n <= at[k] && FileAt(toks, at[k], fs[k]))
    && (forall i: nat :: i in at <==> n <= i < |toks| && Redirects(d, toks[i]))
  }

  /** A word that is neither a redirection nor the file of one. */
  ghost predicate IsArg(toks: seq<Token>, n: nat, i: nat) {
    n <= i < |toks| && !Redirects(Both, toks[i]) && !(i > n && Redirects(Both, toks[i - 1]))
  }

  ghost predicate ArgsAt(toks: seq<Token>, n: nat, at: seq<nat>, args: seq<string>) {
    && |args| == |at| && Rising(at)
    && (forall k :: 0 <= k < |at| ==> at[k] < |toks| && args[k] == toks[at[k]].content)
    && (forall i: nat :: i in at <==> IsArg(toks, n, i))
  }

  lemma FrontFile(d: Side, toks: seq<Token>, n: nat, at: seq<nat>, f: File, fs: seq<File>)
    requires FileAt(toks, n, f) && Redirects(d, toks[n]) && FilesAt(d, toks, n + 1, at, fs)
    ensures FilesAt(d, toks, n, [n] + at, [f] + fs)
  {
    FrontRising(n, at);
    forall i: nat
      ensures i in [n] + at <==> n <= i < |toks| && Redirects(d, toks[i])
    {
      assert i in at <==> n + 1 <= i < |toks| && Redirects(d, toks[i]);
    }
  }

  lemma FrontRising(n: nat, at: seq<nat>)
    requires Rising(at) && forall k :: 0 <= k < |at| ==> n < at[k]
    ensures Rising([n] + at)
  {
  }

  lemma FrontNoFile(d: Side, toks: seq<Token>, n: nat, at: seq<nat>, fs: seq<File>)
    requires n < |toks| && !Redirects(d, toks[n]) && FilesAt(d, toks, n + 1, at, fs)
    ensures FilesAt(d, toks, n, at, fs)
  {
    forall i: nat | i in at
      ensures n <= i < |toks| && Redirects(d, toks[i])
    {
      assert n + 1 <= i < |toks| && Redirects(d, toks[i]);
    }
  }

  lemma {:induction false} WrittenFrom(d: Side, toks: seq<Token>, n: nat) returns (at: seq<nat>)
    requires Paired(toks) && n <= |toks|
    ensures FilesAt(d, toks, n, at, Written(d, toks[n..]))
    decreases |toks| - n
  {
    if n == |toks| {
      at := [];
    } else {
      assert toks[n..][1..] == toks[n + 1..];
      at := WrittenFrom(d, toks, n + 1);
      if OpKind(d, toks[n].kind) {
        assert OpKind(Both, toks[n].kind) && n + 1 < |toks|;
        FrontFile(d, toks, n, at, File(toks[n + 1].content, toks[n].kind.GTGT?), Written(d, toks[n + 1..]));
        at := [n] + at;
      } else {
        FrontNoFile(d, toks, n, at, Written(d, toks[n + 1..]));
      }
    }
  }

  lemma FrontArg(toks: seq<Token>, n: nat, at: seq<nat>, args: seq<string>)
    requires n < |toks| && !Redirects(Both, toks[n]) && ArgsAt(toks, n + 1, at, args)
    ensures ArgsAt(toks, n, [n] + at, [toks[n].content] + args)
  {
    forall i: nat
      ensures i in [n] + at <==> IsArg(toks, n, i)
    {
      assert i in at <==> IsArg(toks, n + 1, i);
    }
    forall k | 0 <= k < |at| ensures at[k] > n { assert at[k] in at; }
  }

  lemma FrontNoArg(toks: seq<Token>, n: nat, at: seq<nat>, args: seq<string>)
    requires n + 1 < |toks| && Redirects(Both, toks[n]) && toks[n + 1].kind.WORD? && ArgsAt(toks, n + 2, at, args)
    ensures ArgsAt(toks, n, at, args)
  {
    forall i: nat
      ensures i in at <==> IsArg(toks, n, i)
    {
      assert i in at <==> IsArg(toks, n + 2, i);
    }
  }

  lemma {:induction false} ArgsFrom(toks: seq<Token>, n: nat) returns (at: seq<nat>)
    requires Paired(toks) && n <= |toks|
    ensures ArgsAt(toks, n, at, Args(toks[n..]))
    decreases |toks| - n
  {
    if n == |toks| {
      at := [];
    } else if OpKind(Both, toks[n].kind) {
      assert n + 1 < |toks| && toks[n + 1].kind.WORD?;
      assert toks[n..][2..] == toks[n + 2..];
      at := ArgsFrom(toks, n + 2);
      FrontNoArg(toks, n, at, Args(toks[n + 2..]));
    } else {
      assert toks[n..][1..] == toks[n + 1..];
      at := ArgsFrom(toks, n + 1);
      FrontArg(toks, n, at, Args(toks[n + 1..]));
      at := [n] + at;
    }
  }

  /** What a command is meant to run with: every redirection opens the file behind it, for
      appending exactly for `>>`, and all other words are its arguments, in order. */
  lemma MeantAt(toks: seq<Token>) returns (args: seq<nat>, ins: seq<nat>, outs: seq<nat>)
    requires Segment(toks) && Grammar(toks)
    ensures ArgsAt(toks, 0, args, Meant(toks).args)
    ensures FilesAt(In, toks, 0, ins, Meant(toks).ins) && FilesAt(Out, toks, 0, outs, Meant(toks).outs)
  {
    SegmentPaired(toks);
    assert toks[0..] == toks;
    args := ArgsFrom(toks, 0);
    ins := WrittenFrom(In, toks, 0);
    outs := WrittenFrom(Out, toks, 0);
  }

  // ----- the arguments -----

  lemma TextsDrop(toks: seq<Token>, n: nat)
    requires n <= |toks|
    ensures Texts(toks)[n..] == Texts(toks[n..])
  {
  }

  lemma PairedDrop(toks: seq<Token>, n: nat)
    requires Paired(toks) && n <= |toks|
    ensures Paired(toks[n..])
  {
    forall k | 0 <= k < |toks| - n && OpKind(Both, toks[n..][k].kind)
      ensures k + 1 < |toks| - n && toks[n..][k + 1].kind.WORD?
    {
      assert OpKind(Both, toks[n + k].kind);
    }
  }

  /** How far the code goes on when it reads the first token for what it is. */
  function Stride(d: Side, toks: seq<Token>): nat
    requires toks != []
  {
    if OpKind(d, toks[0].kind) then 2 else 1
  }

  lemma OddLater(d: Side, toks: seq<Token>, k: int)
    requires Paired(toks) && toks != [] && !Odd(d, toks, 0)
    ensures Stride(d, toks) <= |toks|
    ensures var n := Stride(d, toks); Odd(d, toks[n..], k) <==> k >= 0 && Odd(d, toks, k + n)
  {
    var n := Stride(d, toks);
    if OpKind(d, toks[0].kind) { assert OpKind(Both, toks[0].kind) && toks[1].kind.WORD?; }
    if 0 <= k < |toks| - n {
      assert toks[n..][k] == toks[k + n];
      if k > 0 { assert toks[n..][k - 1] == toks[k + n - 1]; }
    }
  }

  lemma ClearDrop(d: Side, toks: seq<Token>)
    requires Paired(toks) && toks != [] && !Odd(d, toks, 0)
    ensures Stride(d, toks) <= |toks|
    ensures Clear(d, toks[Stride(d, toks)..]) <==> Clear(d, toks)
  {
    var n := Stride(d, toks);
    OddLater(d, toks, 0);
    if Clear(d, toks) {
      forall k ensures !Odd(d, toks[n..], k) {
        OddLater(d, toks, k);
      }
    } else {
      var k :| Odd(d, toks, k);
      OddLater(d, toks, k - n);
      if k < n { OddInPair(d, toks); }
    }
  }

  lemma OddInPair(d: Side, toks: seq<Token>)
    requires Paired(toks) && |toks| > 1 && OpKind(d, toks[0].kind)
    ensures !Odd(d, toks, 0) && !Odd(d, toks, 1)
  {
  }

  lemma {:induction false} CleanNone(args: seq<string>)
    ensures forall s :: s in Clean(args) ==> !IsOp(Both, s)
    decreases |args|
  {
    if args != [] {
      if !IsOp(Both, args[0]) {
        CleanNone(args[1..]);
      } else if |args| > 1 {
        CleanNone(args[2..]);
      }
    }
  }

  lemma {:induction false} ArgsSame(toks: seq<Token>)
    requires Paired(toks) && Clear(Both, toks)
    ensures Clean(Texts(toks)) == Args(toks)
    decreases |toks|
  {
    if toks != [] {
      var n := Stride(Both, toks);
      ClearDrop(Both, toks);
      PairedDrop(toks, n);
      TextsDrop(toks, n);
      ArgsSame(toks[n..]);
      assert WellFormed(toks[0]) && !Odd(Both, toks, 0);
    }
  }

  lemma {:induction false} ArgsHas(toks: seq<Token>)
    requires Paired(toks) && !Clear(Both, toks)
    ensures exists s :: s in Args(toks) && IsOp(Both, s)
    decreases |toks|
  {
    if Odd(Both, toks, 0) {
      assert toks[0].content in Args(toks);
    } else {
      var k :| Odd(Both, toks, k);
      var n := Stride(Both, toks);
      ClearDrop(Both, toks);
      PairedDrop(toks, n);
      ArgsHas(toks[n..]);
      var s :| s in Args(toks[n..]) && IsOp(Both, s);
      assert s in Args(toks);
    }
  }

  lemma ArgsIff(toks: seq<Token>)
    requires Paired(toks)
    ensures Clean(Texts(toks)) == Args(toks) <==> Clear(Both, toks)
  {
    if Clear(Both, toks) {
      ArgsSame(toks);
    } else {
      ArgsHas(toks);
      CleanNone(Texts(toks));
    }
  }

  // ----- the files -----

  /** One redirection read as written. */
  lemma FilesStep(d: Side, toks: seq<Token>)
    requires Paired(toks) && toks != [] && OpKind(d, toks[0].kind)
    ensures |toks| > 1 && Written(d, toks) == [File(toks[1].content, toks[0].kind.GTGT?)] + Written(d, toks[2..])
    ensures Files(d, Texts(toks)) ==
            Before(File(toks[1].content, toks[0].kind.GTGT?), Files(d, Texts(toks[2..])))
  {
    assert OpKind(Both, toks[0].kind) && toks[1].kind.WORD? && WellFormed(toks[0]);
    assert toks[1..][1..] == toks[2..];
    TextsDrop(toks, 2);
  }

  lemma FilesSkip(d: Side, toks: seq<Token>)
    requires toks != [] && !OpKind(d, toks[0].kind) && WellFormed(toks[0])
    ensures Written(d, toks) == Written(d, toks[1..])
    ensures !(toks[0].kind.WORD? && IsOp(d, toks[0].content)) ==>
              Files(d, Texts(toks)) == Files(d, Texts(toks[1..]))
  {
    TextsDrop(toks, 1);
  }

  lemma BeforeIff(f: File, r: Option<seq<File>>, g: File, fs: seq<File>)
    ensures Before(f, r) == Some([g] + fs) <==> f == g && r == Some(fs)
  {
    if r.Some? && Before(f, r) == Some([g] + fs) {
      assert ([f] + r.value)[0] == f && ([f] + r.value)[1..] == r.value;
      assert ([g] + fs)[0] == g && ([g] + fs)[1..] == fs;
    }
  }

  lemma {:induction false} FilesSame(d: Side, toks: seq<Token>)
    requires Paired(toks) && Clear(d, toks)
    ensures Files(d, Texts(toks)) == Some(Written(d, toks))
    decreases |toks|
  {
    if toks != [] {
      var n := Stride(d, toks);
      assert WellFormed(toks[0]) && !Odd(d, toks, 0);
      if n == 2 { FilesStep(d, toks); } else { FilesSkip(d, toks); }
      ClearDrop(d, toks);
      PairedDrop(toks, n);
      FilesSame(d, toks[n..]);
    }
  }

  /** The code never finds fewer files than there are. */
  lemma {:induction false} FilesMore(d: Side, toks: seq<Token>)
    requires Paired(toks)
    ensures Files(d, Texts(toks)).Some? ==> |Files(d, Texts(toks)).value| >= |Written(d, toks)|
    decreases |toks|
  {
    if toks != [] {
      if OpKind(d, toks[0].kind) {
        FilesStep(d, toks);
        PairedDrop(toks, 2);
        FilesMore(d, toks[2..]);
      } else {
        FilesSkip(d, toks);
        PairedDrop(toks, 1);
        if toks[0].kind.WORD? && IsOp(d, toks[0].content) {
          MistakenMore(d, toks);
        } else {
          FilesMore(d, toks[1..]);
        }
      }
    }
  }

  lemma {:induction false} MistakenMore(d: Side, toks: seq<Token>)
    requires Paired(toks) && toks != [] && toks[0].kind.WORD? && IsOp(d, toks[0].content)
    ensures Files(d, Texts(toks)).Some? ==> |Files(d, Texts(toks)).value| >= |Written(d, toks)|
    decreases |toks|, 0
  {
    if |toks| > 1 {
      Mistaken(d, toks);
      PairedDrop(toks, 2);
      FilesMore(d, toks[2..]);
    }
  }

  /** A word taken for a redirection takes the next text for its file. */
  lemma Mistaken(d: Side, toks: seq<Token>)
    requires Paired(toks) && |toks| > 1 && toks[0].kind.WORD? && IsOp(d, toks[0].content)
    ensures Files(d, Texts(toks)) ==
            Before(File(toks[1].content, toks[0].content == ">>"), Files(d, Texts(toks[2..])))
    ensures OpKind(d, toks[1].kind) ==>
              && |toks| > 2 && toks[2].kind.WORD? && IsOp(d, toks[1].content)
              && Written(d, toks) == [File(toks[2].content, toks[1].kind.GTGT?)] + Written(d, toks[2..])
    ensures !OpKind(d, toks[1].kind) ==> Written(d, toks) == Written(d, toks[2..])
  {
    TextsDrop(toks, 2);
    PairedDrop(toks, 1);
    FilesSkip(d, toks);
    assert toks[1..][1..] == toks[2..];
    if OpKind(d, toks[1].kind) {
      assert OpKind(Both, toks[1].kind) && WellFormed(toks[1]);
      FilesStep(d, toks[1..]);
      assert toks[1..][2..] == toks[2..][1..];
      FilesSkip(d, toks[2..]);
    } else {
      assert WellFormed(toks[1]);
      FilesSkip(d, toks[1..]);
    }
  }

  /** From there the code cannot find the files that were written. */
  lemma {:induction false} MistakenDiffers(d: Side, toks: seq<Token>)
    requires Paired(toks) && toks != [] && toks[0].kind.WORD? && IsOp(d, toks[0].content)
    ensures Files(d, Texts(toks)) != Some(Written(d, toks))
    decreases |toks|
  {
    if |toks| > 1 {
      Mistaken(d, toks);
      PairedDrop(toks, 2);
      if OpKind(d, toks[1].kind) {
        BeforeIff(File(toks[1].content, toks[0].content == ">>"), Files(d, Texts(toks[2..])),
                  File(toks[2].content, toks[1].kind.GTGT?), Written(d, toks[2..]));
        if IsOp(d, toks[2].content) { MistakenDiffers(d, toks[2..]); }
      } else {
        FilesMore(d, toks[2..]);
      }
    }
  }

  lemma {:induction false} FilesDiffer(d: Side, toks: seq<Token>)
    requires Paired(toks) && !Clear(d, toks)
    ensures Files(d, Texts(toks)) != Some(Written(d, toks))
    decreases |toks|
  {
    if Odd(d, toks, 0) {
      MistakenDiffers(d, toks);
    } else {
      var k :| Odd(d, toks, k);
      var n := Stride(d, toks);
      ClearDrop(d, toks);
      PairedDrop(toks, n);
      FilesDiffer(d, toks[n..]);
      assert WellFormed(toks[0]);
      if n == 2 {
        FilesStep(d, toks);
        var f := File(toks[1].content, toks[0].kind.GTGT?);
        BeforeIff(f, Files(d, Texts(toks[2..])), f, Written(d, toks[2..]));
      } else {
        FilesSkip(d, toks);
      }
    }
  }

  lemma FilesIff(d: Side, toks: seq<Token>)
    requires Paired(toks)
    ensures Files(d, Texts(toks)) == Some(Written(d, toks)) <==> Clear(d, toks)
  {
    if Clear(d, toks) {
      FilesSame(d, toks);
    } else {
      FilesDiffer(d, toks);
    }
  }

  // ----- the command -----

  lemma SegmentPaired(toks: seq<Token>)
    requires Segment(toks) && Grammar(toks)
    ensures Paired(toks) && (toks != [] ==> toks[0].kind.WORD?)
  {
    forall k | 0 <= k < |toks|
      ensures WellFormed(toks[k])
      ensures OpKind(Both, toks[k].kind) ==> k + 1 < |toks| && toks[k + 1].kind.WORD?
    {
      assert toks[k] in toks;
      if OpKind(Both, toks[k].kind) { assert Placed(toks, k); }
    }
    if toks != [] { assert !Placed(toks, 0); }
  }

  /** A command is read as it was written exactly when no word could be taken for a
      redirection; a built-in command in the background is not run at all. */
  lemma ReadAsWritten(toks: seq<Token>, background: bool)
    requires Segment(toks) && Grammar(toks) && toks != []
    ensures Read(Texts(toks), background) == Some(Meant(toks)) <==>
              Unmistaken(toks) && !(background && toks[0].content in BUILTINS)
  {
    SegmentPaired(toks);
    ArgsIff(toks);
    FilesIff(In, toks);
    FilesIff(Out, toks);
    assert Args(toks)[0] == toks[0].content;
    if Unmistaken(toks) {
      forall k ensures !Odd(Both, toks, k) {
        assert !Odd(In, toks, k) && !Odd(Out, toks, k);
      }
    }
  }

  /** Words that survive a pipeline's way through text are never mistaken. */
  lemma KeptUnmistaken(toks: seq<Token>)
    requires AllKept(toks)
    ensures Unmistaken(toks)
  {
    forall d, k ensures !Odd(d, toks, k) {
      if 0 <= k < |toks| && IsOp(d, toks[k].content) {
        assert toks[k] in toks && !Plain(toks[k].content[0]);
      }
    }
  }

  const MISTAKEN := "echo \">\" x"

  const MISTAKENTOKENS := [Token("echo", WORD), Token(">", WORD), Token("x", WORD)]

  /** `echo ">" x` writes an empty line to x instead of printing two words. */
  lemma QuotedRedirection()
    ensures Lex(MISTAKEN) == Lexed(MISTAKENTOKENS, true) && Segment(MISTAKENTOKENS) && Grammar(MISTAKENTOKENS)
    ensures Meant(MISTAKENTOKENS) == Exec(["echo", ">", "x"], [], [])
    ensures Read(Texts(MISTAKENTOKENS), false) == Some(Exec(["echo"], [], [File("x", false)]))
  {
    MistakenLexed();
    MistakenMeant();
    MistakenRead();
  }

  lemma MistakenMeant()
    ensures Meant(MISTAKENTOKENS) == Exec(["echo", ">", "x"], [], [])
  {
    var toks := MISTAKENTOKENS;
    var last := [Token("x", WORD)];
    assert toks[1..] == [Token(">", WORD), Token("x", WORD)] && toks[1..][1..] == last && last[1..] == [];
    assert Args(last) == ["x"];
    assert Args(toks[1..]) == [">", "x"];
  }

  lemma MistakenRead()
    ensures Read(Texts(MISTAKENTOKENS), false) == Some(Exec(["echo"], [], [File("x", false)]))
  {
    var args := ["echo", ">", "x"];
    assert Texts(MISTAKENTOKENS) == args;
    assert args[1..] == [">", "x"] && args[1..][2..] == [] && args[1..][1..] == ["x"] && ["x"][1..] == [];
    assert Clean(args[1..]) == [];
    assert Files(In, ["x"]) == Some([]);
    assert Files(In, args[1..]) == Some([]);
    assert Files(Out, []) == Some([]) && |">"| != |">>"| && [File("x", false)] + [] == [File("x", false)];
    assert Files(Out, args[1..]) == Some([File("x", false)]);
    assert !IsOp(Both, args[0]) by { assert |args[0]| == 4; }
    assert Clean(args) == ["echo"];
  }

  lemma MistakenText()
    ensures "echo" + (" " + InQuotes(">", " x")) == MISTAKEN && " " + ("x" + []) == " x"
    ensures [Token("echo", WORD)] + ([Token(">", WORD)] + [Token("x", WORD)]) == MISTAKENTOKENS
  {
  }

  lemma MistakenLexed()
    ensures Lex(MISTAKEN) == Lexed(MISTAKENTOKENS, true)
  {
    StageReads([Token("x", WORD)], " ", []);
    MistakenText();
    QuotedNext("echo", ">", " x", [Token("x", WORD)]);
  }
}
