/** The loops of the shell's front end: lexer, parser, the cut into jobs, and the way of a
    pipeline from its tokens through a line of text back to the tokens of its stages. */
module ShellCode {
  import opened Options
  import opened Redirect
  import opened Shell

  const PIPE_LINE := 8192
  const MAX_PIPE_COMMANDS := 256

  // ----- lexer -----

  /** The tokens found and what is still to come make up the whole answer. */
  ghost predicate Reading(line: string, i: nat, st: State, buf: string, toks: seq<Token>) {
    i <= |line| && (st == Start ==> buf == []) &&
    Lex(line) == Lexed(toks + Rest(st, line[i..], buf).toks, Rest(st, line[i..], buf).ok)
  }

  lemma Emitted(line: string, i: nat, st: State, buf: string, toks: seq<Token>, t: Token, i2: nat)
    requires Reading(line, i, st, buf, toks) && i2 <= |line|
             && Rest(st, line[i..], buf) == Emit(t, Rest(Start, line[i2..], []))
    ensures Reading(line, i2, Start, [], toks + [t])
  {
    var r := Rest(Start, line[i2..], []).toks;
    assert toks + ([t] + r) == toks + [t] + r;
  }

  lemma Shifted(line: string, i: nat, n: nat)
    requires i + n <= |line|
    ensures line[i..][n..] == line[i + n..]
  {
  }

  /** One turn in the start state. */
  method StartTurn(line: string, i: nat, toks: seq<Token>) returns (i2: nat, st: State, buf: string, toks2: seq<Token>)
    requires Reading(line, i, Start, [], toks) && i < |line|
    ensures Reading(line, i2, st, buf, toks2) && i < i2
  {
    var c := line[i];
    Shifted(line, i, 1);
    i2, st, buf, toks2 := i + 1, Start, [], toks;
    if Operator(c) {
      var twice := i + 1 < |line| && line[i + 1] == c;
      var t := Token([c], WORD);
      if c == '|' {
        t := Token("|", PIPE);
      } else if c == '&' {
        t := Token("&", AMP);
      } else if c == ';' {
        t := Token(";", SEMI);
      } else if c == '<' {
        if twice { t := Token("<<", LTLT); i2 := i + 2; } else { t := Token("<", LT); }
      } else {
        if twice { t := Token(">>", GTGT); i2 := i + 2; } else { t := Token(">", GT); }
      }
      assert t == OperatorAt(line[i..]) && i2 == i + |t.content|;
      Shifted(line, i, |t.content|);
      Emitted(line, i, Start, [], toks, t, i2);
      toks2 := toks + [t];
    } else if Quoting(c) {
      st := Quote(c);
    } else if !Blank(c) {
      st, buf := InWord, [c];
      assert [] + [c] == [c];
    }
  }

  /** One turn between double quotes. */
  method DquoteTurn(line: string, i: nat, buf: string, ghost toks: seq<Token>)
    returns (i2: nat, st: State, buf2: string, failed: bool)
    requires Reading(line, i, InDquote, buf, toks) && i < |line|
    ensures failed ==> Lex(line) == Lexed(toks, false)
    ensures !failed ==> Reading(line, i2, st, buf2, toks) && i < i2
  {
    i2, st, buf2, failed := i + 1, InDquote, buf, false;
    Shifted(line, i, 1);
    if line[i] == '"' {
      st := InWord;
    } else if line[i] == '\\' {
      if i + 1 == |line| {
        assert toks + [] == toks;
        failed := true;
      } else {
        Shifted(line, i, 2);
        i2 := i + 2;
        if line[i + 1] == '"' || line[i + 1] == '\\' {
          buf2 := buf + [line[i + 1]];
        } else {
          buf2 := buf + ['\\', line[i + 1]];
        }
      }
    } else {
      buf2 := buf + [line[i]];
    }
  }

  method Lexer(line: string) returns (toks: seq<Token>, ok: bool)
    ensures Lexed(toks, ok) == Lex(line)
  {
    var st, i, buf := Start, 0, "";
    toks, ok := [], true;
    assert line[0..] == line && [] + Lex(line).toks == Lex(line).toks;
    while true
      invariant ok && Reading(line, i, st, buf, toks)
      decreases |line| - i, if st == InWord then 1 else 0
    {
      Stopped(line, i, st, buf, toks);
      if st == InWord && (i == |line| || EndsWord(line[i])) {
        Emitted(line, i, st, buf, toks, Token(buf, WORD), i);
        toks, buf, st := toks + [Token(buf, WORD)], [], Start;
      } else if i == |line| {
        ok := st == Start;
        break;
      } else if st == Start {
        i, st, buf, toks := StartTurn(line, i, toks);
      } else if st == InDquote {
        var failed;
        i, st, buf, failed := DquoteTurn(line, i, buf, toks);
        if failed { ok := false; break; }
      } else {
        Shifted(line, i, 1);
        if st == InWord && Quoting(line[i]) {
          st := Quote(line[i]);
        } else if st == InSquote && line[i] == '\'' {
          st := InWord;
        } else {
          buf := buf + [line[i]];
          st := if st == InSquote then InSquote else InWord;
        }
        i := i + 1;
      }
    }
  }

  lemma Stopped(line: string, i: nat, st: State, buf: string, toks: seq<Token>)
    requires Reading(line, i, st, buf, toks)
    ensures i == |line| && st != InWord ==> Lex(line) == Lexed(toks, st == Start)
  {
    assert toks + [] == toks;
  }

  /** Operators carry their own text. */
  lemma {:induction false} LexWellFormed(st: State, line: string, buf: string)
    ensures forall t :: t in Rest(st, line, buf).toks ==> WellFormed(t)
    decreases |line|, if st == InWord then 1 else 0
  {
    if st == InWord && (line == [] || EndsWord(line[0])) {
      LexWellFormed(Start, line, []);
    } else if line != [] {
      match st
      case Start =>
        if Operator(line[0]) {
          LexWellFormed(Start, line[|OperatorAt(line).content|..], buf);
        } else if Blank(line[0]) {
          LexWellFormed(Start, line[1..], buf);
        } else if Quoting(line[0]) {
          LexWellFormed(Quote(line[0]), line[1..], buf);
        } else {
          LexWellFormed(InWord, line[1..], buf + [line[0]]);
        }
      case InWord =>
        if Quoting(line[0]) {
          LexWellFormed(Quote(line[0]), line[1..], buf);
        } else {
          LexWellFormed(InWord, line[1..], buf + [line[0]]);
        }
      case InDquote =>
        if line[0] == '"' {
          LexWellFormed(InWord, line[1..], buf);
        } else if line[0] != '\\' {
          LexWellFormed(InDquote, line[1..], buf + [line[0]]);
        } else if |line| > 1 {
          if line[1] == '"' || line[1] == '\\' {
            LexWellFormed(InDquote, line[2..], buf + [line[1]]);
          } else {
            LexWellFormed(InDquote, line[2..], buf + ['\\', line[1]]);
          }
        }
      case InSquote =>
        if line[0] == '\'' {
          LexWellFormed(InWord, line[1..], buf);
        } else {
          LexWellFormed(InSquote, line[1..], buf + [line[0]]);
        }
      case AfterEscape =>
        LexWellFormed(InWord, line[1..], buf + [line[0]]);
    }
  }

  // ----- parser -----

  datatype Parse = QStart | QArg | QCmd | QTgt | QBg

  /** The grammar, for the tokens before `i`. */
  ghost predicate Parsed(toks: seq<Token>, i: nat, q: Parse)
    requires i <= |toks|
  {
    && (forall k :: 0 <= k < i && !toks[k].kind.WORD? ==>
           k > 0 && toks[k - 1].kind.WORD? && (k + 1 < i ==> toks[k + 1].kind.WORD?))
    && q == (if i == 0 then QStart else AfterToken(toks[i - 1].kind))
  }

  ghost function AfterToken(kind: Kind): Parse {
    match kind
    case WORD => QArg
    case PIPE => QCmd
    case SEMI => QCmd
    case AMP => QBg
    case _ => QTgt
  }

  method Parser(toks: seq<Token>) returns (bad: bool)
    ensures bad <==> !Grammar(toks)
  {
    var q := QStart;
    var i := 0;
    while i < |toks|
      invariant 0 <= i <= |toks| && Parsed(toks, i, q)
    {
      var kind := toks[i].kind;
      if q != QArg && !kind.WORD? {
        assert !Placed(toks, i);
        return true;
      }
      if kind.WORD? {
        q := QArg;
      } else if kind.PIPE? || kind.SEMI? {
        q := QCmd;
      } else if kind.AMP? {
        q := QBg;
      } else {
        q := QTgt;
      }
      i := i + 1;
    }
    bad := q == QCmd || q == QTgt;
    if bad {
      assert !Placed(toks, i - 1);
    } else {
      forall k | 0 <= k < |toks| && !toks[k].kind.WORD? ensures Placed(toks, k) { }
    }
  }

  // ----- the line cut into jobs -----

  datatype Job = Job(toks: seq<Token>, background: bool)

  predicate EndsJob(t: Token) { t.kind.SEMI? || t.kind.AMP? }

  function JobOf(toks: seq<Token>, background: bool): seq<Job> {
    if toks == [] then [] else [Job(toks, background)]
  }

  /** The jobs complete before token `i`, and where the open one starts. */
  datatype Cut = Cut(jobs: seq<Job>, start: nat)

  function CutTo(toks: seq<Token>, i: nat): (c: Cut)
    requires i <= |toks|
    ensures c.start <= i
  {
    if i == 0 then Cut([], 0)
    else
      var c := CutTo(toks, i - 1);
      var t := toks[i - 1];
      if EndsJob(t) then Cut(c.jobs + JobOf(toks[c.start..i - 1], t.kind.AMP?), i) else c
  }

  function Jobs(toks: seq<Token>): seq<Job> {
    var c := CutTo(toks, |toks|);
    c.jobs + JobOf(toks[c.start..|toks|], false)
  }

  function JobTokens(jobs: seq<Job>): seq<Token> {
    if jobs == [] then [] else JobTokens(jobs[..|jobs| - 1]) + jobs[|jobs| - 1].toks
  }

  /** The first `i` tokens without the `;` and `&`. */
  function Inner(toks: seq<Token>, i: nat): seq<Token>
    requires i <= |toks|
  {
    if i == 0 then [] else Inner(toks, i - 1) + if EndsJob(toks[i - 1]) then [] else [toks[i - 1]]
  }

  lemma AddedTokens(jobs: seq<Job>, toks: seq<Token>, background: bool)
    ensures JobTokens(jobs + JobOf(toks, background)) == JobTokens(jobs) + toks
  {
    if toks == [] {
      assert jobs + [] == jobs && JobTokens(jobs) + toks == JobTokens(jobs);
    } else {
      var all := jobs + [Job(toks, background)];
      assert all[..|all| - 1] == jobs;
    }
  }

  lemma OpenMore(done: seq<Token>, toks: seq<Token>, start: nat, i: nat)
    requires start < i <= |toks|
    ensures done + toks[start..i] == done + toks[start..i - 1] + [toks[i - 1]]
  {
  }

  lemma {:induction false} CutKeepsTokens(toks: seq<Token>, i: nat)
    requires i <= |toks|
    ensures JobTokens(CutTo(toks, i).jobs) + toks[CutTo(toks, i).start..i] == Inner(toks, i)
  {
    if i > 0 {
      CutKeepsTokens(toks, i - 1);
      var c := CutTo(toks, i - 1);
      if EndsJob(toks[i - 1]) {
        AddedTokens(c.jobs, toks[c.start..i - 1], toks[i - 1].kind.AMP?);
        Ended(JobTokens(CutTo(toks, i).jobs), toks, i);
      } else {
        OpenMore(JobTokens(c.jobs), toks, c.start, i);
      }
    }
  }

  lemma Ended(done: seq<Token>, toks: seq<Token>, i: nat)
    requires i <= |toks|
    ensures done + toks[i..i] == done && done + [] == done && (i == |toks| ==> done + toks[i..] == done)
  {
  }

  /** The jobs hold the tokens of the line, in order, without the `;` and `&`. */
  lemma JobsKeepTokens(toks: seq<Token>)
    ensures JobTokens(Jobs(toks)) == Inner(toks, |toks|)
  {
    var c := CutTo(toks, |toks|);
    CutKeepsTokens(toks, |toks|);
    AddedTokens(c.jobs, toks[c.start..|toks|], false);
  }

  ghost predicate GoodJob(j: Job) { j.toks != [] && Segment(j.toks) && Grammar(j.toks) }

  /** A job of a line with the tokens `toks`. */
  ghost predicate JobIn(j: Job, toks: seq<Token>) {
    GoodJob(j) && forall t :: t in j.toks ==> t in toks
  }

  /** A stretch between two places where a job ends. */
  lemma PartGrammar(toks: seq<Token>, i: nat, j: nat)
    requires Grammar(toks) && i <= j <= |toks| && (i > 0 ==> EndsJob(toks[i - 1])) && (j < |toks| ==> EndsJob(toks[j]))
    ensures Grammar(toks[i..j])
  {
    var a := toks[i..j];
    if i > 0 { assert Placed(toks, i - 1); }
    if j < |toks| { assert Placed(toks, j); }
    forall k | 0 <= k < |a| && !a[k].kind.WORD? ensures Placed(a, k) { assert Placed(toks, i + k); }
  }

  lemma PartJob(toks: seq<Token>, i: nat, j: nat, background: bool)
    requires Grammar(toks) && (forall t :: t in toks ==> WellFormed(t)) && i <= j <= |toks|
    requires (i > 0 ==> EndsJob(toks[i - 1])) && (j < |toks| ==> EndsJob(toks[j]))
    requires forall k :: i <= k < j ==> !EndsJob(toks[k])
    ensures forall job :: job in JobOf(toks[i..j], background) ==> JobIn(job, toks)
  {
    PartGrammar(toks, i, j);
    forall t | t in toks[i..j] ensures WellFormed(t) && !EndsJob(t) && t in toks {
      var k :| 0 <= k < j - i && toks[i..j][k] == t;
      assert toks[i + k] == t && t in toks;
    }
  }

  lemma {:induction false} CutAccepted(toks: seq<Token>, i: nat)
    requires Grammar(toks) && (forall t :: t in toks ==> WellFormed(t)) && i <= |toks|
    ensures var c := CutTo(toks, i);
            && (forall j :: j in c.jobs ==> JobIn(j, toks)) && (c.start > 0 ==> EndsJob(toks[c.start - 1]))
            && forall k :: c.start <= k < i ==> !EndsJob(toks[k])
  {
    if i > 0 {
      CutAccepted(toks, i - 1);
      var c := CutTo(toks, i - 1);
      if EndsJob(toks[i - 1]) { PartJob(toks, c.start, i - 1, toks[i - 1].kind.AMP?); }
    }
  }

  /** Every job of an accepted line is accepted, and has no `;` or `&` left in it. */
  lemma JobsAccepted(toks: seq<Token>)
    requires Grammar(toks) && forall t :: t in toks ==> WellFormed(t)
    ensures forall j :: j in Jobs(toks) ==> JobIn(j, toks)
  {
    var c := CutTo(toks, |toks|);
    CutAccepted(toks, |toks|);
    PartJob(toks, c.start, |toks|, false);
  }

  /** Tokens a .. b - 1 of a line. */
  datatype Span = Span(a: nat, b: nat)

  /** A stretch between two `;` or `&`, or the ends of the line, that is not empty. */
  ghost predicate Stretch(toks: seq<Token>, p: Span) {
    && p.a < p.b <= |toks|
    && (p.a == 0 || toks[p.a - 1].kind in {SEMI, AMP}) && (p.b == |toks| || toks[p.b].kind in {SEMI, AMP})
    && forall k :: p.a <= k < p.b ==> toks[k].kind !in {SEMI, AMP}
  }

  /** The job of a stretch: its tokens, in the background exactly when a `&` follows. */
  ghost predicate JobAt(toks: seq<Token>, p: Span, j: Job) {
    Stretch(toks, p) && j.toks == toks[p.a..p.b] && (j.background <==> p.b < |toks| && toks[p.b].kind == AMP)
  }

  /** The jobs are those of the stretches before `start`, all of them, in their order. */
  ghost predicate JobsOf(toks: seq<Token>, start: nat, jobs: seq<Job>, ps: seq<Span>) {
    && |ps| == |jobs| && (forall k :: 0 <= k < |ps| ==> JobAt(toks, ps[k], jobs[k]) && ps[k].b <= start)
    && (forall j, k :: 0 <= j < k < |ps| ==> ps[j].b <= ps[k].a)
    && (forall p :: Stretch(toks, p) && p.a < start ==> p in ps)
  }

  /** One more stretch, from `start` to `i`, is over. */
  lemma JobsMore(toks: seq<Token>, start: nat, i: nat, next: nat, jobs: seq<Job>, ps: seq<Span>, background: bool)
    returns (qs: seq<Span>)
    requires JobsOf(toks, start, jobs, ps) && start <= i <= |toks| && i <= next <= i + 1
    requires (start == 0 || EndsJob(toks[start - 1])) && (i < |toks| ==> EndsJob(toks[i]) && next == i + 1)
    requires forall k :: start <= k < i ==> !EndsJob(toks[k])
    requires background <==> i < |toks| && toks[i].kind.AMP?
    ensures JobsOf(toks, next, jobs + JobOf(toks[start..i], background), qs)
  {
    qs := if start < i then ps + [Span(start, i)] else ps;
    forall p | Stretch(toks, p) && p.a < next
      ensures p in qs
    {
      if p.a >= start { OpenStretch(toks, start, i, p); }
    }
    if start < i {
      assert JobAt(toks, Span(start, i), Job(toks[start..i], background));
    } else {
      assert jobs + [] == jobs;
    }
  }

  lemma OpenStretch(toks: seq<Token>, start: nat, i: nat, p: Span)
    requires start <= i <= |toks| && (i < |toks| ==> EndsJob(toks[i])) && Stretch(toks, p) && start <= p.a <= i
    requires forall k :: start <= k < i ==> !EndsJob(toks[k])
    ensures p == Span(start, i)
  {
    assert p.a > start ==> !EndsJob(toks[p.a - 1]);
    assert p.b < i ==> !EndsJob(toks[p.b]);
  }

  lemma {:induction false} CutIsStretches(toks: seq<Token>, i: nat) returns (ps: seq<Span>)
    requires i <= |toks|
    ensures var c := CutTo(toks, i);
            && JobsOf(toks, c.start, c.jobs, ps) && (c.start == 0 || EndsJob(toks[c.start - 1]))
            && forall k :: c.start <= k < i ==> !EndsJob(toks[k])
  {
    ps := [];
    if i > 0 {
      ps := CutIsStretches(toks, i - 1);
      var c := CutTo(toks, i - 1);
      if EndsJob(toks[i - 1]) {
        ps := JobsMore(toks, c.start, i - 1, i, c.jobs, ps, toks[i - 1].kind.AMP?);
      }
    }
  }

  /** The jobs of a line are, in order, its stretches of tokens without `;` and `&`, each in
      the background exactly when it ends with `&`. */
  lemma JobsAreStretches(toks: seq<Token>) returns (ps: seq<Span>)
    ensures |ps| == |Jobs(toks)| && (forall k :: 0 <= k < |ps| ==> JobAt(toks, ps[k], Jobs(toks)[k]))
    ensures forall j, k :: 0 <= j < k < |ps| ==> ps[j].b <= ps[k].a
    ensures forall p :: Stretch(toks, p) ==> p in ps
  {
    var c := CutTo(toks, |toks|);
    ps := CutIsStretches(toks, |toks|);
    ps := JobsMore(toks, c.start, |toks|, |toks| + 1, c.jobs, ps, false);
  }

  method Split(toks: seq<Token>) returns (jobs: seq<Job>, ghost ps: seq<Span>)
    ensures jobs == Jobs(toks)
    ensures |ps| == |jobs| && forall k :: 0 <= k < |ps| ==> JobAt(toks, ps[k], jobs[k])
    ensures forall j, k :: 0 <= j < k < |ps| ==> ps[j].b <= ps[k].a
    ensures forall p :: Stretch(toks, p) ==> p in ps
  {
    ps := JobsAreStretches(toks);
    jobs := [];
    var start, cur := 0, 0;
    while true
      invariant 0 <= start <= cur <= |toks| && CutTo(toks, cur) == Cut(jobs, start)
      decreases |toks| - cur
    {
      var isEnd := cur == |toks|;
      if isEnd || EndsJob(toks[cur]) {
        var background := !isEnd && toks[cur].kind.AMP?;
        ghost var before := jobs;
        if cur > start { jobs := jobs + [Job(toks[start..cur], background)]; }
        assert jobs == before + JobOf(toks[start..cur], background);
        if isEnd { break; }
        start := cur + 1;
      }
      cur := cur + 1;
    }
  }

  // ----- from a pipeline's tokens to text and back -----

  method HasPipe(toks: seq<Token>) returns (found: bool)
    ensures found <==> Piped(toks)
  {
    var i := 0;
    while i < |toks|
      invariant 0 <= i <= |toks| && forall k :: 0 <= k < i ==> !toks[k].kind.PIPE?
    {
      if toks[i].kind.PIPE? { return true; }
      i := i + 1;
    }
    return false;
  }

  lemma JoinFrom(toks: seq<Token>, i: nat)
    requires i < |toks|
    ensures Join(toks[i..]) == toks[i].content + if i + 1 < |toks| then " " + Join(toks[i + 1..]) else []
  {
    assert toks[i..][1..] == toks[i + 1..];
  }

  /** `memcpy` of a token's text. */
  method Copy(out: array<char>, pos: nat, text: string)
    requires pos + |text| <= out.Length
    modifies out
    ensures out[..pos + |text|] == old(out[..pos]) + text
  {
    for j := 0 to |text|
      invariant out[..pos + j] == old(out[..pos]) + text[..j]
    {
      out[pos + j] := text[j];
      assert out[..pos + j + 1] == out[..pos + j] + [text[j]];
    }
  }

  /** The text of the first `i` tokens stands in the buffer, and a space if there are more. */
  ghost predicate Filled(toks: seq<Token>, i: nat, text: string) {
    i <= |toks| && Join(toks) == text + Join(toks[i..])
  }

  lemma FillStep(toks: seq<Token>, i: nat, text: string)
    requires Filled(toks, i, text) && i < |toks|
    ensures Filled(toks, i + 1, text + toks[i].content + if i + 1 < |toks| then " " else [])
    ensures |text| + |toks[i].content| <= |Join(toks)|
  {
    JoinFrom(toks, i);
    var c, rest := toks[i].content, Join(toks[i + 1..]);
    if i + 1 < |toks| {
      assert text + (c + (" " + rest)) == text + c + " " + rest;
    } else {
      assert toks[i + 1..] == [];
      assert text + (c + []) == text + c + [] + rest;
    }
  }

  /** Fills the buffer with the segment's text and a NUL, unless it is too small. */
  method BuildLine(toks: seq<Token>, out: array<char>) returns (ok: bool)
    requires out.Length > 0
    modifies out
    ensures ok <==> toks == [] || |Join(toks)| + 1 < out.Length
    ensures ok ==> |Join(toks)| < out.Length && out[..|Join(toks)|] == Join(toks) && out[|Join(toks)|] == '\0'
  {
    var pos, i := 0, 0;
    assert toks[0..] == toks;
    while i < |toks|
      invariant 0 <= i <= |toks| && 0 <= pos < out.Length && (0 < i ==> pos + 1 < out.Length || i < |toks|)
      invariant Filled(toks, i, out[..pos])
    {
      FillStep(toks, i, out[..pos]);
      var len := |toks[i].content|;
      if pos + len + 1 >= out.Length { return false; }
      Copy(out, pos, toks[i].content);
      pos := pos + len;
      i := i + 1;
      if i < |toks| {
        out[pos] := ' ';
        assert out[..pos + 1] == out[..pos] + " ";
        pos := pos + 1;
      } else {
        assert out[..pos] + [] == out[..pos];
      }
    }
    assert toks[i..] == [] && out[..pos] + [] == out[..pos];
    out[pos] := '\0';
    ok := true;
  }

  /** The string in the buffer: what stands before its first NUL. */
  method Text(out: array<char>) returns (s: string)
    ensures |s| <= out.Length && s == out[..|s|] && '\0' !in s && (|s| < out.Length ==> out[|s|] == '\0')
  {
    var n := 0;
    while n < out.Length && out[n] != '\0'
      invariant 0 <= n <= out.Length && forall k :: 0 <= k < n ==> out[k] != '\0'
    {
      n := n + 1;
    }
    s := out[..n];
  }

  lemma {:induction false} JoinNoNul(toks: seq<Token>)
    requires NoNul(toks)
    ensures '\0' !in Join(toks)
  {
    if toks != [] {
      assert '\0' !in toks[0].content;
      if |toks| > 1 { JoinNoNul(toks[1..]); }
    }
  }

  lemma {:induction false} PiecesSkip(s: string, p: nat, q: nat)
    requires p <= q <= |s| && forall k :: p <= k < q ==> s[k] == '|'
    ensures Pieces(s[p..]) == Pieces(s[q..])
    decreases q - p
  {
    if p < q {
      assert s[p..][1..] == s[p + 1..];
      PiecesSkip(s, p + 1, q);
    }
  }

  lemma PieceAt(s: string, p: nat, q: nat)
    requires p < q <= |s| && (forall k :: p <= k < q ==> s[k] != '|') && (q < |s| ==> s[q] == '|')
    ensures Pieces(s[p..]) == [s[p..q]] + Pieces(s[q..])
  {
    assert s[p..] == s[p..q] + s[q..];
    CutPiece(s[p..q], s[q..]);
  }

  /** The `strtok` loop, with the bound on the number of commands. */
  method Commands(line: string) returns (ok: bool, cmds: seq<string>)
    ensures ok <==> |Pieces(line)| <= MAX_PIPE_COMMANDS
    ensures ok ==> cmds == Pieces(line)
  {
    cmds := [];
    var p := 0;
    assert line[0..] == line;
    while true
      invariant 0 <= p <= |line| && Pieces(line) == cmds + Pieces(line[p..]) && |cmds| <= MAX_PIPE_COMMANDS
      decreases |line| - p
    {
      var from := p;
      while p < |line| && line[p] == '|'
        invariant from <= p <= |line| && forall k :: from <= k < p ==> line[k] == '|'
      {
        p := p + 1;
      }
      PiecesSkip(line, from, p);
      if p == |line| {
        assert line[p..] == [];
        return true, cmds;
      }
      var q := p;
      while q < |line| && line[q] != '|'
        invariant p <= q <= |line| && forall k :: p <= k < q ==> line[k] != '|'
      {
        q := q + 1;
      }
      PieceAt(line, p, q);
      if |cmds| >= MAX_PIPE_COMMANDS { return false, []; }
      cmds := cmds + [line[p..q]];
      p := q;
    }
  }

  /** What the child of a stage lexes, if it gets past the checks. */
  ghost predicate StageIs(cmd: string, r: Option<seq<Token>>) {
    var l := Lex(cmd);
    if l.ok && l.toks != [] && Grammar(l.toks) then r == Some(l.toks) else r.None?
  }

  method Stage(cmd: string) returns (r: Option<seq<Token>>)
    ensures StageIs(cmd, r)
  {
    var toks, ok := Lexer(cmd);
    if !ok || toks == [] { return None; }
    var bad := Parser(toks);
    r := if bad then None else Some(toks);
  }

  method Stages(cmds: seq<string>) returns (stages: seq<Option<seq<Token>>>)
    ensures |stages| == |cmds| && forall k :: 0 <= k < |cmds| ==> StageIs(cmds[k], stages[k])
  {
    stages := [];
    for i := 0 to |cmds|
      invariant |stages| == i && forall k :: 0 <= k < i ==> StageIs(cmds[k], stages[k])
    {
      var s := Stage(cmds[i]);
      stages := stages + [s];
    }
  }

  /** The stages that run are the token lists between the pipes. */
  ghost predicate AsWritten(stages: seq<Option<seq<Token>>>, toks: seq<Token>) {
    |stages| == |Groups(toks)| && forall k :: 0 <= k < |stages| ==> stages[k] == Some(Groups(toks)[k])
  }

  lemma AsWrittenIff(toks: seq<Token>, ps: seq<string>, stages: seq<Option<seq<Token>>>)
    requires GoodJob(Job(toks, false)) && |ps| == |stages| && forall k :: 0 <= k < |ps| ==> StageIs(ps[k], stages[k])
    ensures AsWritten(stages, toks) <==> Relexed(ps, Groups(toks))
  {
    GroupsAccepted(toks);
    var gs := Groups(toks);
    if AsWritten(stages, toks) {
      forall k | 0 <= k < |gs| ensures Lex(ps[k]) == Lexed(gs[k], true) { assert StageIs(ps[k], stages[k]); }
    }
    if Relexed(ps, gs) {
      forall k | 0 <= k < |stages| ensures stages[k] == Some(gs[k]) {
        assert StageIs(ps[k], stages[k]);
        assert gs[k] != [] && Grammar(gs[k]);
      }
    }
  }

  lemma GroupsOfPipe(toks: seq<Token>)
    requires Piped(toks)
    ensures |Groups(toks)| >= 2
  {
    var k := FirstPipe(toks);
    assert k < |toks|;
  }

  /** A pipeline up to the start of its stages. It is refused for its size alone when its
      words are kept, and runs as written exactly when they are. */
  method Pipeline(toks: seq<Token>) returns (r: Option<seq<Option<seq<Token>>>>)
    requires GoodJob(Job(toks, false)) && Piped(toks) && NoNul(toks)
    ensures r.Some? ==> (AsWritten(r.value, toks) <==> AllKept(toks))
    ensures AllKept(toks) ==> (r.None? <==> |Join(toks)| + 1 >= PIPE_LINE || |Groups(toks)| > MAX_PIPE_COMMANDS)
  {
    GroupsOfPipe(toks);
    RelexingKeepsMeaning(toks);
    var out := new char[PIPE_LINE];
    var built := BuildLine(toks, out);
    if !built { return None; }
    JoinNoNul(toks);
    var line := Text(out);
    SameText(out, line, Join(toks));
    var ok, cmds := Commands(line);
    if !ok || |cmds| < 2 { return None; }
    var stages := Stages(cmds);
    AsWrittenIff(toks, cmds, stages);
    r := Some(stages);
  }

  lemma SameText(out: array<char>, s: string, text: string)
    requires |s| <= out.Length && s == out[..|s|] && '\0' !in s && (|s| < out.Length ==> out[|s|] == '\0')
    requires |text| < out.Length && out[..|text|] == text && out[|text|] == '\0' && '\0' !in text
    ensures s == text
  {
    assert |s| >= |text|;
    assert |s| == |text|;
  }

  ghost predicate NoNul(toks: seq<Token>) {
    forall t :: t in toks ==> '\0' !in t.content
  }

  lemma {:induction false} CntPresent(s: string, c: char)
    requires Cnt(s, c) == 0
    ensures c !in s
  {
    if s != [] {
      CntPresent(s[1..], c);
      assert s == [s[0]] + s[1..];
    }
  }

  lemma {:induction false} AllAbsent(toks: seq<Token>, c: char)
    requires CntAll(toks, c) == 0
    ensures forall t :: t in toks ==> c !in t.content
  {
    if toks != [] {
      CntPresent(toks[0].content, c);
      AllAbsent(toks[1..], c);
      assert toks == [toks[0]] + toks[1..];
    }
  }

  /** A line that is read without complaint: its jobs are all fit for `Pipeline`. */
  lemma LineJobs(line: string)
    requires '\0' !in line && Grammar(Lex(line).toks)
    ensures forall j :: j in Jobs(Lex(line).toks) ==> GoodJob(j) && NoNul(j.toks)
  {
    var toks := Lex(line).toks;
    LexWellFormed(Start, line, []);
    JobsAccepted(toks);
    CntAbsent(line, '\0');
    Bound(Start, line, [], '\0');
    AllAbsent(toks, '\0');
    forall j | j in Jobs(toks) ensures GoodJob(j) && NoNul(j.toks) { assert JobIn(j, toks); }
  }

  // ----- a whole line -----

  /** What the shell starts for a job: one command, if its texts make one, or the stages of
      a pipeline. */
  datatype Launch =
    | Command(run: Option<Exec>, background: bool)
    | Pipes(stages: Option<seq<Option<seq<Token>>>>, background: bool)

  ghost predicate Piped(toks: seq<Token>) { exists t :: t in toks && t.kind.PIPE? }

  /** A command gets the bare texts of its tokens and runs as written exactly when none is
      mistaken for a redirection. A pipeline runs as written exactly when lexing keeps its
      words, and then only its size can be in the way. */
  ghost predicate LaunchOf(j: Job, r: Launch) {
    && r.background == j.background
    && (!Piped(j.toks) ==>
          && r == Command(Read(Texts(j.toks), j.background), j.background)
          && (r.run == Some(Meant(j.toks)) <==>
              Unmistaken(j.toks) && !(j.background && j.toks != [] && j.toks[0].content in BUILTINS)))
    && (Piped(j.toks) ==> r.Pipes? && (r.stages.Some? ==> (AsWritten(r.stages.value, j.toks) <==> AllKept(j.toks))))
    && (Piped(j.toks) && AllKept(j.toks) ==>
          (r.stages.None? <==> |Join(j.toks)| + 1 >= PIPE_LINE || |Groups(j.toks)| > MAX_PIPE_COMMANDS))
  }

  method StartJob(j: Job) returns (r: Launch)
    requires GoodJob(j) && NoNul(j.toks)
    ensures LaunchOf(j, r)
  {
    var found := HasPipe(j.toks);
    if found {
      var stages := Pipeline(j.toks);
      r := Pipes(stages, j.background);
    } else {
      ReadAsWritten(j.toks, j.background);
      var run := ReadArgs(Texts(j.toks), j.background);
      r := Command(run, j.background);
    }
  }

  /** The result 1: `activities` with an argument, or a command that is no built-in one and is
      not found. */
  ghost predicate Fails(args: seq<string>, missing: bool)
    requires args != []
  {
    || (args[0] == "activities" && |args| > 1)
    || (missing && args[0] != "hop" && args[0] != "reveal" && args[0] != "peek" && args[0] != "locate"
        && args[0] != "activities" && args[0] != "resume" && args[0] != "ping" && args[0] != "spy"
        && args[0] != "snoop")
  }

  /** Job k is a command in the foreground with the result 1; `missing` tells for each job
      whether its external command is not found. */
  ghost predicate StopsAt(jobs: seq<Job>, missing: seq<bool>, k: nat) {
    && k < |jobs| && !Piped(jobs[k].toks) && !jobs[k].background
    && var run := Read(Texts(jobs[k].toks), false);
       run.Some? && run.value.args != [] && Fails(run.value.args, k < |missing| && missing[k])
  }

  method Fate(jobs: seq<Job>, missing: seq<bool>, k: nat, r: Launch) returns (stop: bool)
    requires k < |jobs| && LaunchOf(jobs[k], r)
    ensures stop <==> StopsAt(jobs, missing, k)
  {
    stop := false;
    if r.Command? && !r.background && r.run.Some? && r.run.value.args != [] {
      var args := r.run.value.args;
      if args[0] == "activities" {
        stop := |args| > 1;
      } else if args[0] !in BUILTINS {
        stop := k < |missing| && missing[k];
      }
    }
  }

  ghost predicate Started(jobs: seq<Job>, runs: seq<Launch>) {
    |runs| <= |jobs| && forall k :: 0 <= k < |runs| ==> LaunchOf(jobs[k], runs[k])
  }

  lemma StartedMore(jobs: seq<Job>, runs: seq<Launch>, r: Launch)
    requires Started(jobs, runs) && |runs| < |jobs| && LaunchOf(jobs[|runs|], r)
    ensures Started(jobs, runs + [r])
  {
  }

  /** The jobs are started in order, up to and including the first one that stops the line. */
  ghost predicate Launched(jobs: seq<Job>, missing: seq<bool>, runs: seq<Launch>) {
    && Started(jobs, runs)
    && (forall k :: 0 <= k < |runs| - 1 ==> !StopsAt(jobs, missing, k))
    && (|runs| < |jobs| ==> runs != [] && StopsAt(jobs, missing, |runs| - 1))
  }

  /** Every job is started exactly when no job before the last one stops the line. */
  lemma AllLaunched(jobs: seq<Job>, missing: seq<bool>, runs: seq<Launch>)
    requires Launched(jobs, missing, runs)
    ensures |runs| == |jobs| <==> forall k :: 0 <= k < |jobs| - 1 ==> !StopsAt(jobs, missing, k)
    ensures (exists k: nat :: StopsAt(jobs, missing, k)) <==> runs != [] && StopsAt(jobs, missing, |runs| - 1)
  {
    if k: nat :| StopsAt(jobs, missing, k) {
      assert !(k < |runs| - 1);
    }
  }

  method StartJobs(jobs: seq<Job>, missing: seq<bool>) returns (runs: seq<Launch>, twice: bool)
    requires forall j :: j in jobs ==> GoodJob(j) && NoNul(j.toks)
    ensures Launched(jobs, missing, runs)
    ensures twice <==> runs != [] && StopsAt(jobs, missing, |runs| - 1)
  {
    runs, twice := [], false;
    for k := 0 to |jobs|
      invariant |runs| == k && !twice && Started(jobs, runs)
      invariant forall i :: 0 <= i < k ==> !StopsAt(jobs, missing, i)
    {
      assert jobs[k] in jobs;
      var r := StartJob(jobs[k]);
      StartedMore(jobs, runs, r);
      runs := runs + [r];
      twice := Fate(jobs, missing, k, r);
      if twice { return; }
    }
  }

  /** One input line: refused exactly when lexing fails, finds nothing, or the grammar does
      not accept it. Otherwise the jobs start in order until one of them stops the line: all
      of them exactly when no job before the last one does. The argument array of the job
      that stops the line is freed twice. */
  method RunLine(line: string, missing: seq<bool>) returns (ok: bool, runs: seq<Launch>, twice: bool)
    requires '\0' !in line
    ensures var l := Lex(line); ok <==> l.ok && l.toks != [] && Grammar(l.toks)
    ensures !ok ==> runs == [] && !twice
    ensures ok ==> Launched(Jobs(Lex(line).toks), missing, runs)
    ensures ok ==> var jobs := Jobs(Lex(line).toks);
                   |runs| == |jobs| <==> forall k :: 0 <= k < |jobs| - 1 ==> !StopsAt(jobs, missing, k)
    ensures ok ==> var jobs := Jobs(Lex(line).toks);
                   twice <==> exists k: nat :: StopsAt(jobs, missing, k)
  {
    var toks;
    toks, ok := Lexer(line);
    runs, twice := [], false;
    if !ok || toks == [] { return false, [], false; }
    var bad := Parser(toks);
    if bad { return false, [], false; }
    LineJobs(line);
    var jobs;
    ghost var ps;
    jobs, ps := Split(toks);
    runs, twice := StartJobs(jobs, missing);
    AllLaunched(jobs, missing, runs);
  }

  const NOSUCH := "nosuch ; ls"

  const NOSUCHTOKENS := [Token("nosuch", WORD), Token(";", SEMI), Token("ls", WORD)]

  lemma NosuchLexed()
    ensures Lex(NOSUCH) == Lexed(NOSUCHTOKENS, true) && Grammar(NOSUCHTOKENS)
  {
    var toks := NOSUCHTOKENS;
    assert toks[1..] == [Token(";", SEMI), Token("ls", WORD)] && toks[1..][1..] == [Token("ls", WORD)];
    assert Join(toks[1..]) == "; ls";
    assert [] + (Join(toks) + []) == NOSUCH;
    StageReads(toks, [], []);
    assert Placed(toks, 1);
  }

  lemma NosuchJobs()
    ensures Jobs(NOSUCHTOKENS) == [Job([Token("nosuch", WORD)], false), Job([Token("ls", WORD)], false)]
  {
    var toks := NOSUCHTOKENS;
    assert toks[0..1] == [Token("nosuch", WORD)] && toks[2..3] == [Token("ls", WORD)];
    assert CutTo(toks, 1) == Cut([], 0);
    assert CutTo(toks, 2) == Cut([Job([Token("nosuch", WORD)], false)], 2);
  }

  lemma NosuchRead()
    ensures Read(["nosuch"], false) == Some(Exec(["nosuch"], [], []))
    ensures Fails(["nosuch"], true)
  {
    var args := ["nosuch"];
    assert args[1..] == [] && |args[0]| == 6 && args[0][0] == 'n';
    assert Clean(args) == args;
    assert Files(In, args) == Files(Out, args) == Some([]);
  }

  lemma NosuchStops(jobs: seq<Job>)
    requires |jobs| == 2 && jobs[0] == Job([Token("nosuch", WORD)], false)
    ensures StopsAt(jobs, [true], 0)
  {
    NosuchRead();
    assert Texts(jobs[0].toks) == ["nosuch"];
  }

  /** `nosuch ; ls`, with no command of the first name: `ls` is never started. */
  lemma NotFoundStopsTheLine()
    ensures Lex(NOSUCH) == Lexed(NOSUCHTOKENS, true) && Grammar(NOSUCHTOKENS) && |Jobs(NOSUCHTOKENS)| == 2
    ensures StopsAt(Jobs(NOSUCHTOKENS), [true], 0)
    ensures forall runs :: Launched(Jobs(NOSUCHTOKENS), [true], runs) ==> |runs| == 1
  {
    NosuchLexed();
    NosuchJobs();
    NosuchStops(Jobs(NOSUCHTOKENS));
  }
}
