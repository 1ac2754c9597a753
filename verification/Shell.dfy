/** The shell's command language: tokens, the lexer's state machine, the grammar, and the
    text a pipeline segment is turned back into before its stages are lexed again. */
module Shell {
  datatype Kind = PIPE | AMP | SEMI | LT | LTLT | GT | GTGT | WORD

  datatype Token = Token(content: string, kind: Kind)

  datatype Lexed = Lexed(toks: seq<Token>, ok: bool)

  datatype State = Start | InWord | InDquote | InSquote | AfterEscape

  predicate Blank(c: char) { c == ' ' || c == '\t' || c == '\n' || c == '\r' }

  /** What ends a word; a carriage return does not. */
  predicate EndsWord(c: char) {
    c == ' ' || c == '\t' || c == '\n' || c == '|' || c == '&' || c == ';' || c == '<' || c == '>'
  }

  predicate Quoting(c: char) { c == '"' || c == '\'' || c == '\\' }

  function Quote(c: char): State
    requires Quoting(c)
  {
    if c == '"' then InDquote else if c == '\'' then InSquote else AfterEscape
  }

  predicate Operator(c: char) { c == '|' || c == '&' || c == ';' || c == '<' || c == '>' }

  /** The operator at the front of a line. */
  function OperatorAt(line: string): Token
    requires line != [] && Operator(line[0])
  {
    var twice := |line| > 1 && line[1] == line[0];
    if line[0] == '|' then Token("|", PIPE)
    else if line[0] == '&' then Token("&", AMP)
    else if line[0] == ';' then Token(";", SEMI)
    else if line[0] == '<' then if twice then Token("<<", LTLT) else Token("<", LT)
    else if twice then Token(">>", GTGT) else Token(">", GT)
  }

  function Emit(t: Token, r: Lexed): Lexed { Lexed([t] + r.toks, r.ok) }

  /** The tokens of what is left of a line, in each state of the lexer. */
  function Rest(st: State, line: string, buf: string): Lexed
    decreases |line|, if st == InWord then 1 else 0
  {
    match st
    case Start =>
      if line == [] then Lexed([], true)
      else if Blank(line[0]) then Rest(Start, line[1..], buf)
      else if Operator(line[0]) then
        var t := OperatorAt(line);
        Emit(t, Rest(Start, line[|t.content|..], buf))
      else if Quoting(line[0]) then Rest(Quote(line[0]), line[1..], buf)
      else Rest(InWord, line[1..], buf + [line[0]])
    case InWord =>
      if line == [] || EndsWord(line[0]) then Emit(Token(buf, WORD), Rest(Start, line, []))
      else if Quoting(line[0]) then Rest(Quote(line[0]), line[1..], buf)
      else Rest(InWord, line[1..], buf + [line[0]])
    case InDquote =>
      if line == [] then Lexed([], false)
      else if line[0] == '"' then Rest(InWord, line[1..], buf)
      else if line[0] == '\\' then
        if |line| == 1 then Lexed([], false)
        else if line[1] == '"' || line[1] == '\\' then Rest(InDquote, line[2..], buf + [line[1]])
        else Rest(InDquote, line[2..], buf + ['\\', line[1]])
      else Rest(InDquote, line[1..], buf + [line[0]])
    case InSquote =>
      if line == [] then Lexed([], false)
      else if line[0] == '\'' then Rest(InWord, line[1..], buf)
      else Rest(InSquote, line[1..], buf + [line[0]])
    case AfterEscape =>
      if line == [] then Lexed([], false)
      else Rest(InWord, line[1..], buf + [line[0]])
  }

  function Lex(line: string): Lexed { Rest(Start, line, []) }

  /** The command grammar: every operator stands between two words, except that `&` may
      also end the line. */
  ghost predicate Grammar(toks: seq<Token>) {
    forall k :: 0 <= k < |toks| && !toks[k].kind.WORD? ==> Placed(toks, k)
  }

  ghost predicate Placed(toks: seq<Token>, k: nat)
    requires k < |toks|
  {
    k > 0 && toks[k - 1].kind.WORD? && (if k + 1 < |toks| then toks[k + 1].kind.WORD? else toks[k].kind.AMP?)
  }

  predicate WellFormed(t: Token) {
    match t.kind
    case PIPE => t.content == "|"
    case AMP => t.content == "&"
    case SEMI => t.content == ";"
    case LT => t.content == "<"
    case LTLT => t.content == "<<"
    case GT => t.content == ">"
    case GTGT => t.content == ">>"
    case WORD => true
  }

  /** One command line between `;` and `&`: words, redirections and pipes. */
  ghost predicate Segment(toks: seq<Token>) {
    forall t :: t in toks ==> WellFormed(t) && !t.kind.AMP? && !t.kind.SEMI?
  }

  /** A token list written out as a line. */
  function Join(toks: seq<Token>): string {
    if toks == [] then []
    else if |toks| == 1 then toks[0].content
    else toks[0].content + " " + Join(toks[1..])
  }

  function FirstPipe(toks: seq<Token>): (k: nat)
    ensures k <= |toks|
    ensures k < |toks| ==> toks[k].kind.PIPE?
    ensures forall i :: 0 <= i < k ==> !toks[i].kind.PIPE?
  {
    if toks == [] || toks[0].kind.PIPE? then 0 else 1 + FirstPipe(toks[1..])
  }

  /** The token lists between the pipes. */
  function Groups(toks: seq<Token>): (gs: seq<seq<Token>>)
    ensures |gs| >= 1
    decreases |toks|
  {
    var k := FirstPipe(toks);
    if k == |toks| then [toks] else [toks[..k]] + Groups(toks[k + 1..])
  }

  /** Token lists with a pipe between each two. */
  function WithPipes(gs: seq<seq<Token>>): seq<Token> {
    if gs == [] then [] else if |gs| == 1 then gs[0] else gs[0] + [Token("|", PIPE)] + WithPipes(gs[1..])
  }

  /** The groups are all there is between the pipes, in order. */
  lemma {:induction false} GroupsJoin(toks: seq<Token>)
    requires forall t :: t in toks ==> WellFormed(t)
    ensures Groups(toks) != [] && WithPipes(Groups(toks)) == toks
    ensures forall g :: g in Groups(toks) ==> forall t :: t in g ==> !t.kind.PIPE?
    decreases |toks|
  {
    var k := FirstPipe(toks);
    assert forall t :: t in toks[..k] ==> !t.kind.PIPE?;
    if k < |toks| {
      GroupsJoin(toks[k + 1..]);
      assert toks[k] in toks && toks[k] == Token("|", PIPE);
      assert Groups(toks)[1..] == Groups(toks[k + 1..]);
      assert toks == toks[..k] + [toks[k]] + toks[k + 1..];
    } else {
      assert toks[..k] == toks;
    }
  }

  function FirstBar(s: string): (k: nat)
    ensures k <= |s|
    ensures k < |s| ==> s[k] == '|'
    ensures forall i :: 0 <= i < k ==> s[i] != '|'
  {
    if s == [] || s[0] == '|' then 0 else 1 + FirstBar(s[1..])
  }

  /** The pieces `strtok` cuts a line into at its bars; there are no empty ones. */
  function Pieces(s: string): seq<string>
    decreases |s|
  {
    if s == [] then []
    else if s[0] == '|' then Pieces(s[1..])
    else [s[..FirstBar(s)]] + Pieces(s[FirstBar(s)..])
  }

  predicate Plain(c: char) { !EndsWord(c) && !Quoting(c) }

  /** Words that read the same when they are lexed again. */
  predicate Kept(w: string) {
    |w| > 0 && w[0] != '\r' && forall i :: 0 <= i < |w| ==> Plain(w[i])
  }

  ghost predicate AllKept(toks: seq<Token>) {
    forall t :: t in toks && t.kind.WORD? ==> Kept(t.content)
  }

  /** Lexing the pieces gives the token lists between the pipes. */
  ghost predicate Relexed(pieces: seq<string>, gs: seq<seq<Token>>) {
    |pieces| == |gs| && forall k :: 0 <= k < |gs| ==> Lex(pieces[k]) == Lexed(gs[k], true)
  }

  // ----- Words that are kept come back -----

  lemma {:induction false} PlainRun(w: string, buf: string, rest: string)
    requires forall i :: 0 <= i < |w| ==> Plain(w[i])
    ensures Rest(InWord, w + rest, buf) == Rest(InWord, rest, buf + w)
  {
    if w == [] {
      assert w + rest == rest && buf + w == buf;
    } else {
      assert (w + rest)[1..] == w[1..] + rest;
      PlainRun(w[1..], buf + [w[0]], rest);
      assert buf + [w[0]] + w[1..] == buf + w;
    }
  }

  lemma KeptWord(w: string, rest: string)
    requires Kept(w) && (rest == [] || rest[0] == ' ')
    ensures Rest(Start, w + rest, []) == Emit(Token(w, WORD), Rest(Start, rest, []))
  {
    assert (w + rest)[1..] == w[1..] + rest;
    assert [] + [w[0]] == [w[0]];
    PlainRun(w[1..], [w[0]], rest);
    assert [w[0]] + w[1..] == w;
  }

  lemma TokenReads(t: Token, rest: string)
    requires WellFormed(t) && (t.kind.WORD? ==> Kept(t.content)) && (rest == [] || rest[0] == ' ')
    ensures Rest(Start, t.content + rest, []) == Emit(t, Rest(Start, rest, []))
  {
    if t.kind.WORD? {
      KeptWord(t.content, rest);
    } else {
      var line := t.content + rest;
      assert OperatorAt(line) == t;
      assert line[|t.content|..] == rest;
    }
  }

  lemma SpaceSkipped(s: string)
    ensures Rest(Start, " " + s, []) == Rest(Start, s, [])
  {
    assert (" " + s)[1..] == s;
  }

  lemma LastReads(t: Token, tail: string)
    requires WellFormed(t) && (t.kind.WORD? ==> Kept(t.content)) && (tail == [] || tail == " ")
    ensures Lex(t.content + tail) == Lexed([t], true)
  {
    TokenReads(t, tail);
    if tail == " " {
      SpaceSkipped([]);
      assert " " + [] == tail;
    }
  }

  lemma NextReads(t: Token, text: string, toks: seq<Token>)
    requires WellFormed(t) && (t.kind.WORD? ==> Kept(t.content)) && Lex(text) == Lexed(toks, true)
    ensures Lex(t.content + (" " + text)) == Lexed([t] + toks, true)
  {
    SpaceSkipped(text);
    TokenReads(t, " " + text);
  }

  lemma Assoc(a: string, b: string, c: string, d: string)
    ensures a + b + c + d == a + (b + (c + d))
  {
  }

  lemma JoinTail(toks: seq<Token>, tail: string)
    requires |toks| > 1
    ensures Join(toks) + tail == toks[0].content + (" " + (Join(toks[1..]) + tail))
    ensures [toks[0]] + toks[1..] == toks
  {
    Assoc(toks[0].content, " ", Join(toks[1..]), tail);
  }

  /** Tokens that come back from the text they stand in. */
  ghost predicate Readable(toks: seq<Token>) {
    forall i :: 0 <= i < |toks| ==> WellFormed(toks[i]) && (toks[i].kind.WORD? ==> Kept(toks[i].content))
  }

  lemma {:induction false} JoinReads(toks: seq<Token>, tail: string)
    requires toks != [] && Readable(toks) && (tail == [] || tail == " ")
    ensures Lex(Join(toks) + tail) == Lexed(toks, true)
    decreases |toks|
  {
    if |toks| == 1 {
      LastReads(toks[0], tail);
      assert [toks[0]] == toks;
    } else {
      JoinReads(toks[1..], tail);
      NextReads(toks[0], Join(toks[1..]) + tail, toks[1..]);
      JoinTail(toks, tail);
    }
  }

  lemma {:induction false} JoinAppend(a: seq<Token>, b: seq<Token>)
    requires a != [] && b != []
    ensures Join(a + b) == Join(a) + " " + Join(b)
  {
    assert (a + b)[1..] == a[1..] + b;
    if |a| == 1 {
      assert a[1..] + b == b;
    } else {
      JoinAppend(a[1..], b);
    }
  }

  lemma {:induction false} NoBar(toks: seq<Token>)
    requires forall t :: t in toks ==> WellFormed(t) && !t.kind.PIPE?
    requires AllKept(toks)
    ensures '|' !in Join(toks) && (toks != [] ==> Join(toks) != [])
  {
    if toks != [] {
      assert '|' !in toks[0].content;
      if |toks| > 1 { NoBar(toks[1..]); }
    }
  }

  lemma CutPiece(a: string, rest: string)
    requires a != [] && '|' !in a && (rest == [] || rest[0] == '|')
    ensures Pieces(a + rest) == [a] + Pieces(rest)
  {
    var s := a + rest;
    var k := FirstBar(s);
    assert rest != [] ==> s[|a|] == rest[0];
    assert forall i :: 0 <= i < |a| ==> s[i] == a[i];
    assert k == |a|;
    assert s[..k] == a && s[k..] == rest;
  }

  lemma BeforePipe(toks: seq<Token>, k: nat)
    requires Grammar(toks) && k < |toks| && toks[k].kind.PIPE?
    ensures Grammar(toks[..k])
  {
    var a := toks[..k];
    assert Placed(toks, k);
    forall i | 0 <= i < |a| && !a[i].kind.WORD? ensures Placed(a, i) { assert Placed(toks, i); }
  }

  lemma AfterPipe(toks: seq<Token>, k: nat)
    requires Grammar(toks) && k < |toks| && toks[k].kind.PIPE?
    ensures Grammar(toks[k + 1..])
  {
    var b := toks[k + 1..];
    assert Placed(toks, k);
    forall i | 0 <= i < |b| && !b[i].kind.WORD? ensures Placed(b, i) {
      assert b[i] == toks[k + 1 + i];
      assert Placed(toks, k + 1 + i);
    }
  }

  lemma JoinPipe(a: seq<Token>, b: seq<Token>)
    requires a != [] && b != []
    ensures Join(a + ([Token("|", PIPE)] + b)) == Join(a) + " | " + Join(b)
  {
    var p := [Token("|", PIPE)];
    JoinAppend(a, p + b);
    JoinAppend(p, b);
    assert Join(p) == "|";
    assert Join(a) + " " + ("|" + " " + Join(b)) == Join(a) + " | " + Join(b);
  }

  lemma SplitAt(toks: seq<Token>, k: nat)
    requires k < |toks|
    ensures toks == toks[..k] + ([toks[k]] + toks[k + 1..])
  {
  }

  lemma JoinAround(toks: seq<Token>, k: nat)
    requires 0 < k < |toks| - 1 && toks[k] == Token("|", PIPE)
    ensures Join(toks) == Join(toks[..k]) + " | " + Join(toks[k + 1..])
  {
    SplitAt(toks, k);
    JoinPipe(toks[..k], toks[k + 1..]);
  }

  lemma PartSegment(toks: seq<Token>, i: nat, j: nat)
    requires Segment(toks) && i <= j <= |toks|
    ensures Segment(toks[i..j])
  {
    forall t | t in toks[i..j] ensures t in toks { }
  }

  /** The parts of a segment around a pipe. */
  lemma AroundPipe(toks: seq<Token>, k: nat)
    requires Segment(toks) && Grammar(toks) && k < |toks| && toks[k].kind.PIPE?
    ensures 0 < k < |toks| - 1
    ensures Segment(toks[..k]) && Grammar(toks[..k]) && Segment(toks[k + 1..]) && Grammar(toks[k + 1..])
    ensures Join(toks) == Join(toks[..k]) + " | " + Join(toks[k + 1..])
  {
    assert Placed(toks, k);
    assert WellFormed(toks[k]);
    BeforePipe(toks, k);
    AfterPipe(toks, k);
    PartSegment(toks, 0, k);
    PartSegment(toks, k + 1, |toks|);
    JoinAround(toks, k);
  }

  lemma StageReads(g: seq<Token>, lead: string, tail: string)
    requires forall t :: t in g ==> WellFormed(t)
    requires g != [] && AllKept(g) && (lead == [] || lead == " ") && (tail == [] || tail == " ")
    ensures Lex(lead + (Join(g) + tail)) == Lexed(g, true)
  {
    JoinReads(g, tail);
    if lead == " " {
      SpaceSkipped(Join(g) + tail);
    } else {
      assert lead + (Join(g) + tail) == Join(g) + tail;
    }
  }

  lemma LastStage(toks: seq<Token>, lead: string)
    requires toks != [] && AllKept(toks) && (lead == [] || lead == " ")
    requires forall t :: t in toks ==> WellFormed(t) && !t.kind.PIPE?
    ensures Relexed(Pieces(lead + Join(toks)), [toks])
  {
    NoBar(toks);
    var a := lead + Join(toks);
    CutPiece(a, []);
    assert a + [] == a && [a] + [] == [a];
    StageReads(toks, lead, []);
    assert Join(toks) + [] == Join(toks);
  }

  lemma NextStage(g: seq<Token>, lead: string, rest: string)
    requires g != [] && AllKept(g) && (lead == [] || lead == " ")
    requires forall t :: t in g ==> WellFormed(t) && !t.kind.PIPE?
    ensures Pieces(lead + (Join(g) + " | " + rest)) == [lead + (Join(g) + " ")] + Pieces(" " + rest)
    ensures Lex(lead + (Join(g) + " ")) == Lexed(g, true)
  {
    NoBar(g);
    var a := lead + (Join(g) + " ");
    var r := "|" + (" " + rest);
    assert lead + (Join(g) + " | " + rest) == a + r;
    CutPiece(a, r);
    assert r[1..] == " " + rest;
    StageReads(g, lead, " ");
  }

  lemma RelexedMore(p: string, ps: seq<string>, g: seq<Token>, gs: seq<seq<Token>>)
    requires Lex(p) == Lexed(g, true) && Relexed(ps, gs)
    ensures Relexed([p] + ps, [g] + gs)
  {
  }

  /** A segment whose words are kept, after a `lead` of nothing or the space behind a bar. */
  lemma {:induction false} KeptComesBack(toks: seq<Token>, lead: string)
    requires Segment(toks) && Grammar(toks) && toks != [] && AllKept(toks) && (lead == [] || lead == " ")
    ensures Relexed(Pieces(lead + Join(toks)), Groups(toks))
    decreases |toks|
  {
    var k := FirstPipe(toks);
    if k == |toks| {
      LastStage(toks, lead);
    } else {
      AroundPipe(toks, k);
      var g, b := toks[..k], toks[k + 1..];
      NextStage(g, lead, Join(b));
      KeptComesBack(b, " ");
      RelexedMore(lead + (Join(g) + " "), Pieces(" " + Join(b)), g, Groups(b));
    }
  }

  /** Every stage of an accepted segment is again accepted, and is not empty. */
  lemma {:induction false} GroupsAccepted(toks: seq<Token>)
    requires Segment(toks) && Grammar(toks) && toks != []
    ensures forall k :: 0 <= k < |Groups(toks)| ==> Groups(toks)[k] != [] && Grammar(Groups(toks)[k])
    decreases |toks|
  {
    var k := FirstPipe(toks);
    if k < |toks| {
      AroundPipe(toks, k);
      GroupsAccepted(toks[k + 1..]);
    }
  }

  // ----- Only such words come back -----

  function Cnt(s: string, c: char): nat {
    if s == [] then 0 else (if s[0] == c then 1 else 0) + Cnt(s[1..], c)
  }

  function CntAll(toks: seq<Token>, c: char): nat {
    if toks == [] then 0 else Cnt(toks[0].content, c) + CntAll(toks[1..], c)
  }

  lemma {:induction false} CntAppend(a: string, b: string, c: char)
    ensures Cnt(a + b, c) == Cnt(a, c) + Cnt(b, c)
  {
    if a == [] {
      assert a + b == b;
    } else {
      assert (a + b)[1..] == a[1..] + b;
      CntAppend(a[1..], b, c);
    }
  }

  lemma CntOne(x: char, c: char)
    ensures Cnt([x], c) == if x == c then 1 else 0
  {
    assert [x][1..] == [];
  }

  lemma CntSplit(s: string, k: nat, c: char)
    requires k <= |s|
    ensures Cnt(s, c) == Cnt(s[..k], c) + Cnt(s[k..], c)
  {
    assert s == s[..k] + s[k..];
    CntAppend(s[..k], s[k..], c);
  }

  lemma CntEmit(t: Token, r: Lexed, c: char)
    ensures CntAll(Emit(t, r).toks, c) == Cnt(t.content, c) + CntAll(r.toks, c)
  {
    assert ([t] + r.toks)[1..] == r.toks;
  }

  lemma OperatorText(line: string)
    requires line != [] && Operator(line[0])
    ensures var t := OperatorAt(line); |t.content| <= |line| && t.content == line[..|t.content|] && !t.kind.WORD?
  {
  }

  /** Lexing makes no characters up. */
  lemma {:induction false} Bound(st: State, line: string, buf: string, c: char)
    requires st == Start ==> buf == []
    ensures CntAll(Rest(st, line, buf).toks, c) <= Cnt(buf, c) + Cnt(line, c)
    decreases |line|, if st == InWord then 3 else 2
  {
    if st == InWord && (line == [] || EndsWord(line[0])) {
      Bound(Start, line, [], c);
      CntEmit(Token(buf, WORD), Rest(Start, line, []), c);
    } else if st == Start && line != [] && Operator(line[0]) {
      var t := OperatorAt(line);
      OperatorText(line);
      var n := |t.content|;
      Bound(Start, line[n..], buf, c);
      CntEmit(t, Rest(Start, line[n..], buf), c);
      CntSplit(line, n, c);
    } else if line != [] {
      BoundStep(st, line, buf, c);
    }
  }

  lemma {:induction false} BoundStep(st: State, line: string, buf: string, c: char)
    requires line != [] && (st == InWord ==> !EndsWord(line[0]))
    requires st == Start ==> buf == [] && !Operator(line[0])
    ensures CntAll(Rest(st, line, buf).toks, c) <= Cnt(buf, c) + Cnt(line, c)
    decreases |line|, 1
  {
    CntAppend(buf, [line[0]], c);
    CntOne(line[0], c);
    if st == Start || st == InWord {
      if Quoting(line[0]) {
        Bound(Quote(line[0]), line[1..], buf, c);
      } else if st == Start && Blank(line[0]) {
        Bound(Start, line[1..], buf, c);
      } else {
        Bound(InWord, line[1..], buf + [line[0]], c);
      }
    } else if st == InDquote && line[0] == '\\' {
      if |line| > 1 { BoundEscape(line, buf, c); }
    } else if st == InDquote && line[0] != '"' {
      Bound(InDquote, line[1..], buf + [line[0]], c);
    } else if st == InSquote && line[0] != '\'' {
      Bound(InSquote, line[1..], buf + [line[0]], c);
    } else if st == AfterEscape {
      Bound(InWord, line[1..], buf + [line[0]], c);
    } else {
      Bound(InWord, line[1..], buf, c);
    }
  }

  lemma {:induction false} BoundEscape(line: string, buf: string, c: char)
    requires |line| > 1 && line[0] == '\\'
    ensures CntAll(Rest(InDquote, line, buf).toks, c) <= Cnt(buf, c) + Cnt(line, c)
    decreases |line|, 0
  {
    CntSplit(line, 2, c);
    assert line[..2] == [line[0]] + [line[1]] == ['\\', line[1]];
    CntAppend([line[0]], [line[1]], c);
    if line[1] == '"' || line[1] == '\\' {
      CntAppend(buf, [line[1]], c);
      Bound(InDquote, line[2..], buf + [line[1]], c);
    } else {
      CntAppend(buf, ['\\', line[1]], c);
      Bound(InDquote, line[2..], buf + ['\\', line[1]], c);
    }
  }

  /** No character but the space is lost. */
  ghost predicate Tight(st: State, line: string, buf: string) {
    forall c :: c != ' ' ==> CntAll(Rest(st, line, buf).toks, c) == Cnt(buf, c) + Cnt(line, c)
  }

  lemma DropTight(st: State, line: string, buf: string, st2: State)
    requires line != [] && line[0] != ' ' && Rest(st, line, buf) == Rest(st2, line[1..], buf)
    requires st2 == Start ==> buf == []
    ensures !Tight(st, line, buf)
  {
    Bound(st2, line[1..], buf, line[0]);
  }

  lemma {:induction false} TightKept(st: State, line: string, buf: string)
    requires Tight(st, line, buf) && ((st == Start && buf == []) || (st == InWord && Kept(buf)))
    ensures AllKept(Rest(st, line, buf).toks)
    decreases |line|, if st == InWord then 2 else 1
  {
    if st == InWord && (line == [] || EndsWord(line[0])) {
      forall c | c != ' ' ensures CntAll(Rest(Start, line, []).toks, c) == Cnt([], c) + Cnt(line, c) {
        CntEmit(Token(buf, WORD), Rest(Start, line, []), c);
      }
      TightKept(Start, line, []);
    } else if line == [] {
    } else if Quoting(line[0]) {
      DropTight(st, line, buf, Quote(line[0]));
    } else if st == Start && Operator(line[0]) {
      TightOperator(line);
    } else if st == Start && Blank(line[0]) {
      if line[0] != ' ' { DropTight(Start, line, buf, Start); }
      TightKept(Start, line[1..], buf);
    } else {
      forall c | c != ' '
        ensures CntAll(Rest(InWord, line[1..], buf + [line[0]]).toks, c) == Cnt(buf + [line[0]], c) + Cnt(line[1..], c)
      {
        CntAppend(buf, [line[0]], c);
        CntOne(line[0], c);
      }
      TightKept(InWord, line[1..], buf + [line[0]]);
    }
  }

  lemma {:induction false} TightOperator(line: string)
    requires line != [] && Operator(line[0]) && Tight(Start, line, [])
    ensures AllKept(Rest(Start, line, []).toks)
    decreases |line|, 0
  {
    var t := OperatorAt(line);
    OperatorText(line);
    var n := |t.content|;
    forall c | c != ' ' ensures CntAll(Rest(Start, line[n..], []).toks, c) == Cnt([], c) + Cnt(line[n..], c) {
      CntEmit(t, Rest(Start, line[n..], []), c);
      CntSplit(line, n, c);
    }
    TightKept(Start, line[n..], []);
  }

  function CntPieces(ps: seq<string>, c: char): nat {
    if ps == [] then 0 else Cnt(ps[0], c) + CntPieces(ps[1..], c)
  }

  function CntGroups(gs: seq<seq<Token>>, c: char): nat {
    if gs == [] then 0 else CntAll(gs[0], c) + CntGroups(gs[1..], c)
  }

  lemma {:induction false} PiecesCnt(s: string, c: char)
    requires c != '|'
    ensures CntPieces(Pieces(s), c) == Cnt(s, c)
    decreases |s|
  {
    if s != [] {
      if s[0] == '|' {
        PiecesCnt(s[1..], c);
      } else {
        var k := FirstBar(s);
        PiecesCnt(s[k..], c);
        CntSplit(s, k, c);
        assert ([s[..k]] + Pieces(s[k..]))[1..] == Pieces(s[k..]);
      }
    }
  }

  lemma {:induction false} NoBars(s: string, k: nat)
    requires k < |Pieces(s)|
    ensures '|' !in Pieces(s)[k]
    decreases |s|
  {
    if s[0] == '|' {
      NoBars(s[1..], k);
    } else if k > 0 {
      NoBars(s[FirstBar(s)..], k - 1);
    }
  }

  lemma {:induction false} CntAbsent(s: string, c: char)
    requires c !in s
    ensures Cnt(s, c) == 0
  {
    if s != [] { CntAbsent(s[1..], c); }
  }

  lemma {:induction false} CntAllAppend(a: seq<Token>, b: seq<Token>, c: char)
    ensures CntAll(a + b, c) == CntAll(a, c) + CntAll(b, c)
  {
    if a == [] {
      assert a + b == b;
    } else {
      assert (a + b)[1..] == a[1..] + b;
      CntAllAppend(a[1..], b, c);
    }
  }

  lemma PipeCnt(a: seq<Token>, b: seq<Token>, c: char)
    requires c != '|'
    ensures CntAll(a + ([Token("|", PIPE)] + b), c) == CntAll(a, c) + CntAll(b, c)
  {
    var r := [Token("|", PIPE)] + b;
    CntAllAppend(a, r, c);
    assert r[1..] == b;
    CntOne('|', c);
  }

  lemma {:induction false} GroupsCnt(toks: seq<Token>, c: char)
    requires c != '|' && forall t :: t in toks ==> WellFormed(t)
    ensures CntGroups(Groups(toks), c) == CntAll(toks, c)
    decreases |toks|
  {
    var k := FirstPipe(toks);
    if k == |toks| {
      assert [toks][1..] == [];
    } else {
      var a, b := toks[..k], toks[k + 1..];
      GroupsCnt(b, c);
      assert ([a] + Groups(b))[1..] == Groups(b);
      assert WellFormed(toks[k]);
      SplitAt(toks, k);
      PipeCnt(a, b, c);
    }
  }

  lemma {:induction false} JoinCnt(toks: seq<Token>, c: char)
    requires c != ' '
    ensures Cnt(Join(toks), c) == CntAll(toks, c)
  {
    if |toks| == 1 {
      assert toks[1..] == [];
    } else if toks != [] {
      JoinCnt(toks[1..], c);
      CntAppend(toks[0].content + " ", Join(toks[1..]), c);
      CntAppend(toks[0].content, " ", c);
      CntOne(' ', c);
    }
  }

  /** No piece can make up for what another loses. */
  lemma {:induction false} EachTight(ps: seq<string>, gs: seq<seq<Token>>, c: char, k: nat)
    requires Relexed(ps, gs) && k < |gs|
    requires CntPieces(ps, c) <= CntGroups(gs, c)
    ensures CntAll(gs[k], c) == Cnt(ps[k], c)
  {
    Bound(Start, ps[0], [], c);
    SumBound(ps[1..], gs[1..], c);
    if k > 0 { EachTight(ps[1..], gs[1..], c, k - 1); }
  }

  lemma {:induction false} SumBound(ps: seq<string>, gs: seq<seq<Token>>, c: char)
    requires Relexed(ps, gs)
    ensures CntGroups(gs, c) <= CntPieces(ps, c)
  {
    if ps != [] {
      Bound(Start, ps[0], [], c);
      SumBound(ps[1..], gs[1..], c);
    }
  }

  lemma GroupTight(toks: seq<Token>, k: nat, c: char)
    requires Segment(toks) && c != ' ' && Relexed(Pieces(Join(toks)), Groups(toks)) && k < |Groups(toks)|
    ensures CntAll(Groups(toks)[k], c) == Cnt(Pieces(Join(toks))[k], c)
  {
    var ps := Pieces(Join(toks));
    if c == '|' {
      NoBars(Join(toks), k);
      CntAbsent(ps[k], c);
      Bound(Start, ps[k], [], c);
    } else {
      PiecesCnt(Join(toks), c);
      JoinCnt(toks, c);
      GroupsCnt(toks, c);
      EachTight(ps, Groups(toks), c, k);
    }
  }

  lemma {:induction false} GroupsCover(toks: seq<Token>)
    requires forall k :: 0 <= k < |Groups(toks)| ==> AllKept(Groups(toks)[k])
    ensures AllKept(toks)
    decreases |toks|
  {
    var k := FirstPipe(toks);
    var gs := Groups(toks);
    assert AllKept(gs[0]);
    if k < |toks| {
      var b := toks[k + 1..];
      forall i | 0 <= i < |Groups(b)| ensures AllKept(Groups(b)[i]) { assert gs[i + 1] == Groups(b)[i]; }
      GroupsCover(b);
      SplitAt(toks, k);
    }
  }

  lemma OnlyKept(toks: seq<Token>)
    requires Segment(toks) && Relexed(Pieces(Join(toks)), Groups(toks))
    ensures AllKept(toks)
  {
    var ps, gs := Pieces(Join(toks)), Groups(toks);
    forall k | 0 <= k < |gs| ensures AllKept(gs[k]) {
      forall c | c != ' ' ensures CntAll(Rest(Start, ps[k], []).toks, c) == Cnt([], c) + Cnt(ps[k], c) {
        GroupTight(toks, k, c);
      }
      TightKept(Start, ps[k], []);
    }
    GroupsCover(toks);
  }

  /** Writing an accepted segment out, cutting it at its bars and lexing the pieces gives
      back its stages exactly when every word is one that lexing keeps. */
  lemma RelexingKeepsMeaning(toks: seq<Token>)
    requires Segment(toks) && Grammar(toks) && toks != []
    ensures Relexed(Pieces(Join(toks)), Groups(toks)) <==> AllKept(toks)
  {
    if AllKept(toks) {
      KeptComesBack(toks, []);
      assert [] + Join(toks) == Join(toks);
    }
    if Relexed(Pieces(Join(toks)), Groups(toks)) { OnlyKept(toks); }
  }

  lemma {:induction false} DquoteRun(w: string, buf: string, rest: string)
    requires '"' !in w && '\\' !in w
    ensures Rest(InDquote, w + rest, buf) == Rest(InDquote, rest, buf + w)
  {
    if w == [] {
      assert w + rest == rest && buf + w == buf;
    } else {
      assert (w + rest)[1..] == w[1..] + rest;
      DquoteRun(w[1..], buf + [w[0]], rest);
      assert buf + [w[0]] + w[1..] == buf + w;
    }
  }

  /** A word in double quotes is read as it stands between them. */
  lemma QuotedWord(w: string, rest: string)
    requires '"' !in w && '\\' !in w && (rest == [] || rest[0] == ' ')
    ensures Rest(Start, ['"'] + (w + (['"'] + rest)), []) == Emit(Token(w, WORD), Rest(Start, rest, []))
  {
    assert (['"'] + (w + (['"'] + rest)))[1..] == w + (['"'] + rest);
    DquoteRun(w, [], ['"'] + rest);
    assert [] + w == w;
    assert (['"'] + rest)[1..] == rest;
  }

  const QUOTED := "echo \"a b\" | wc"

  const QUOTEDTOKENS := [Token("echo", WORD), Token("a b", WORD), Token("|", PIPE), Token("wc", WORD)]

  lemma BarAndWord()
    ensures Lex(" | wc") == Lexed([Token("|", PIPE), Token("wc", WORD)], true)
  {
    var tail := [Token("|", PIPE), Token("wc", WORD)];
    assert tail[1..] == [Token("wc", WORD)];
    assert Join(tail) == "| wc";
    StageReads(tail, " ", []);
    assert " " + (Join(tail) + []) == " | wc";
  }

  function InQuotes(w: string, rest: string): string { ['"'] + (w + (['"'] + rest)) }

  lemma QuotedNext(c: string, w: string, rest: string, toks: seq<Token>)
    requires Kept(c) && '"' !in w && '\\' !in w && (rest == [] || rest[0] == ' ') && Lex(rest) == Lexed(toks, true)
    ensures Lex(c + (" " + InQuotes(w, rest))) == Lexed([Token(c, WORD)] + ([Token(w, WORD)] + toks), true)
  {
    QuotedWord(w, rest);
    SpaceSkipped(InQuotes(w, rest));
    KeptWord(c, " " + InQuotes(w, rest));
  }

  lemma QuotedText()
    ensures "echo" + (" " + InQuotes("a b", " | wc")) == QUOTED
    ensures [Token("echo", WORD)] + ([Token("a b", WORD)] + [Token("|", PIPE), Token("wc", WORD)]) == QUOTEDTOKENS
  {
  }

  lemma QuotedLexed()
    ensures Lex(QUOTED) == Lexed(QUOTEDTOKENS, true)
  {
    BarAndWord();
    assert Kept("echo");
    QuotedNext("echo", "a b", " | wc", [Token("|", PIPE), Token("wc", WORD)]);
    QuotedText();
  }

  /** A quoted word with a space in it is one word of the line, and two of the stage. */
  lemma QuotedSpaceIsLost()
    ensures Lex(QUOTED) == Lexed(QUOTEDTOKENS, true)
    ensures Segment(QUOTEDTOKENS) && Grammar(QUOTEDTOKENS)
    ensures !Relexed(Pieces(Join(QUOTEDTOKENS)), Groups(QUOTEDTOKENS))
  {
    QuotedLexed();
    QuotedNotKept();
    RelexingKeepsMeaning(QUOTEDTOKENS);
  }

  lemma QuotedNotKept()
    ensures Segment(QUOTEDTOKENS) && Grammar(QUOTEDTOKENS) && !AllKept(QUOTEDTOKENS)
  {
    var toks := QUOTEDTOKENS;
    assert Placed(toks, 2);
    assert toks[1] in toks && !Plain(toks[1].content[1]);
  }
}
