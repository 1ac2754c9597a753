/** What the shell's lexer reads, said without its states: a line is a row of words and
    operators with blanks between them, and a word is spelled in pieces, bare or quoted.
    The lexer reads every such line as its words and operators, and refuses all others. */
module Spelling {
  import opened Shell

  /** Inside double quotes: a character, or a backslash and a character. */
  datatype Inner = Char(c: char) | Back(c: char)

  /** A part of a word: a bare character, one behind a backslash, or a quoted run. */
  datatype Piece = Bare(c: char) | Escaped(c: char) | Single(s: string) | Double(ins: seq<Inner>)

  datatype Item = Word(ps: seq<Piece>) | Op(t: Token)

  /** An item with the blanks in front of it. */
  datatype Spelled = Spelled(gap: string, item: Item)

  // ----- how they are written -----

  function OneText(x: Inner): string { if x.Char? then [x.c] else ['\\', x.c] }

  function InnerText(ins: seq<Inner>): string {
    if ins == [] then [] else OneText(ins[0]) + InnerText(ins[1..])
  }

  function PieceText(p: Piece): string {
    match p
    case Bare(c) => [c]
    case Escaped(c) => ['\\', c]
    case Single(s) => ['\''] + (s + ['\''])
    case Double(ins) => ['"'] + (InnerText(ins) + ['"'])
  }

  function WordText(ps: seq<Piece>): string {
    if ps == [] then [] else PieceText(ps[0]) + WordText(ps[1..])
  }

  function ItemText(x: Item): string { if x.Word? then WordText(x.ps) else x.t.content }

  function LineText(xs: seq<Spelled>, tail: string): string {
    if xs == [] then tail else xs[0].gap + (ItemText(xs[0].item) + LineText(xs[1..], tail))
  }

  // ----- what they mean -----

  /** In double quotes a backslash stands for itself, except before a quote or a backslash. */
  function OneMeans(x: Inner): string { if x.Char? || x.c in {'"', '\\'} then [x.c] else ['\\', x.c] }

  function InnerMeans(ins: seq<Inner>): string {
    if ins == [] then [] else OneMeans(ins[0]) + InnerMeans(ins[1..])
  }

  function PieceMeans(p: Piece): string {
    match p
    case Bare(c) => [c]
    case Escaped(c) => [c]
    case Single(s) => s
    case Double(ins) => InnerMeans(ins)
  }

  function WordMeans(ps: seq<Piece>): string {
    if ps == [] then [] else PieceMeans(ps[0]) + WordMeans(ps[1..])
  }

  function ItemMeans(x: Item): Token { if x.Word? then Token(WordMeans(x.ps), WORD) else x.t }

  function Means(xs: seq<Spelled>): seq<Token> {
    if xs == [] then [] else [ItemMeans(xs[0].item)] + Means(xs[1..])
  }

  // ----- which are allowed -----

  ghost predicate InnerOk(ins: seq<Inner>) {
    forall k :: 0 <= k < |ins| && ins[k].Char? ==> ins[k].c != '"' && ins[k].c != '\\'
  }

  /** A bare character is no blank but a carriage return, no operator, quote or backslash. */
  ghost predicate PieceOk(p: Piece) {
    match p
    case Bare(c) => c !in {' ', '\t', '\n', '|', '&', ';', '<', '>', '"', '\'', '\\'}
    case Escaped(c) => true
    case Single(s) => '\'' !in s
    case Double(ins) => InnerOk(ins)
  }

  ghost predicate WordOk(ps: seq<Piece>) {
    ps != [] && ps[0] != Bare('\r') && forall k :: 0 <= k < |ps| ==> PieceOk(ps[k])
  }

  ghost predicate ItemOk(x: Item) {
    match x
    case Word(ps) => WordOk(ps)
    case Op(t) =>
      t in {Token("|", PIPE), Token("&", AMP), Token(";", SEMI), Token("<", LT), Token("<<", LTLT), Token(">", GT),
            Token(">>", GTGT)}
  }

  /** A word ends at a blank other than a carriage return, at an operator, or with the line;
      and a single `<` or `>` is not followed by another. */
  ghost predicate Follows(x: Item, rest: string) {
    rest == []
    || match x
       case Word(_) => rest[0] in {' ', '\t', '\n', '|', '&', ';', '<', '>'}
       case Op(t) => (t.kind.LT? ==> rest[0] != '<') && (t.kind.GT? ==> rest[0] != '>')
  }

  ghost predicate AllBlank(s: string) { forall k :: 0 <= k < |s| ==> s[k] in {' ', '\t', '\n', '\r'} }

  ghost predicate LineOk(xs: seq<Spelled>, tail: string) {
    if xs == [] then AllBlank(tail)
    else
      && AllBlank(xs[0].gap) && ItemOk(xs[0].item) && Follows(xs[0].item, LineText(xs[1..], tail))
      && LineOk(xs[1..], tail)
  }

  // ----- reading what is written -----

  lemma Cons(c: char, a: string, rest: string)
    ensures ([c] + a + rest)[0] == c && ([c] + a + rest)[1..] == a + rest
    ensures [c] + a + rest == [c] + (a + rest)
  {
  }

  lemma {:induction false} SquoteReads(s: string, buf: string, rest: string)
    requires '\'' !in s
    ensures Rest(InSquote, s + ['\''] + rest, buf) == Rest(InWord, rest, buf + s)
    decreases |s|
  {
    if s == [] {
      assert s + ['\''] + rest == ['\''] + rest && buf + s == buf;
      assert (['\''] + rest)[1..] == rest;
    } else {
      Cons(s[0], s[1..] + ['\''], rest);
      assert s + ['\''] + rest == [s[0]] + (s[1..] + ['\'']) + rest;
      SquoteReads(s[1..], buf + [s[0]], rest);
      assert buf + [s[0]] + s[1..] == buf + s;
    }
  }

  lemma InnerReads(x: Inner, buf: string, rest: string)
    requires x.Char? ==> x.c != '"' && x.c != '\\'
    ensures Rest(InDquote, OneText(x) + rest, buf) == Rest(InDquote, rest, buf + OneMeans(x))
  {
    var l := OneText(x) + rest;
    assert l[|OneText(x)|..] == rest;
  }

  lemma {:induction false} DquoteReads(ins: seq<Inner>, buf: string, rest: string)
    requires InnerOk(ins)
    ensures Rest(InDquote, InnerText(ins) + ['"'] + rest, buf) == Rest(InWord, rest, buf + InnerMeans(ins))
    decreases |ins|
  {
    if ins == [] {
      DquoteEnds(buf, rest);
    } else {
      assert ins == [ins[0]] + ins[1..];
      FrontInner(ins[0], ins[1..], rest);
      InnerReads(ins[0], buf, InnerText(ins[1..]) + ['"'] + rest);
      DquoteReads(ins[1..], buf + OneMeans(ins[0]), rest);
      Associates(buf, OneMeans(ins[0]), InnerMeans(ins[1..]));
    }
  }

  lemma DquoteEnds(buf: string, rest: string)
    ensures InnerText([]) + ['"'] + rest == ['"'] + rest && buf + InnerMeans([]) == buf
    ensures Rest(InDquote, ['"'] + rest, buf) == Rest(InWord, rest, buf)
  {
    assert (['"'] + rest)[1..] == rest;
  }

  lemma FrontInner(x: Inner, ins: seq<Inner>, rest: string)
    ensures InnerText([x] + ins) + ['"'] + rest == OneText(x) + (InnerText(ins) + ['"'] + rest)
    ensures InnerMeans([x] + ins) == OneMeans(x) + InnerMeans(ins)
  {
    assert ([x] + ins)[1..] == ins;
  }

  /** A piece inside a word, or as its start. */
  lemma PieceReads(p: Piece, st: State, buf: string, rest: string)
    requires PieceOk(p) && (st == InWord || (st == Start && p != Bare('\r')))
    ensures Rest(st, PieceText(p) + rest, buf) == Rest(InWord, rest, buf + PieceMeans(p))
  {
    match p
    case Bare(c) => assert ([c] + rest)[1..] == rest;
    case Escaped(c) =>
      var l := ['\\', c] + rest;
      assert l[1..] == [c] + rest && ([c] + rest)[1..] == rest;
    case Single(s) =>
      Cons('\'', s + ['\''], rest);
      SquoteReads(s, buf, rest);
    case Double(ins) =>
      Cons('"', InnerText(ins) + ['"'], rest);
      DquoteReads(ins, buf, rest);
  }

  lemma FrontPiece(p: Piece, ps: seq<Piece>, rest: string)
    ensures WordText([p] + ps) + rest == PieceText(p) + (WordText(ps) + rest)
    ensures WordMeans([p] + ps) == PieceMeans(p) + WordMeans(ps)
  {
    assert ([p] + ps)[1..] == ps;
  }

  lemma Associates(a: string, b: string, c: string)
    ensures a + b + c == a + (b + c)
  {
  }

  lemma {:induction false} PiecesRead(ps: seq<Piece>, buf: string, rest: string)
    requires forall k :: 0 <= k < |ps| ==> PieceOk(ps[k])
    ensures Rest(InWord, WordText(ps) + rest, buf) == Rest(InWord, rest, buf + WordMeans(ps))
    decreases |ps|
  {
    if ps == [] {
      assert WordText(ps) + rest == rest && buf + WordMeans(ps) == buf;
    } else {
      assert ps == [ps[0]] + ps[1..];
      FrontPiece(ps[0], ps[1..], rest);
      PieceReads(ps[0], InWord, buf, WordText(ps[1..]) + rest);
      PiecesRead(ps[1..], buf + PieceMeans(ps[0]), rest);
      Associates(buf, PieceMeans(ps[0]), WordMeans(ps[1..]));
    }
  }

  lemma WordReads(ps: seq<Piece>, rest: string)
    requires WordOk(ps) && Follows(Word(ps), rest)
    ensures Rest(Start, WordText(ps) + rest, []) == Emit(Token(WordMeans(ps), WORD), Rest(Start, rest, []))
  {
    assert ps == [ps[0]] + ps[1..];
    FrontPiece(ps[0], ps[1..], rest);
    PieceReads(ps[0], Start, [], WordText(ps[1..]) + rest);
    assert [] + PieceMeans(ps[0]) == PieceMeans(ps[0]);
    PiecesRead(ps[1..], PieceMeans(ps[0]), rest);
    WordStops(WordMeans(ps), rest);
  }

  lemma WordStops(buf: string, rest: string)
    requires rest == [] || EndsWord(rest[0])
    ensures Rest(InWord, rest, buf) == Emit(Token(buf, WORD), Rest(Start, rest, []))
  {
  }

  lemma OpReads(t: Token, rest: string)
    requires ItemOk(Op(t)) && Follows(Op(t), rest)
    ensures Rest(Start, t.content + rest, []) == Emit(t, Rest(Start, rest, []))
  {
    var l := t.content + rest;
    assert l[|t.content|..] == rest;
    assert |t.content| == 1 && rest != [] ==> l[1] == rest[0];
    assert OperatorAt(l) == t;
  }

  lemma {:induction false} GapReads(gap: string, rest: string)
    requires AllBlank(gap)
    ensures Rest(Start, gap + rest, []) == Rest(Start, rest, [])
    decreases |gap|
  {
    if gap == [] {
      assert gap + rest == rest;
    } else {
      assert (gap + rest)[1..] == gap[1..] + rest;
      GapReads(gap[1..], rest);
    }
  }

  /** Every line that is spelled right is read as its words and operators. */
  lemma {:induction false} SpelledReads(xs: seq<Spelled>, tail: string)
    requires LineOk(xs, tail)
    ensures Lex(LineText(xs, tail)) == Lexed(Means(xs), true)
    decreases |xs|
  {
    if xs == [] {
      assert tail + [] == tail;
      GapReads(tail, []);
    } else {
      var rest := LineText(xs[1..], tail);
      GapReads(xs[0].gap, ItemText(xs[0].item) + rest);
      if xs[0].item.Word? { WordReads(xs[0].item.ps, rest); } else { OpReads(xs[0].item.t, rest); }
      SpelledReads(xs[1..], tail);
    }
  }

  // ----- writing what is read -----

  lemma {:induction false} SquoteSpelled(line: string, buf: string) returns (s: string, rest: string)
    requires Rest(InSquote, line, buf).ok
    ensures line == s + ['\''] + rest && '\'' !in s
    decreases |line|
  {
    if line[0] == '\'' {
      s, rest := [], line[1..];
    } else {
      s, rest := SquoteSpelled(line[1..], buf + [line[0]]);
      s := [line[0]] + s;
      assert line == [line[0]] + line[1..];
    }
  }

  lemma {:induction false} DquoteSpelled(line: string, buf: string) returns (ins: seq<Inner>, rest: string)
    requires Rest(InDquote, line, buf).ok
    ensures line == InnerText(ins) + ['"'] + rest && InnerOk(ins)
    decreases |line|
  {
    if line[0] == '"' {
      ins, rest := [], line[1..];
      assert line == ['"'] + line[1..];
    } else {
      var first := if line[0] == '\\' then Back(line[1]) else Char(line[0]);
      var l := line[|OneText(first)|..];
      assert line == OneText(first) + l;
      InnerReads(first, buf, l);
      var more;
      more, rest := DquoteSpelled(l, buf + OneMeans(first));
      FrontInner(first, more, rest);
      ins := [first] + more;
    }
  }

  /** The piece at the front of a line, in a state that reads on without complaint. */
  lemma FirstPiece(st: State, line: string, buf: string) returns (p: Piece, rest: string)
    requires line != [] && Rest(st, line, buf).ok && !EndsWord(line[0])
    requires st == InWord || (st == Start && !Blank(line[0]))
    ensures PieceOk(p) && (st == Start ==> p != Bare('\r')) && line == PieceText(p) + rest && |rest| < |line|
  {
    var c := line[0];
    assert line == [c] + line[1..];
    if c == '\\' {
      p, rest := Escaped(line[1]), line[2..];
      assert line == ['\\', line[1]] + rest;
    } else if c == '\'' {
      var s;
      s, rest := SquoteSpelled(line[1..], buf);
      p := Single(s);
      assert [c] + (s + ['\''] + rest) == [c] + (s + ['\'']) + rest;
    } else if c == '"' {
      var ins;
      ins, rest := DquoteSpelled(line[1..], buf);
      p := Double(ins);
      assert [c] + (InnerText(ins) + ['"'] + rest) == [c] + (InnerText(ins) + ['"']) + rest;
    } else {
      p, rest := Bare(c), line[1..];
    }
  }

  lemma {:induction false} WordSpelled(line: string, buf: string) returns (ps: seq<Piece>, rest: string)
    requires Rest(InWord, line, buf).ok
    ensures line == WordText(ps) + rest && (forall k :: 0 <= k < |ps| ==> PieceOk(ps[k]))
    ensures rest == [] || EndsWord(rest[0])
    decreases |line|
  {
    if line == [] || EndsWord(line[0]) {
      ps, rest := [], line;
    } else {
      var p, l := FirstPiece(InWord, line, buf);
      PieceReads(p, InWord, buf, l);
      var more;
      more, rest := WordSpelled(l, buf + PieceMeans(p));
      FrontPiece(p, more, rest);
      ps := [p] + more;
    }
  }

  /** The item at the front of a line. */
  lemma FirstItem(line: string) returns (x: Item, rest: string)
    requires line != [] && Lex(line).ok && !Blank(line[0])
    ensures ItemOk(x) && Follows(x, rest) && line == ItemText(x) + rest && |rest| < |line|
    ensures Lex(line) == Emit(ItemMeans(x), Lex(rest))
  {
    if Operator(line[0]) {
      var t := OperatorAt(line);
      x, rest := Op(t), line[|t.content|..];
      assert line == t.content + rest;
    } else {
      var p, l := FirstPiece(Start, line, []);
      PieceReads(p, Start, [], l);
      var ps;
      ps, rest := WordSpelled(l, [] + PieceMeans(p));
      FrontPiece(p, ps, rest);
      x := Word([p] + ps);
      WordReads([p] + ps, rest);
    }
  }

  lemma {:induction false} LineSpelled(line: string) returns (xs: seq<Spelled>, tail: string)
    requires Lex(line).ok
    ensures LineOk(xs, tail) && LineText(xs, tail) == line
    decreases |line|
  {
    if line == [] {
      xs, tail := [], [];
    } else if Blank(line[0]) {
      var more;
      more, tail := LineSpelled(line[1..]);
      xs, tail := BlankSpelled(line, more, tail);
    } else {
      var x, rest := FirstItem(line);
      var more;
      more, tail := LineSpelled(rest);
      xs := [Spelled([], x)] + more;
      assert xs[1..] == more;
      assert [] + (ItemText(x) + rest) == ItemText(x) + rest;
    }
  }

  /** A blank in front belongs to the first gap. */
  lemma BlankSpelled(line: string, xs: seq<Spelled>, tail: string) returns (ys: seq<Spelled>, end: string)
    requires line != [] && Blank(line[0]) && LineOk(xs, tail) && LineText(xs, tail) == line[1..]
    ensures LineOk(ys, end) && LineText(ys, end) == line
  {
    assert line == [line[0]] + line[1..];
    if xs == [] {
      ys, end := [], line;
    } else {
      var first := xs[0].(gap := [line[0]] + xs[0].gap);
      var more := ItemText(first.item) + LineText(xs[1..], tail);
      assert [line[0]] + (xs[0].gap + more) == [line[0]] + xs[0].gap + more;
      ys, end := [first] + xs[1..], tail;
      assert ys[1..] == xs[1..];
    }
  }

  /** The lexer reads exactly the lines that can be spelled, as what they mean. */
  lemma LexIsSpelling(line: string)
    ensures Lex(line).ok <==> exists xs, tail :: LineOk(xs, tail) && LineText(xs, tail) == line
    ensures forall xs, tail :: LineOk(xs, tail) && LineText(xs, tail) == line ==> Lex(line).toks == Means(xs)
  {
    if Lex(line).ok {
      var xs, tail := LineSpelled(line);
    }
    forall xs, tail | LineOk(xs, tail) && LineText(xs, tail) == line
      ensures Lex(line) == Lexed(Means(xs), true)
    {
      SpelledReads(xs, tail);
    }
  }
}
