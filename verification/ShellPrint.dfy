/** Printing command trees, and that the parser reads back what was printed. */
module ShellPrint {
  import opened Shell

  predicate IsWord(w: seq<char>) { w != [] && forall i :: 0 <= i < |w| ==> InWord(w[i]) }

  /** Trees of words, with no more arguments than argv[] has room for. */
  ghost predicate Legal(t: Cmd<seq<char>>) {
    match t
    case Exec(argv) => |argv| < MAXARGS && forall i :: 0 <= i < |argv| ==> IsWord(argv[i])
    case Redir(c, f, _) => Legal(c) && IsWord(f)
    case Pipe(l, r) => Legal(l) && Legal(r)
    case List(l, r) => Legal(l) && Legal(r)
    case Back(c) => Legal(c)
  }

  function Join(argv: seq<seq<char>>): seq<char> {
    if argv == [] then [] else if |argv| == 1 then argv[0] else argv[0] + " " + Join(argv[1..])
  }

  function Paren(s: seq<char>): seq<char> { "(" + s + ")" }

  function Operator(m: Mode): seq<char> {
    match m case Read => "<" case Write => ">" case Append => ">>"
  }

  /** The text of a tree, its parts in parentheses. */
  function Print(t: Cmd<seq<char>>): seq<char> {
    match t
    case Exec(argv) => Join(argv)
    case Redir(c, f, m) => Paren(Print(c)) + Operator(m) + f
    case Pipe(l, r) => Paren(Print(l)) + "|" + Paren(Print(r))
    case List(l, r) => Paren(Print(l)) + ";" + Paren(Print(r))
    case Back(c) => Paren(Print(c)) + "&"
  }

  /** The tree with its words as strings. */
  ghost function Text(s: seq<char>, c: Cmd<Word>): Cmd<seq<char>> {
    match c
    case Exec(argv) => Exec(Texts(s, argv))
    case Redir(c1, f, m) => Redir(Text(s, c1), WordText(s, f), m)
    case Pipe(l, r) => Pipe(Text(s, l), Text(s, r))
    case List(l, r) => List(Text(s, l), Text(s, r))
    case Back(c1) => Back(Text(s, c1))
  }

  function WordText(s: seq<char>, w: Word): seq<char> { if w.q <= w.eq <= |s| then s[w.q..w.eq] else [] }

  function Texts(s: seq<char>, argv: seq<Word>): (r: seq<seq<char>>)
    ensures |r| == |argv|
  {
    seq(|argv|, i requires 0 <= i < |argv| => WordText(s, argv[i]))
  }

  lemma TextsMore(s: seq<char>, argv: seq<Word>, w: Word, rest: seq<seq<char>>)
    ensures Texts(s, argv + [w]) + rest == Texts(s, argv) + ([WordText(s, w)] + rest)
  {}

  // ----- text at a position -----

  /** The text of s from p to q is x. */
  predicate Reads(s: seq<char>, p: nat, q: nat, x: seq<char>) { p <= q <= |s| && s[p..q] == x }

  lemma ReadsParts(s: seq<char>, p: nat, q: nat, x: seq<char>, y: seq<char>) returns (m: nat)
    requires Reads(s, p, q, x + y)
    ensures m == p + |x| && Reads(s, p, m, x) && Reads(s, m, q, y)
  {
    m := p + |x|;
    assert s[p..m] == s[p..q][..|x|];
    assert s[m..q] == s[p..q][|x|..];
  }

  lemma ReadsChar(s: seq<char>, p: nat, q: nat, x: seq<char>)
    requires Reads(s, p, q, x) && x != []
    ensures p < q && s[p] == x[0]
  {
    assert s[p] == s[p..q][0];
  }

  /** After p a command ends: the line does, or a block. */
  predicate Stops(s: seq<char>, p: nat) { p == |s| || (p < |s| && s[p] == ')') }

  lemma {:induction false} WordEndIs(s: seq<char>, p: nat, e: nat)
    requires p <= e <= |s| && (forall i :: p <= i < e ==> InWord(s[i])) && (e < |s| ==> IsSpace(s[e]) || IsSymbol(s[e]))
    ensures WordEnd(s, p) == e
    decreases e - p
  {
    if p < e { WordEndIs(s, p + 1, e); }
  }

  /** A word in the text is one token. */
  lemma WordToken(s: seq<char>, p: nat, e: nat, w: seq<char>)
    requires IsWord(w) && Reads(s, p, e, w) && (e < |s| ==> IsSpace(s[e]) || IsSymbol(s[e]))
    ensures Skip(s, p) == p < e && KindAt(s, p) == AWord && TokenEnd(s, p) == e && WordText(s, Word(p, e)) == w
    ensures !Sees(s, p, "(") && !Sees(s, p, "<>") && !Sees(s, p, "|)&;")
  {
    assert forall i :: p <= i < e ==> s[i] == s[p..e][i - p];
    WordEndIs(s, p, e);
  }

  /** A symbol in the text is one token. */
  lemma SymbolToken(s: seq<char>, p: nat, c: char)
    requires p < |s| && s[p] == c && IsSymbol(c) && (c == '>' ==> p + 1 == |s| || s[p + 1] != '>')
    ensures Skip(s, p) == p && KindAt(s, p) == Symbol(c) && TokenEnd(s, p) == p + 1
    ensures forall toks :: Sees(s, p, toks) <==> c in toks
    ensures p + 1 == |s| || !IsSpace(s[p + 1]) ==> Next(s, p) == p + 1
  {}

  // ----- arguments -----

  lemma {:induction false} JoinFirst(argv: seq<seq<char>>)
    requires argv != [] && forall i :: 0 <= i < |argv| ==> IsWord(argv[i])
    ensures Join(argv) != [] && InWord(Join(argv)[0])
  {}

  /** Where the first word of Join(argv) ends, and where the rest begins. */
  lemma JoinParts(s: seq<char>, p: nat, q: nat, argv: seq<seq<char>>) returns (e: nat, p': nat)
    requires argv != [] && (forall i :: 0 <= i < |argv| ==> IsWord(argv[i])) && Reads(s, p, q, Join(argv))
             && Stops(s, q)
    ensures Reads(s, p, e, argv[0]) && (e < |s| ==> IsSpace(s[e]) || IsSymbol(s[e])) && e <= p' <= |s|
            && Reads(s, p', q, Join(argv[1..]))
    ensures (p' < |s| ==> !IsSpace(s[p']) && s[p'] != '<' && s[p'] != '>') && Skip(s, e) == p'
  {
    var w, rest := argv[0], argv[1..];
    if |argv| == 1 {
      e, p' := q, q;
      assert Join(rest) == [];
    } else {
      assert Join(argv) == w + (" " + Join(rest));
      e := ReadsParts(s, p, q, w, " " + Join(rest));
      p' := ReadsParts(s, e, q, " ", Join(rest));
      ReadsChar(s, e, q, " " + Join(rest));
      JoinFirst(rest);
      ReadsChar(s, p', q, Join(rest));
    }
    SkipNone(s, p');
  }

  /** One pass of parseexec()'s loop on a word. */
  lemma ArgsStep(s: seq<char>, p: nat, e: nat, p': nat, done: seq<Word>)
    requires p < e <= p' <= |s| && Skip(s, p) == p && KindAt(s, p) == AWord && TokenEnd(s, p) == e
             && !Sees(s, p, "|)&;") && Skip(s, e) == p'
    requires |done| + 1 < MAXARGS && Skip(s, p') == p' && !Sees(s, p', "<>")
    ensures Args(s, p, done, []) == Args(s, p', done + [Word(p, e)], [])
  {
    assert Redirs(s, p', []) == Ok([], p');
  }

  /** The words of Join(argv) are read as arguments, after those of `done`. */
  lemma {:induction false} ArgsOf(s: seq<char>, p: nat, q: nat, argv: seq<seq<char>>, done: seq<Word>)
    requires |done| + |argv| < MAXARGS && (forall i :: 0 <= i < |argv| ==> IsWord(argv[i]))
             && Reads(s, p, q, Join(argv)) && Stops(s, q)
    ensures var r := Args(s, p, done, []);
            r.Ok? && r.pos == q && r.value.Exec? && Texts(s, r.value.argv) == Texts(s, done) + argv
    decreases |argv|
  {
    if argv == [] {
      SkipNone(s, p);
    } else {
      var e, p' := JoinParts(s, p, q, argv);
      WordToken(s, p, e, argv[0]);
      SkipNone(s, p');
      ArgsStep(s, p, e, p', done);
      ArgsOf(s, p', q, argv[1..], done + [Word(p, e)]);
      TextsMore(s, done, Word(p, e), argv[1..]);
      assert [argv[0]] + argv[1..] == argv;
    }
  }

  // ----- commands -----

  lemma EndsHere(s: seq<char>, q: nat)
    requires q <= |s| && Stops(s, q)
    ensures Skip(s, q) == q && !Sees(s, q, "|") && !Sees(s, q, "&") && !Sees(s, q, ";") && !Sees(s, q, "<>")
            && !Sees(s, q, "(")
  {}

  lemma PrintFirst(t: Cmd<seq<char>>)
    requires Legal(t)
    ensures Print(t) == [] || !IsSpace(Print(t)[0])
  {
    if t.Exec? && t.argv != [] { JoinFirst(t.argv); }
  }

  /** The parser on a command that ends at q. */
  lemma PipeDone(s: seq<char>, p: nat, q: nat, c: Cmd<Word>)
    requires p <= q <= |s| && ParseExec(s, p) == Ok(c, q) && Stops(s, q)
    ensures ParsePipe(s, p) == Ok(c, q)
  {
    EndsHere(s, q);
  }

  lemma LineDone(s: seq<char>, p: nat, q: nat, c: Cmd<Word>)
    requires p <= q <= |s| && ParsePipe(s, p) == Ok(c, q) && Stops(s, q)
    ensures ParseLine(s, p) == Ok(c, q)
  {
    EndsHere(s, q);
  }

  /** Where the contents of a block begin and end. */
  lemma BlockParts(s: seq<char>, p: nat, m: nat, t: Cmd<seq<char>>) returns (a: nat, b: nat)
    requires Legal(t) && Reads(s, p, m, Paren(Print(t)))
    ensures p < a <= b < m && Reads(s, a, b, Print(t)) && Stops(s, b) && s[p] == '('
    ensures Sees(s, p, "(") && Next(s, p) == a && Sees(s, b, ")") && (m == |s| || !IsSpace(s[m]) ==> Next(s, b) == m)
  {
    assert Paren(Print(t)) == "(" + (Print(t) + ")");
    a := ReadsParts(s, p, m, "(", Print(t) + ")");
    b := ReadsParts(s, a, m, Print(t), ")");
    ReadsChar(s, p, a, "(");
    ReadsChar(s, b, m, ")");
    PrintFirst(t);
    if Print(t) != [] { ReadsChar(s, a, b, Print(t)); }
    SymbolToken(s, p, '(');
    SymbolToken(s, b, ')');
  }

  /** parseblock(), when its contents are read as c. */
  lemma BlockIs(s: seq<char>, p: nat, a: nat, b: nat, m: nat, c: Cmd<Word>)
    requires p < a <= b < m <= |s| && Sees(s, p, "(") && Next(s, p) == a && ParseLine(s, a) == Ok(c, b)
             && Sees(s, b, ")") && Next(s, b) == m
    ensures ParseExec(s, p) == Redirected(s, m, c)
  {}

  lemma NoRedirs(s: seq<char>, m: nat)
    requires m <= |s| && (m < |s| ==> !IsSpace(s[m]) && s[m] != '<' && s[m] != '>')
    ensures Redirs(s, m, []) == Ok([], m)
  {}

  lemma ExecOf(s: seq<char>, p: nat, q: nat, t: Cmd<seq<char>>) returns (c: Cmd<Word>)
    requires t.Exec? && Legal(t) && Reads(s, p, q, Print(t)) && Stops(s, q)
    ensures ParseLine(s, p) == Ok(c, q) && Text(s, c) == t
  {
    ArgsOf(s, p, q, t.argv, []);
    if t.argv == [] {
      EndsHere(s, p);
    } else {
      JoinFirst(t.argv);
      ReadsChar(s, p, q, Print(t));
    }
    SkipNone(s, p);
    c := Args(s, p, [], []).value;
    assert Texts(s, []) + t.argv == t.argv;
    assert ParseExec(s, p) == Ok(c, q);
    PipeDone(s, p, q, c);
    LineDone(s, p, q, c);
  }

  /** Two blocks with an operator between them. */
  lemma TwoBlocks(s: seq<char>, p: nat, q: nat, l: Cmd<seq<char>>, r: Cmd<seq<char>>, op: char)
      returns (m: nat, m1: nat)
    requires Legal(l) && Legal(r) && Reads(s, p, q, Paren(Print(l)) + [op] + Paren(Print(r)))
             && (op == '|' || op == ';')
    ensures p < m < m1 < q && Reads(s, p, m, Paren(Print(l))) && s[m] == op && Reads(s, m1, q, Paren(Print(r)))
    ensures Skip(s, m) == m && Next(s, m) == m1 && forall toks :: Sees(s, m, toks) <==> op in toks
  {
    assert Paren(Print(l)) + [op] + Paren(Print(r)) == Paren(Print(l)) + ([op] + Paren(Print(r)));
    m := ReadsParts(s, p, q, Paren(Print(l)), [op] + Paren(Print(r)));
    m1 := ReadsParts(s, m, q, [op], Paren(Print(r)));
    ReadsChar(s, m, m1, [op]);
    var a, b := BlockParts(s, p, m, l);
    var a1, b1 := BlockParts(s, m1, q, r);
    SymbolToken(s, m, op);
  }

  lemma PipeOf(s: seq<char>, p: nat, m: nat, m1: nat, q: nat, c: Cmd<Word>, d: Cmd<Word>)
    requires p <= m < m1 <= q <= |s| && ParseExec(s, p) == Ok(c, m) && Sees(s, m, "|") && Next(s, m) == m1
    requires ParsePipe(s, m1) == Ok(d, q) && Stops(s, q)
    ensures ParseLine(s, p) == Ok(Pipe(c, d), q)
  {
    assert ParsePipe(s, p) == Ok(Pipe(c, d), q);
    LineDone(s, p, q, Pipe(c, d));
  }

  /** A pipeline that something else than '|' follows. */
  lemma OnePipe(s: seq<char>, p: nat, m: nat, c: Cmd<Word>)
    requires p <= m <= |s| && ParseExec(s, p) == Ok(c, m) && Skip(s, m) == m && !Sees(s, m, "|")
    ensures ParsePipe(s, p) == Ok(c, m)
  {}

  lemma ListOf(s: seq<char>, p: nat, m: nat, m1: nat, q: nat, c: Cmd<Word>, d: Cmd<Word>)
    requires p <= m < m1 <= q <= |s| && ParsePipe(s, p) == Ok(c, m) && Skip(s, m) == m && !Sees(s, m, "&")
             && Sees(s, m, ";") && Next(s, m) == m1
    requires ParseLine(s, m1) == Ok(d, q)
    ensures ParseLine(s, p) == Ok(List(c, d), q)
  {
    assert Backs(s, m, c) == (c, m);
  }

  lemma BackOf(s: seq<char>, p: nat, m: nat, q: nat, c: Cmd<Word>)
    requires p <= m < q <= |s| && ParsePipe(s, p) == Ok(c, m) && Sees(s, m, "&") && Next(s, m) == q && Stops(s, q)
    ensures ParseLine(s, p) == Ok(Back(c), q)
  {
    EndsHere(s, q);
    assert Backs(s, q, Back(c)) == (Back(c), q);
    assert Backs(s, m, c) == (Back(c), q);
  }

  /** A redirection after a block. */
  lemma RedirOf(s: seq<char>, m: nat, q: nat, f: seq<char>, mode: Mode) returns (w: Word)
    requires IsWord(f) && Reads(s, m, q, Operator(mode) + f) && Stops(s, q)
    ensures Redirs(s, m, []) == Ok([Redirection(w, mode)], q) && WordText(s, w) == f
    ensures m < |s| && (s[m] == '<' || s[m] == '>')
  {
    var a := ReadsParts(s, m, q, Operator(mode), f);
    ReadsChar(s, m, a, Operator(mode));
    ReadsChar(s, a, q, f);
    WordToken(s, a, q, f);
    EndsHere(s, q);
    SkipNone(s, a);
    w := Word(a, q);
    if mode == Append {
      assert s[m + 1] == s[m..a][1];
    } else {
      SymbolToken(s, m, s[m]);
    }
    assert Next(s, m) == a && Next(s, a) == q;
    assert [] + [Redirection(w, mode)] == [Redirection(w, mode)];
    assert Redirs(s, q, [Redirection(w, mode)]) == Ok([Redirection(w, mode)], q);
  }

  lemma RedirParts(s: seq<char>, p: nat, q: nat, x: seq<char>, f: seq<char>, mode: Mode) returns (m: nat, w: Word)
    requires IsWord(f) && Reads(s, p, q, x + Operator(mode) + f) && Stops(s, q)
    ensures p <= m <= q && m < |s| && !IsSpace(s[m]) && Reads(s, p, m, x)
            && Redirs(s, m, []) == Ok([Redirection(w, mode)], q) && WordText(s, w) == f
  {
    assert x + Operator(mode) + f == x + (Operator(mode) + f);
    m := ReadsParts(s, p, q, x, Operator(mode) + f);
    w := RedirOf(s, m, q, f, mode);
  }

  /** The parser reads a printed tree back, up to where it ends. */
  lemma {:induction false} LineOf(s: seq<char>, p: nat, q: nat, t: Cmd<seq<char>>) returns (c: Cmd<Word>)
    requires Legal(t) && Reads(s, p, q, Print(t)) && Stops(s, q)
    ensures ParseLine(s, p) == Ok(c, q) && Text(s, c) == t
    decreases t, 1
  {
    match t
    case Exec(_) => c := ExecOf(s, p, q, t);
    case Pipe(l, r) => c := PipedOf(s, p, q, l, r);
    case List(l, r) => c := ListedOf(s, p, q, l, r);
    case Back(t1) => c := BackedOf(s, p, q, t1);
    case Redir(t1, f, mode) => c := RedirectedOf(s, p, q, t1, f, mode);
  }

  /** A block of a printed tree that neither a space nor a redirection follows. */
  lemma {:induction false} BlockOf(s: seq<char>, p: nat, m: nat, t: Cmd<seq<char>>) returns (c: Cmd<Word>)
    requires Legal(t) && Reads(s, p, m, Paren(Print(t))) && (m < |s| ==> !IsSpace(s[m]) && s[m] != '<' && s[m] != '>')
    ensures ParseExec(s, p) == Ok(c, m) && Text(s, c) == t
    decreases t, 2
  {
    var a, b := BlockParts(s, p, m, t);
    c := LineOf(s, a, b, t);
    BlockIs(s, p, a, b, m, c);
    NoRedirs(s, m);
  }

  lemma {:induction false} PipedOf(s: seq<char>, p: nat, q: nat, l: Cmd<seq<char>>, r: Cmd<seq<char>>)
      returns (c: Cmd<Word>)
    requires Legal(l) && Legal(r) && Reads(s, p, q, Paren(Print(l)) + "|" + Paren(Print(r))) && Stops(s, q)
    ensures ParseLine(s, p) == Ok(c, q) && Text(s, c) == Pipe(l, r)
    decreases Pipe(l, r), 0
  {
    var m, m1 := TwoBlocks(s, p, q, l, r, '|');
    var cl := BlockOf(s, p, m, l);
    var cr := BlockOf(s, m1, q, r);
    PipeDone(s, m1, q, cr);
    PipeOf(s, p, m, m1, q, cl, cr);
    c := Pipe(cl, cr);
  }

  lemma {:induction false} ListedOf(s: seq<char>, p: nat, q: nat, l: Cmd<seq<char>>, r: Cmd<seq<char>>)
      returns (c: Cmd<Word>)
    requires Legal(l) && Legal(r) && Reads(s, p, q, Paren(Print(l)) + ";" + Paren(Print(r))) && Stops(s, q)
    ensures ParseLine(s, p) == Ok(c, q) && Text(s, c) == List(l, r)
    decreases List(l, r), 0
  {
    var m, m1 := TwoBlocks(s, p, q, l, r, ';');
    var cl := BlockOf(s, p, m, l);
    var cr := BlockOf(s, m1, q, r);
    OnePipe(s, p, m, cl);
    PipeDone(s, m1, q, cr);
    LineDone(s, m1, q, cr);
    ListOf(s, p, m, m1, q, cl, cr);
    c := List(cl, cr);
  }

  lemma {:induction false} BackedOf(s: seq<char>, p: nat, q: nat, t: Cmd<seq<char>>) returns (c: Cmd<Word>)
    requires Legal(t) && Reads(s, p, q, Paren(Print(t)) + "&") && Stops(s, q)
    ensures ParseLine(s, p) == Ok(c, q) && Text(s, c) == Back(t)
    decreases Back(t), 0
  {
    var m := ReadsParts(s, p, q, Paren(Print(t)), "&");
    ReadsChar(s, m, q, "&");
    SymbolToken(s, m, '&');
    var c1 := BlockOf(s, p, m, t);
    OnePipe(s, p, m, c1);
    BackOf(s, p, m, q, c1);
    c := Back(c1);
  }

  lemma {:induction false} RedirectedOf(s: seq<char>, p: nat, q: nat, t: Cmd<seq<char>>, f: seq<char>, mode: Mode)
      returns (c: Cmd<Word>)
    requires Legal(t) && IsWord(f) && Reads(s, p, q, Paren(Print(t)) + Operator(mode) + f) && Stops(s, q)
    ensures ParseLine(s, p) == Ok(c, q) && Text(s, c) == Redir(t, f, mode)
    decreases Redir(t, f, mode), 0
  {
    var m, w := RedirParts(s, p, q, Paren(Print(t)), f, mode);
    var a, b := BlockParts(s, p, m, t);
    var c1 := LineOf(s, a, b, t);
    BlockIs(s, p, a, b, m, c1);
    RedirectBlock(s, p, m, q, c1, w, mode);
    c := Redir(c1, w, mode);
  }

  lemma RedirectBlock(s: seq<char>, p: nat, m: nat, q: nat, c: Cmd<Word>, w: Word, mode: Mode)
    requires p <= m <= q <= |s| && ParseExec(s, p) == Redirected(s, m, c)
             && Redirs(s, m, []) == Ok([Redirection(w, mode)], q) && Stops(s, q)
    ensures ParseLine(s, p) == Ok(Redir(c, w, mode), q)
  {
    WrapOne(c, w, mode);
    PipeDone(s, p, q, Redir(c, w, mode));
    LineDone(s, p, q, Redir(c, w, mode));
  }

  lemma WrapOne(c: Cmd<Word>, w: Word, mode: Mode)
    ensures Wrap(c, [Redirection(w, mode)]) == Redir(c, w, mode)
  {
    assert [Redirection(w, mode)][..0] == [];
  }

  /** Parsing the text of a legal tree gives the tree back. */
  lemma RoundTrip(t: Cmd<seq<char>>)
    requires Legal(t)
    ensures ParseCmd(Print(t)).Ok? && Text(Print(t), ParseCmd(Print(t)).value) == t
  {
    var s := Print(t);
    assert s[0..|s|] == s;
    var c := LineOf(s, 0, |s|, t);
  }
}
