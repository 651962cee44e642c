/** user/sh.c's parser, with its cursor and the line it marks up in place. */
module ShellParser {
  import opened Options
  import opened Shell
  import opened ShellPrint

  // ----- the words of a parsed command -----

  /** A maximal run of word characters. */
  ghost predicate Whole(s: seq<char>, w: Word) {
    && w.q < w.eq <= |s| && (forall i :: w.q <= i < w.eq ==> !IsSpace(s[i]) && !IsSymbol(s[i]))
    && (w.eq < |s| && s[w.eq] != '\0' ==> IsSpace(s[w.eq]) || IsSymbol(s[w.eq]))
  }

  ghost predicate AllWhole(s: seq<char>, c: Cmd<Word>) {
    match c
    case Exec(argv) => forall i :: 0 <= i < |argv| ==> Whole(s, argv[i])
    case Redir(c1, f, _) => AllWhole(s, c1) && Whole(s, f)
    case Pipe(l, r) => AllWhole(s, l) && AllWhole(s, r)
    case List(l, r) => AllWhole(s, l) && AllWhole(s, r)
    case Back(c1) => AllWhole(s, c1)
  }

  ghost predicate FilesWhole(s: seq<char>, redirs: seq<Redirection>) {
    forall i :: 0 <= i < |redirs| ==> Whole(s, redirs[i].file)
  }

  lemma TokenWhole(s: seq<char>, q: nat)
    requires q <= |s| && KindAt(s, q) == AWord && (q < |s| ==> !IsSpace(s[q]))
    ensures Whole(s, Word(q, TokenEnd(s, q)))
  {}

  lemma {:induction false} WrapWhole(s: seq<char>, c: Cmd<Word>, redirs: seq<Redirection>)
    requires AllWhole(s, c) && FilesWhole(s, redirs)
    ensures AllWhole(s, Wrap(c, redirs))
    decreases |redirs|
  {
    if redirs != [] { WrapWhole(s, c, redirs[..|redirs| - 1]); }
  }

  lemma {:induction false} RedirsWhole(s: seq<char>, p: nat, done: seq<Redirection>)
    requires p <= |s| && FilesWhole(s, done)
    ensures Redirs(s, p, done).Ok? ==> FilesWhole(s, Redirs(s, p, done).value)
    decreases |s| - p
  {
    if Sees(s, p, "<>") {
      var p1 := Next(s, p);
      var q := Skip(s, p1);
      if KindAt(s, q) == AWord {
        TokenWhole(s, q);
        RedirsWhole(s, Next(s, p1), done + [Redirection(Word(q, TokenEnd(s, q)), ModeOf(KindAt(s, Skip(s, p))))]);
      }
    }
  }

  lemma {:induction false} ArgsWhole(s: seq<char>, p: nat, argv: seq<Word>, redirs: seq<Redirection>)
    requires p <= |s| && AllWhole(s, Exec(argv)) && FilesWhole(s, redirs)
    ensures Args(s, p, argv, redirs).Ok? ==> AllWhole(s, Args(s, p, argv, redirs).value)
    decreases |s| - p
  {
    WrapWhole(s, Exec(argv), redirs);
    if !Sees(s, p, "|)&;") {
      var q := Skip(s, p);
      if KindAt(s, q) == AWord {
        TokenWhole(s, q);
        RedirsWhole(s, Next(s, p), redirs);
        var r := Redirs(s, Next(s, p), redirs);
        if r.Ok? { ArgsWhole(s, r.pos, argv + [Word(q, TokenEnd(s, q))], r.value); }
      }
    }
  }

  lemma RedirectedWhole(s: seq<char>, p: nat, c: Cmd<Word>)
    requires p <= |s| && AllWhole(s, c)
    ensures Redirected(s, p, c).Ok? ==> AllWhole(s, Redirected(s, p, c).value)
  {
    RedirsWhole(s, p, []);
    if Redirs(s, p, []).Ok? { WrapWhole(s, c, Redirs(s, p, []).value); }
  }

  lemma {:induction false} ExecWhole(s: seq<char>, p: nat)
    requires p <= |s|
    ensures ParseExec(s, p).Ok? ==> AllWhole(s, ParseExec(s, p).value)
    decreases |s| - p, 0
  {
    if Sees(s, p, "(") {
      LineWhole(s, Next(s, p));
      var r := ParseLine(s, Next(s, p));
      if r.Ok? && Sees(s, r.pos, ")") { RedirectedWhole(s, Next(s, r.pos), r.value); }
    } else {
      RedirsWhole(s, p, []);
      var r := Redirs(s, p, []);
      if r.Ok? { ArgsWhole(s, r.pos, [], r.value); }
    }
  }

  lemma {:induction false} PipeWhole(s: seq<char>, p: nat)
    requires p <= |s|
    ensures ParsePipe(s, p).Ok? ==> AllWhole(s, ParsePipe(s, p).value)
    decreases |s| - p, 1
  {
    ExecWhole(s, p);
    var r := ParseExec(s, p);
    if r.Ok? && Sees(s, r.pos, "|") { PipeWhole(s, Next(s, r.pos)); }
  }

  lemma {:induction false} BacksWhole(s: seq<char>, p: nat, c: Cmd<Word>)
    requires p <= |s| && AllWhole(s, c)
    ensures AllWhole(s, Backs(s, p, c).0)
    decreases |s| - p
  {
    if Sees(s, p, "&") { BacksWhole(s, Next(s, p), Back(c)); }
  }

  lemma {:induction false} LineWhole(s: seq<char>, p: nat)
    requires p <= |s|
    ensures ParseLine(s, p).Ok? ==> AllWhole(s, ParseLine(s, p).value)
    decreases |s| - p, 2
  {
    PipeWhole(s, p);
    var r := ParsePipe(s, p);
    if r.Ok? {
      BacksWhole(s, r.pos, r.value);
      var p2 := Backs(s, r.pos, r.value).1;
      if Sees(s, p2, ";") { LineWhole(s, Next(s, p2)); }
    }
  }

  // ----- nulterminate() -----

  /** The positions of a command's NULs, and its words. */
  ghost function Ends(c: Cmd<Word>): set<nat> {
    set w | w in Words(c) :: w.eq
  }

  ghost function Words(c: Cmd<Word>): set<Word> {
    match c
    case Exec(argv) => set i | 0 <= i < |argv| :: argv[i]
    case Redir(c1, f, _) => Words(c1) + {f}
    case Pipe(l, r) => Words(l) + Words(r)
    case List(l, r) => Words(l) + Words(r)
    case Back(c1) => Words(c1)
  }

  lemma {:induction false} WordsWhole(s: seq<char>, c: Cmd<Word>, w: Word)
    requires AllWhole(s, c) && w in Words(c)
    ensures Whole(s, w)
    decreases c
  {
    match c
    case Exec(_) =>
    case Redir(c1, f, _) => if w != f { WordsWhole(s, c1, w); }
    case Pipe(l, r) => if w in Words(l) { WordsWhole(s, l, w); } else { WordsWhole(s, r, w); }
    case List(l, r) => if w in Words(l) { WordsWhole(s, l, w); } else { WordsWhole(s, r, w); }
    case Back(c1) => WordsWhole(s, c1, w);
  }

  /** The line with NULs at these positions. */
  ghost predicate Marked(b: seq<char>, b': seq<char>, ends: set<nat>) {
    |b'| == |b| && forall i :: 0 <= i < |b| ==> b'[i] == if i in ends then '\0' else b[i]
  }

  /** The C string at position q of b is x. */
  predicate StringAt(b: seq<char>, q: nat, x: seq<char>) {
    q + |x| < |b| && b[q..q + |x|] == x && b[q + |x|] == '\0' && '\0' !in x
  }

  /** A word does not end within another. */
  lemma NoEndInside(s: seq<char>, w: Word, v: Word)
    requires IsLine(s) && Whole(s, w) && Whole(s, v)
    ensures !(w.q <= v.eq < w.eq)
  {
    if v.eq < |s| { NotNul(s, v.eq); }
  }

  lemma NotNul(s: seq<char>, i: nat)
    requires IsLine(s) && i < |s|
    ensures s[i] != '\0'
  {
    assert s[i] in s;
  }

  /** After nulterminate(), every word is a string of its own: no other word's NUL cuts it short. */
  lemma EveryWordEnds(s: seq<char>, b': seq<char>, c: Cmd<Word>, w: Word)
    requires IsLine(s) && AllWhole(s, c) && w in Words(c) && Marked(s + ['\0'], b', Ends(c))
    ensures w.q < w.eq <= |s| && StringAt(b', w.q, s[w.q..w.eq])
  {
    WordsWhole(s, c, w);
    forall i | w.q <= i < w.eq
      ensures b'[i] == s[i]
    {
      if i in Ends(c) {
        var v :| v in Words(c) && v.eq == i;
        WordsWhole(s, c, v);
        NoEndInside(s, w, v);
      }
    }
    assert w.eq in Ends(c);
    assert b'[w.q..w.eq] == s[w.q..w.eq];
  }

  // ----- the parser -----

  /** A parsing method agrees with its function: it panics with it, or yields the value and moves the cursor. */
  ghost predicate Agrees<T(!new)>(r: Option<T>, ps: nat, spec: Result<T>) {
    match spec
    case Panic => r.None?
    case Ok(value, pos) => r == Some(value) && ps == pos
  }

  /** parseblock() from after its '(' on. */
  ghost function Block(s: seq<char>, p: nat): (r: Result<Cmd<Word>>)
    requires p <= |s|
  {
    match Shell.ParseLine(s, p)
    case Panic => Panic
    case Ok(cmd, p1) => if !Sees(s, p1, ")") then Panic else Redirected(s, Next(s, p1), cmd)
  }

  /** The line in its buffer, which ends with a NUL at es, and the cursor. */
  class Parser {
    const buf: array<char>
    const es: nat
    var ps: nat

    ghost predicate Valid()
      reads this, buf
    {
      es < buf.Length && ps <= es && buf[es] == '\0' && IsLine(buf[..es])
    }

    ghost function Line(): (s: seq<char>)
      requires es < buf.Length
      reads buf
      ensures |s| == es
    {
      buf[..es]
    }

    constructor (buf: array<char>, n: nat)
      requires n < buf.Length && buf[n] == '\0' && IsLine(buf[..n])
      ensures Valid() && this.buf == buf && es == n && ps == 0
    {
      this.buf, es, ps := buf, n, 0;
    }

    /** The loops of gettoken() and peek() over spaces. */
    method SkipSpaces()
      requires Valid()
      modifies this
      ensures Valid() && ps == Skip(Line(), old(ps))
    {
      while ps < es && IsSpace(buf[ps])
        invariant Valid() && Skip(Line(), ps) == Skip(Line(), old(ps))
        decreases es - ps
      {
        ps := ps + 1;
      }
    }

    /** The loop of gettoken() over the characters of a word. */
    method ScanWord()
      requires Valid()
      modifies this
      ensures Valid() && ps == WordEnd(Line(), old(ps))
    {
      while ps < es && !IsSpace(buf[ps]) && !IsSymbol(buf[ps])
        invariant Valid() && WordEnd(Line(), ps) == WordEnd(Line(), old(ps))
        decreases es - ps
      {
        ps := ps + 1;
      }
    }

    /** gettoken() */
    method GetToken() returns (tok: Kind, q: nat, eq: nat)
      requires Valid()
      modifies this
      ensures Valid() && q == Skip(Line(), old(ps)) && tok == KindAt(Line(), q) && eq == TokenEnd(Line(), q)
              && ps == Next(Line(), old(ps))
    {
      SkipSpaces();
      q := ps;
      var c := buf[ps];
      if c == '\0' {
        tok := EndOfLine;
        LineChar(q);
      } else if c == '|' || c == '(' || c == ')' || c == ';' || c == '&' || c == '<' {
        tok := Symbol(c);
        ps := ps + 1;
      } else if c == '>' {
        tok := Symbol(c);
        ps := ps + 1;
        if buf[ps] == '>' {
          tok := TwoGreater;
          ps := ps + 1;
        }
      } else {
        tok := AWord;
        ScanWord();
      }
      eq := ps;
      SkipSpaces();
    }

    /** A NUL in the buffer before its end would end the line. */
    lemma LineChar(q: nat)
      requires Valid() && q <= es
      ensures buf[q] == '\0' <==> q == es
    {
      if q < es { assert buf[..es][q] in buf[..es]; }
    }

    /** peek() */
    method Peek(toks: seq<char>) returns (r: bool)
      requires Valid() && '\0' !in toks
      modifies this
      ensures Valid() && ps == Skip(Line(), old(ps)) && (r <==> Sees(Line(), old(ps), toks))
    {
      SkipSpaces();
      LineChar(ps);
      r := buf[ps] != '\0' && buf[ps] in toks;
    }

    /** One pass of parseredirs()'s loop: a redirection. */
    method OneRedir(redirs: seq<Redirection>) returns (r: Option<seq<Redirection>>)
      requires Valid() && Sees(Line(), ps, "<>")
      modifies this
      ensures Valid() && Line() == old(Line()) && ps > old(ps)
      ensures Redirs(Line(), old(ps), redirs) == if r.None? then Panic else Redirs(Line(), ps, r.value)
    {
      var tok, _, _ := GetToken();
      var k, q, eq := GetToken();
      r := if k != AWord then None else Some(redirs + [Redirection(Word(q, eq), ModeOf(tok))]);
    }

    /** parseredirs() */
    method ParseRedirs(before: seq<Redirection>) returns (r: Option<seq<Redirection>>)
      requires Valid()
      modifies this
      ensures Valid() && Line() == old(Line()) && Agrees(r, ps, Redirs(Line(), old(ps), before))
    {
      ghost var s := Line();
      r := Some(before);
      SameSkip(s, ps);
      var more := Peek("<>");
      while more && r.Some?
        invariant Valid() && Line() == s && (r.Some? ==> Skip(s, ps) == ps && (more <==> Sees(s, ps, "<>")))
        invariant Redirs(s, old(ps), before) == if r.None? then Panic else Redirs(s, ps, r.value)
        decreases es - ps
      {
        r := OneRedir(r.value);
        if r.Some? {
          SameSkip(s, ps);
          more := Peek("<>");
        }
      }
    }

    /** One pass of parseexec()'s loop: the end of the line, or a word and the redirections after it. */
    method OneArg(argv: seq<Word>, redirs: seq<Redirection>)
        returns (end: bool, r: Option<(seq<Word>, seq<Redirection>)>)
      requires Valid() && !Sees(Line(), ps, "|)&;")
      modifies this
      ensures Valid() && Line() == old(Line())
      ensures end ==>
                r == Some((argv, redirs)) && Args(Line(), old(ps), argv, redirs) == Ok(Wrap(Exec(argv), redirs), ps)
      ensures !end && r.None? ==> Args(Line(), old(ps), argv, redirs) == Panic
      ensures !end && r.Some? ==>
                ps > old(ps) && Args(Line(), old(ps), argv, redirs) == Args(Line(), ps, r.value.0, r.value.1)
    {
      var tok, q, eq := GetToken();
      if tok == EndOfLine {
        return true, Some((argv, redirs));
      }
      if tok != AWord || |argv| + 1 >= MAXARGS {
        return false, None;
      }
      end := false;
      var rs := ParseRedirs(redirs);
      r := if rs.None? then None else Some((argv + [Word(q, eq)], rs.value));
    }

    /** The loop of parseexec() */
    method ParseArgs(before: seq<Redirection>) returns (r: Option<Cmd<Word>>)
      requires Valid()
      modifies this
      ensures Valid() && Line() == old(Line()) && Agrees(r, ps, Args(Line(), old(ps), [], before))
    {
      ghost var s := Line();
      var args: Option<(seq<Word>, seq<Redirection>)> := Some(([], before));
      var end := false;
      SkipArgs(s, ps);
      var stop := Peek("|)&;");
      while !stop && !end && args.Some?
        invariant Valid() && Line() == s
        invariant args.None? ==> Args(s, old(ps), [], before) == Panic
        invariant args.Some? && end ==> Args(s, old(ps), [], before) == Ok(Wrap(Exec(args.value.0), args.value.1), ps)
        invariant args.Some? && !end ==> Skip(s, ps) == ps && (stop <==> Sees(s, ps, "|)&;"))
        invariant args.Some? && !end ==> Args(s, old(ps), [], before) == Args(s, ps, args.value.0, args.value.1)
        decreases args.Some? && !end, es - ps
      {
        end, args := OneArg(args.value.0, args.value.1);
        if !end && args.Some? {
          SkipArgs(s, ps);
          stop := Peek("|)&;");
        }
      }
      r := if args.None? then None else Some(Wrap(Exec(args.value.0), args.value.1));
    }

    /** parseexec(), and parseblock() after its '(' */
    method ParseExec() returns (r: Option<Cmd<Word>>)
      requires Valid()
      modifies this
      ensures Valid() && Line() == old(Line()) && Agrees(r, ps, Shell.ParseExec(Line(), old(ps)))
      decreases es - ps, 0
    {
      SkipExec(Line(), ps);
      var block := Peek("(");
      if block {
        var _, _, _ := GetToken();
        r := ParseBlock();
      } else {
        var redirs := ParseRedirs([]);
        if redirs.None? {
          return None;
        }
        r := ParseArgs(redirs.value);
      }
    }

    method ParseBlock() returns (r: Option<Cmd<Word>>)
      requires Valid()
      modifies this
      ensures Valid() && Line() == old(Line()) && Agrees(r, ps, Block(Line(), old(ps)))
      decreases es - ps, 3
    {
      r := ParseLine();
      if r.None? {
        return;
      }
      SkipNext(Line(), ps);
      var closed := Peek(")");
      if !closed {
        return None;
      }
      var _, _, _ := GetToken();
      var redirs := ParseRedirs([]);
      r := if redirs.None? then None else Some(Wrap(r.value, redirs.value));
    }

    /** parsepipe() */
    method ParsePipe() returns (r: Option<Cmd<Word>>)
      requires Valid()
      modifies this
      ensures Valid() && Line() == old(Line()) && Agrees(r, ps, Shell.ParsePipe(Line(), old(ps)))
      decreases es - ps, 1
    {
      r := ParseExec();
      if r.None? {
        return;
      }
      SkipNext(Line(), ps);
      var more := Peek("|");
      if more {
        var _, _, _ := GetToken();
        var right := ParsePipe();
        r := if right.None? then None else Some(Pipe(r.value, right.value));
      }
    }

    /** The loop of parseline() */
    method ParseBacks(cmd: Cmd<Word>) returns (r: Cmd<Word>)
      requires Valid()
      modifies this
      ensures Valid() && Line() == old(Line()) && (r, ps) == Backs(Line(), old(ps), cmd)
    {
      ghost var s := Line();
      r := cmd;
      SkipBacks(s, ps);
      var more := Peek("&");
      while more
        invariant Valid() && Line() == s && Skip(s, ps) == ps && (more <==> Sees(s, ps, "&"))
        invariant Backs(s, old(ps), cmd) == Backs(s, ps, r)
        decreases es - ps
      {
        var _, _, _ := GetToken();
        r := Back(r);
        SkipBacks(s, ps);
        more := Peek("&");
      }
    }

    /** parseline() */
    method ParseLine() returns (r: Option<Cmd<Word>>)
      requires Valid()
      modifies this
      ensures Valid() && Line() == old(Line()) && Agrees(r, ps, Shell.ParseLine(Line(), old(ps)))
      decreases es - ps, 2
    {
      r := ParsePipe();
      if r.None? {
        return;
      }
      var cmd := ParseBacks(r.value);
      SkipNext(Line(), ps);
      var more := Peek(";");
      r := Some(cmd);
      if more {
        var _, _, _ := GetToken();
        var rest := ParseLine();
        r := if rest.None? then None else Some(List(cmd, rest.value));
      }
    }

    /** nulterminate() on a command's words. */
    method NulTerminate(c: Cmd<Word>)
      requires InBuffer(buf.Length, c)
      modifies buf
      ensures Marked(old(buf[..]), buf[..], Ends(c))
      decreases c
    {
      match c
      case Exec(argv) =>
        var i := 0;
        while i < |argv|
          invariant 0 <= i <= |argv| && Marked(old(buf[..]), buf[..], Ends(Exec(argv[..i])))
        {
          buf[argv[i].eq] := '\0';
          OneMore(argv, i);
          i := i + 1;
        }
        assert argv[..i] == argv;
      case Redir(c1, f, _) =>
        NulTerminate(c1);
        buf[f.eq] := '\0';
        assert Ends(c) == Ends(c1) + {f.eq};
      case Pipe(l, r) =>
        NulTerminate(l);
        NulTerminate(r);
        assert Ends(c) == Ends(l) + Ends(r);
      case List(l, r) =>
        NulTerminate(l);
        NulTerminate(r);
        assert Ends(c) == Ends(l) + Ends(r);
      case Back(c1) =>
        NulTerminate(c1);
        assert Ends(c) == Ends(c1);
    }

    /**
     parsecmd(): the whole line is parsed, and then every word of the command in the
     buffer is a string that is just that word.
     */
    method ParseCmd() returns (r: Option<Cmd<Word>>)
      requires Valid() && ps == 0
      modifies this, buf
      ensures r.None? <==> Shell.ParseCmd(old(Line())).Panic?
      ensures r.Some? ==> Shell.ParseCmd(old(Line())) == Ok(r.value, es)
      ensures r.Some? ==> Marked(old(buf[..]), buf[..], Ends(r.value))
      ensures r.Some? ==>
                forall w :: w in Words(r.value) ==> w.q < w.eq <= es && StringAt(buf[..], w.q, old(Line())[w.q..w.eq])
    {
      ghost var s := Line();
      r := ParseLine();
      if r.None? {
        return;
      }
      LineWhole(s, 0);
      SkipSpaces();
      if ps != es {
        return None;
      }
      WholeInBuffer(s, buf.Length, r.value);
      NulTerminate(r.value);
      forall w | w in Words(r.value)
        ensures w.q < w.eq <= es && StringAt(buf[..], w.q, s[w.q..w.eq])
      {
        MarkedLine(s, old(buf[..]), buf[..], r.value, w);
      }
    }
  }

  ghost predicate InBuffer(n: nat, c: Cmd<Word>) {
    match c
    case Exec(argv) => forall i :: 0 <= i < |argv| ==> argv[i].eq < n
    case Redir(c1, f, _) => InBuffer(n, c1) && f.eq < n
    case Pipe(l, r) => InBuffer(n, l) && InBuffer(n, r)
    case List(l, r) => InBuffer(n, l) && InBuffer(n, r)
    case Back(c1) => InBuffer(n, c1)
  }

  lemma WholeInBuffer(s: seq<char>, n: nat, c: Cmd<Word>)
    requires AllWhole(s, c) && |s| < n
    ensures InBuffer(n, c)
  {}

  lemma OneMore(argv: seq<Word>, i: nat)
    requires i < |argv|
    ensures Ends(Exec(argv[..i + 1])) == Ends(Exec(argv[..i])) + {argv[i].eq}
  {
    assert Words(Exec(argv[..i + 1])) == Words(Exec(argv[..i])) + {argv[i]} by {
      forall w
        ensures w in Words(Exec(argv[..i + 1])) <==> w in Words(Exec(argv[..i])) + {argv[i]}
      {
        if w in Words(Exec(argv[..i])) {
          var k :| 0 <= k < i && argv[..i][k] == w;
          assert argv[..i + 1][k] == w;
        }
        assert argv[..i + 1][i] == argv[i];
      }
    }
  }

  /** What follows the line in its buffer plays no part. */
  lemma MarkedLine(s: seq<char>, b: seq<char>, b': seq<char>, c: Cmd<Word>, w: Word)
    requires |s| < |b| && s == b[..|s|] && b[|s|] == '\0' && IsLine(s) && AllWhole(s, c)
    requires w in Words(c) && Marked(b, b', Ends(c))
    ensures w.q < w.eq <= |s| && StringAt(b', w.q, s[w.q..w.eq])
  {
    EveryWordEnds(s, b'[..|s| + 1], c, w);
    assert b'[..|s| + 1][w.q..w.eq] == b'[w.q..w.eq];
  }

  /** Parsing from p is parsing from the first token after p. */
  lemma {:induction false} SkipNext(s: seq<char>, p: nat)
    requires p <= |s|
    ensures Skip(s, Skip(s, p)) == Skip(s, p) && Next(s, Skip(s, p)) == Next(s, p)
    ensures forall toks :: Sees(s, Skip(s, p), toks) <==> Sees(s, p, toks)
  {
    SkipNone(s, Skip(s, p));
  }

  lemma SameSkip(s: seq<char>, p: nat)
    requires p <= |s|
    ensures Skip(s, Skip(s, p)) == Skip(s, p) && Next(s, Skip(s, p)) == Next(s, p)
    ensures forall toks :: Sees(s, Skip(s, p), toks) <==> Sees(s, p, toks)
    ensures forall done :: Redirs(s, Skip(s, p), done) == Redirs(s, p, done)
  {
    SkipNext(s, p);
  }

  lemma SkipArgs(s: seq<char>, p: nat)
    requires p <= |s|
    ensures Skip(s, Skip(s, p)) == Skip(s, p)
    ensures forall toks :: Sees(s, Skip(s, p), toks) <==> Sees(s, p, toks)
    ensures forall argv, redirs :: Args(s, Skip(s, p), argv, redirs) == Args(s, p, argv, redirs)
  {
    SkipNext(s, p);
  }

  lemma SkipBacks(s: seq<char>, p: nat)
    requires p <= |s|
    ensures Skip(s, Skip(s, p)) == Skip(s, p)
    ensures forall toks :: Sees(s, Skip(s, p), toks) <==> Sees(s, p, toks)
    ensures forall cmd :: Backs(s, Skip(s, p), cmd) == Backs(s, p, cmd)
  {
    SkipNext(s, p);
  }

  lemma SkipExec(s: seq<char>, p: nat)
    requires p <= |s|
    ensures Skip(s, Skip(s, p)) == Skip(s, p)
    ensures Sees(s, Skip(s, p), "(") <==> Sees(s, p, "(")
    ensures Shell.ParseExec(s, Skip(s, p)) == Shell.ParseExec(s, p)
  {
    SkipNext(s, p);
    SameSkip(s, p);
  }

  // ----- printing, parsing and marking up -----

  lemma {:induction false} JoinIsLine(argv: seq<seq<char>>)
    requires forall i :: 0 <= i < |argv| ==> IsWord(argv[i])
    ensures IsLine(Join(argv))
  {
    if |argv| == 1 {
      assert IsWord(argv[0]);
    } else if |argv| > 1 {
      assert IsWord(argv[0]);
      JoinIsLine(argv[1..]);
    }
  }

  /** The text of a legal tree is a line. */
  lemma {:induction false} PrintIsLine(t: Cmd<seq<char>>)
    requires Legal(t)
    ensures IsLine(Print(t))
  {
    match t
    case Exec(argv) => JoinIsLine(argv);
    case Redir(c, f, m) =>
      PrintIsLine(c);
      assert IsWord(f);
    case Pipe(l, r) =>
      PrintIsLine(l);
      PrintIsLine(r);
    case List(l, r) =>
      PrintIsLine(l);
      PrintIsLine(r);
    case Back(c) => PrintIsLine(c);
  }

  /**
   The whole way round: the printed text of a legal tree is parsed back to that tree, and in the
   buffer every argument and file name has become the string it is in the tree.
   */
  method Reparse(t: Cmd<seq<char>>) returns (buf: array<char>, c: Cmd<Word>)
    requires Legal(t)
    ensures fresh(buf) && Text(Print(t), c) == t
    ensures forall w :: w in Words(c) ==> w.q < w.eq <= |Print(t)| && StringAt(buf[..], w.q, Print(t)[w.q..w.eq])
  {
    var s := Print(t);
    PrintIsLine(t);
    RoundTrip(t);
    buf := new char[|s| + 1](i requires 0 <= i <= |s| => if i < |s| then s[i] else '\0');
    assert buf[..|s|] == s;
    var p := new Parser(buf, |s|);
    var r := p.ParseCmd();
    c := r.value;
  }
}
