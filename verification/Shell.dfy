/**
 user/sh.c's command language: tokens, command trees, and the parser as functions
 of the input line and a position in it.
 */
module Shell {
  const MAXARGS := 10

  datatype Mode = Read | Write | Append

  /** A command tree whose words are of type T: pieces of the line, or strings. */
  datatype Cmd<T> =
    | Exec(argv: seq<T>)
    | Redir(cmd: Cmd<T>, file: T, mode: Mode)
    | Pipe(left: Cmd<T>, right: Cmd<T>)
    | List(left: Cmd<T>, right: Cmd<T>)
    | Back(cmd: Cmd<T>)

  /** A word of the line: from q up to eq. */
  datatype Word = Word(q: nat, eq: nat)

  datatype Kind = EndOfLine | Symbol(c: char) | TwoGreater | AWord

  // ----- characters and tokens -----

  predicate IsSpace(c: char) { c == ' ' || c == '\t' || c == '\r' || c == '\n' || c == 11 as char }
  predicate IsSymbol(c: char) { c == '<' || c == '|' || c == '>' || c == '&' || c == ';' || c == '(' || c == ')' }
  predicate InWord(c: char) { !IsSpace(c) && !IsSymbol(c) && c != '\0' }

  /** A line as getcmd() leaves it: a string, so without NUL. */
  predicate IsLine(s: seq<char>) { '\0' !in s }

  /** The first position from p on that is no space. */
  function Skip(s: seq<char>, p: nat): (r: nat)
    requires p <= |s|
    ensures p <= r <= |s| && (r < |s| ==> !IsSpace(s[r])) && forall i :: p <= i < r ==> IsSpace(s[i])
    decreases |s| - p
  {
    if p < |s| && IsSpace(s[p]) then Skip(s, p + 1) else p
  }

  /** The first position from p on that is not in a word. */
  function WordEnd(s: seq<char>, p: nat): (r: nat)
    requires p <= |s|
    ensures p <= r <= |s| && (r < |s| ==> !InWord(s[r]) || s[r] == '\0') && forall i :: p <= i < r ==>
              !IsSpace(s[i]) && !IsSymbol(s[i])
    decreases |s| - p
  {
    if p < |s| && !IsSpace(s[p]) && !IsSymbol(s[p]) then WordEnd(s, p + 1) else p
  }

  /** The kind of the token at q, which is no space, and where it ends. */
  function KindAt(s: seq<char>, q: nat): Kind {
    if q >= |s| then EndOfLine
    else if s[q] == '>' && q + 1 < |s| && s[q + 1] == '>' then TwoGreater
    else if IsSymbol(s[q]) then Symbol(s[q])
    else AWord
  }

  function TokenEnd(s: seq<char>, q: nat): (e: nat)
    requires q <= |s|
    ensures q <= e <= |s| && (q < |s| && !IsSpace(s[q]) ==> q < e)
  {
    match KindAt(s, q)
    case EndOfLine => q
    case Symbol(_) => q + 1
    case TwoGreater => q + 2
    case AWord => WordEnd(s, q)
  }

  /** The position after the token at p and the spaces around it. */
  function Next(s: seq<char>, p: nat): (r: nat)
    requires p <= |s|
    ensures p <= r <= |s| && (Skip(s, p) < |s| ==> p < r)
  {
    Skip(s, TokenEnd(s, Skip(s, p)))
  }

  /** peek(): whether the next token starts with one of these characters. */
  predicate Sees(s: seq<char>, p: nat, toks: seq<char>)
    requires p <= |s|
  {
    Skip(s, p) < |s| && s[Skip(s, p)] in toks
  }

  // ----- the parser -----

  /** The result of a parsing function: a value and the position after it, or a panic that ends the shell's child. */
  datatype Result<T> = Ok(value: T, pos: nat) | Panic

  datatype Redirection = Redirection(file: Word, mode: Mode)

  function Wrap(cmd: Cmd<Word>, redirs: seq<Redirection>): Cmd<Word> {
    if redirs == [] then cmd
    else
      var r := redirs[|redirs| - 1];
      Redir(Wrap(cmd, redirs[..|redirs| - 1]), r.file, r.mode)
  }

  function ModeOf(k: Kind): Mode {
    if k == Symbol('<') then Read else if k == TwoGreater then Append else Write
  }

  /** parseredirs(): the redirections from p on, after those in `done`. */
  function Redirs(s: seq<char>, p: nat, done: seq<Redirection>): (r: Result<seq<Redirection>>)
    requires p <= |s|
    ensures r.Ok? ==> p <= r.pos <= |s| && !Sees(s, r.pos, "<>")
    decreases |s| - p
  {
    if !Sees(s, p, "<>") then Ok(done, Skip(s, p))
    else
      var p1 := Next(s, p);
      var q := Skip(s, p1);
      if KindAt(s, q) != AWord then Panic
      else Redirs(s, Next(s, p1), done + [Redirection(Word(q, TokenEnd(s, q)), ModeOf(KindAt(s, Skip(s, p))))])
  }

  /** parseredirs() on a command. */
  function Redirected(s: seq<char>, p: nat, cmd: Cmd<Word>): (r: Result<Cmd<Word>>)
    requires p <= |s|
    ensures r.Ok? ==> p <= r.pos <= |s|
  {
    match Redirs(s, p, [])
    case Panic => Panic
    case Ok(redirs, p') => Ok(Wrap(cmd, redirs), p')
  }

  /** The loop of parseexec(): words and redirections up to one of | ) & ; or the end. */
  function Args(s: seq<char>, p: nat, argv: seq<Word>, redirs: seq<Redirection>): (r: Result<Cmd<Word>>)
    requires p <= |s|
    ensures r.Ok? ==> p <= r.pos <= |s|
    decreases |s| - p
  {
    if Sees(s, p, "|)&;") then Ok(Wrap(Exec(argv), redirs), Skip(s, p))
    else
      var q := Skip(s, p);
      match KindAt(s, q)
      case EndOfLine => Ok(Wrap(Exec(argv), redirs), q)
      case AWord =>
        if |argv| + 1 >= MAXARGS then Panic
        else
          var argv' := argv + [Word(q, TokenEnd(s, q))];
          (match Redirs(s, Next(s, p), redirs)
           case Panic => Panic
           case Ok(redirs', p') => Args(s, p', argv', redirs'))
      case _ => Panic
  }

  /** parseexec() and parseblock() */
  function ParseExec(s: seq<char>, p: nat): (r: Result<Cmd<Word>>)
    requires p <= |s|
    ensures r.Ok? ==> p <= r.pos <= |s|
    decreases |s| - p, 0
  {
    if Sees(s, p, "(") then
      match ParseLine(s, Next(s, p))
      case Panic => Panic
      case Ok(cmd, p1) =>
        if !Sees(s, p1, ")") then Panic
        else Redirected(s, Next(s, p1), cmd)
    else
      match Redirs(s, p, [])
      case Panic => Panic
      case Ok(redirs, p1) => Args(s, p1, [], redirs)
  }

  /** parsepipe() */
  function ParsePipe(s: seq<char>, p: nat): (r: Result<Cmd<Word>>)
    requires p <= |s|
    ensures r.Ok? ==> p <= r.pos <= |s|
    decreases |s| - p, 1
  {
    match ParseExec(s, p)
    case Panic => Panic
    case Ok(left, p1) =>
      if !Sees(s, p1, "|") then Ok(left, Skip(s, p1))
      else
        match ParsePipe(s, Next(s, p1))
        case Panic => Panic
        case Ok(right, p2) => Ok(Pipe(left, right), p2)
  }

  /** The '&'s after a pipeline, each of which puts the command in the background. */
  function Backs(s: seq<char>, p: nat, cmd: Cmd<Word>): (r: (Cmd<Word>, nat))
    requires p <= |s|
    ensures p <= r.1 <= |s|
    decreases |s| - p
  {
    if Sees(s, p, "&") then Backs(s, Next(s, p), Back(cmd)) else (cmd, Skip(s, p))
  }

  /** parseline() */
  function ParseLine(s: seq<char>, p: nat): (r: Result<Cmd<Word>>)
    requires p <= |s|
    ensures r.Ok? ==> p <= r.pos <= |s|
    decreases |s| - p, 2
  {
    match ParsePipe(s, p)
    case Panic => Panic
    case Ok(cmd, p1) =>
      var (cmd', p2) := Backs(s, p1, cmd);
      if !Sees(s, p2, ";") then Ok(cmd', Skip(s, p2))
      else
        match ParseLine(s, Next(s, p2))
        case Panic => Panic
        case Ok(rest, p3) => Ok(List(cmd', rest), p3)
  }

  /** parsecmd(), before nulterminate(): the whole line must be one command. */
  function ParseCmd(s: seq<char>): Result<Cmd<Word>> {
    match ParseLine(s, 0)
    case Panic => Panic
    case Ok(cmd, p) => if Skip(s, p) != |s| then Panic else Ok(cmd, |s|)
  }

  lemma SkipNone(s: seq<char>, p: nat)
    requires p <= |s| && (p < |s| ==> !IsSpace(s[p]))
    ensures Skip(s, p) == p
  {}
}
