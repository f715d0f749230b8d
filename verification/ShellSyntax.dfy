/** The command parser of user/sh.c as functions on the input line and a position in it.  A string is what
    comes before the terminating NUL; a position equal to its length is where the NUL is. */
module ShellSyntax {
  const MAXARGS := 10

  /** A counted string of the input: argv[i] and eargv[i], or file and efile. */
  datatype Span = Span(q: nat, eq: nat)
  datatype Mode = ReadFile | TruncateFile | AppendFile

  datatype Cmd =
    | Exec(argv: seq<Span>)
    | Redir(cmd: Cmd, file: Span, mode: Mode)
    | Pipe(left: Cmd, right: Cmd)
    | List(left: Cmd, right: Cmd)
    | Back(cmd: Cmd)

  datatype Error = MissingFile | MissingParen | BadSyntax | TooManyArgs | Leftovers

  /** A panic ends the shell's child, so it ends the parse. */
  datatype Result = Ok(cmd: Cmd, next: nat) | Err(error: Error)

  // ---------------------------------------------------------------------
  // Tokens

  predicate White(c: char) { c == ' ' || c == '\t' || c == '\r' || c == '\n' || c == '\U{0B}' }

  predicate Symbol(c: char) { c == '<' || c == '|' || c == '>' || c == '&' || c == ';' || c == '(' || c == ')' }

  predicate WordChar(c: char) { !White(c) && !Symbol(c) }

  function SkipWhite(s: string, p: nat): (q: nat)
    requires p <= |s|
    ensures p <= q <= |s| && (q < |s| ==> !White(s[q]))
    ensures forall i :: p <= i < q ==> White(s[i])
    decreases |s| - p
  {
    if p < |s| && White(s[p]) then SkipWhite(s, p + 1) else p
  }

  function SkipWord(s: string, p: nat): (q: nat)
    requires p <= |s|
    ensures p <= q <= |s| && (q < |s| ==> !WordChar(s[q]))
    ensures forall i :: p <= i < q ==> WordChar(s[i])
    decreases |s| - p
  {
    if p < |s| && WordChar(s[p]) then SkipWord(s, p + 1) else p
  }

  /** tok is the symbol itself, '+' for ">>", 'a' for a word and NUL at the end of the line. */
  datatype Token = Token(tok: char, span: Span, next: nat)

  function GetToken(s: string, p: nat): (t: Token)
    requires p <= |s|
    ensures p <= t.span.q <= t.span.eq <= t.next <= |s|
    ensures t.tok == '\0' <==> t.span.q == |s|
    ensures t.tok != '\0' ==> t.span.q < t.span.eq
    ensures t.tok == 'a' ==> IsToken(s, t.span)
  {
    var q := SkipWhite(s, p);
    if q == |s| then Token('\0', Span(q, q), q)
    else if s[q] == '>' && q + 1 < |s| && s[q + 1] == '>' then Token('+', Span(q, q + 2), SkipWhite(s, q + 2))
    else if Symbol(s[q]) then Token(s[q], Span(q, q + 1), SkipWhite(s, q + 1))
    else
      var e := SkipWord(s, q);
      Token('a', Span(q, e), SkipWhite(s, e))
  }

  /** A non-empty longest run of word characters. */
  predicate IsToken(s: string, t: Span) {
    && t.q < t.eq <= |s|
    && (forall i :: t.q <= i < t.eq ==> WordChar(s[i]))
    && (t.eq < |s| ==> !WordChar(s[t.eq]))
  }

  /** The next character that is not white space is one of toks. */
  predicate Peek(s: string, p: nat, toks: set<char>)
    requires p <= |s|
  {
    var q := SkipWhite(s, p);
    q < |s| && s[q] in toks
  }

  // ---------------------------------------------------------------------
  // Commands

  datatype Redirection = Redirection(file: Span, mode: Mode)
  datatype Redirections = Redirs(list: seq<Redirection>, next: nat) | NoFile

  function Wrap(cmd: Cmd, list: seq<Redirection>): Cmd
    decreases |list|
  {
    if list == [] then cmd
    else
      var n := |list| - 1;
      Redir(Wrap(cmd, list[..n]), list[n].file, list[n].mode)
  }

  function ModeOf(tok: char): Mode {
    if tok == '<' then ReadFile else if tok == '+' then AppendFile else TruncateFile
  }

  /** The redirections that parseredirs finds. */
  function ParseRedirs(s: string, p: nat): (r: Redirections)
    requires p <= |s|
    ensures r.Redirs? ==> p <= r.next <= |s| && forall i :: 0 <= i < |r.list| ==> IsToken(s, r.list[i].file)
    decreases |s| - p
  {
    if !Peek(s, p, {'<', '>'}) then Redirs([], SkipWhite(s, p))
    else
      var op := GetToken(s, p);
      var file := GetToken(s, op.next);
      if file.tok != 'a' then NoFile
      else
        match ParseRedirs(s, file.next)
        case NoFile => NoFile
        case Redirs(list, next) => Redirs([Redirection(file.span, ModeOf(op.tok))] + list, next)
  }

  /** parseexec's loop: the arguments and redirections still to come after the argc it has. */
  datatype Words = Words(argv: seq<Span>, redirs: seq<Redirection>, next: nat) | BadWords(error: Error)

  function ParseWords(s: string, p: nat, argc: nat): (r: Words)
    requires p <= |s|
    ensures r.Words? ==>
      && p <= r.next <= |s|
      && (forall i :: 0 <= i < |r.argv| ==> IsToken(s, r.argv[i]))
      && (forall i :: 0 <= i < |r.redirs| ==> IsToken(s, r.redirs[i].file))
    ensures r.Words? && argc < MAXARGS ==> argc + |r.argv| < MAXARGS
    decreases |s| - p
  {
    if Peek(s, p, {'|', ')', '&', ';'}) then Words([], [], SkipWhite(s, p))
    else
      var t := GetToken(s, p);
      if t.tok == '\0' then Words([], [], t.next)
      else if t.tok != 'a' then BadWords(BadSyntax)
      else if argc + 1 >= MAXARGS then BadWords(TooManyArgs)
      else
        match ParseRedirs(s, t.next)
        case NoFile => BadWords(MissingFile)
        case Redirs(list, next) =>
          match ParseWords(s, next, argc + 1)
          case BadWords(e) => BadWords(e)
          case Words(argv, redirs, end) =>
            WordsJoin(s, t.span, argv, list, redirs);
            Words([t.span] + argv, list + redirs, end)
  }

  lemma WordsJoin(s: string, t: Span, argv: seq<Span>, list: seq<Redirection>, redirs: seq<Redirection>)
    requires IsToken(s, t) && forall i :: 0 <= i < |argv| ==> IsToken(s, argv[i])
    requires forall i :: 0 <= i < |list| ==> IsToken(s, list[i].file)
    requires forall i :: 0 <= i < |redirs| ==> IsToken(s, redirs[i].file)
    ensures forall i :: 0 <= i < |[t] + argv| ==> IsToken(s, ([t] + argv)[i])
    ensures forall i :: 0 <= i < |list + redirs| ==> IsToken(s, (list + redirs)[i].file)
  {
  }

  /** parseexec where the command does not start with a parenthesis. */
  function ParseSimple(s: string, p: nat): (r: Result)
    requires p <= |s|
    ensures r.Ok? ==> p <= r.next <= |s|
  {
    match ParseRedirs(s, p)
    case NoFile => Err(MissingFile)
    case Redirs(first, next) =>
      match ParseWords(s, next, 0)
      case BadWords(e) => Err(e)
      case Words(argv, redirs, end) => Ok(Wrap(Exec(argv), first + redirs), end)
  }

  /** parseline's loop over "&". */
  function ParseBacks(s: string, p: nat, cmd: Cmd): (r: (Cmd, nat))
    requires p <= |s|
    ensures p <= r.1 <= |s|
    decreases |s| - p
  {
    if Peek(s, p, {'&'}) then ParseBacks(s, GetToken(s, p).next, Back(cmd)) else (cmd, SkipWhite(s, p))
  }

  function ParseLine(s: string, p: nat): (r: Result)
    requires p <= |s|
    ensures r.Ok? ==> p <= r.next <= |s|
    decreases |s| - p, 3
  {
    match ParsePipe(s, p)
    case Err(e) => Err(e)
    case Ok(first, next) =>
      var (cmd, n) := ParseBacks(s, next, first);
      if !Peek(s, n, {';'}) then Ok(cmd, n)
      else
        match ParseLine(s, GetToken(s, n).next)
        case Err(e) => Err(e)
        case Ok(rest, end) => Ok(List(cmd, rest), end)
  }

  function ParsePipe(s: string, p: nat): (r: Result)
    requires p <= |s|
    ensures r.Ok? ==> p <= r.next <= |s|
    decreases |s| - p, 2
  {
    match ParseExec(s, p)
    case Err(e) => Err(e)
    case Ok(cmd, next) =>
      if !Peek(s, next, {'|'}) then Ok(cmd, SkipWhite(s, next))
      else
        match ParsePipe(s, GetToken(s, next).next)
        case Err(e) => Err(e)
        case Ok(rest, end) => Ok(Pipe(cmd, rest), end)
  }

  function ParseExec(s: string, p: nat): (r: Result)
    requires p <= |s|
    ensures r.Ok? ==> p <= r.next <= |s|
    decreases |s| - p, 1
  {
    if Peek(s, p, {'('}) then ParseBlock(s, p) else ParseSimple(s, p)
  }

  function ParseBlock(s: string, p: nat): (r: Result)
    requires p <= |s| && Peek(s, p, {'('})
    ensures r.Ok? ==> p <= r.next <= |s|
    decreases |s| - p, 0
  {
    match ParseLine(s, GetToken(s, p).next)
    case Err(e) => Err(e)
    case Ok(cmd, next) =>
      if !Peek(s, next, {')'}) then Err(MissingParen)
      else
        match ParseRedirs(s, GetToken(s, next).next)
        case NoFile => Err(MissingFile)
        case Redirs(list, end) => Ok(Wrap(cmd, list), end)
  }

  /** parsecmd before it terminates the strings. */
  function ParseCmd(s: string): Result {
    match ParseLine(s, 0)
    case Err(e) => Err(e)
    case Ok(cmd, next) => if SkipWhite(s, next) != |s| then Err(Leftovers) else Ok(cmd, |s|)
  }

  // ---------------------------------------------------------------------
  // Everything the parser points at is a token

  ghost predicate Tokens(s: string, cmd: Cmd) {
    match cmd
    case Exec(argv) => |argv| < MAXARGS && forall i :: 0 <= i < |argv| ==> IsToken(s, argv[i])
    case Redir(c, file, _) => Tokens(s, c) && IsToken(s, file)
    case Pipe(l, r) => Tokens(s, l) && Tokens(s, r)
    case List(l, r) => Tokens(s, l) && Tokens(s, r)
    case Back(c) => Tokens(s, c)
  }

  lemma {:induction false} WrapTokens(s: string, cmd: Cmd, list: seq<Redirection>)
    requires Tokens(s, cmd) && forall i :: 0 <= i < |list| ==> IsToken(s, list[i].file)
    ensures Tokens(s, Wrap(cmd, list))
    decreases |list|
  {
    if list != [] { WrapTokens(s, cmd, list[..|list| - 1]); }
  }

  lemma {:induction false} BacksTokens(s: string, p: nat, cmd: Cmd)
    requires p <= |s| && Tokens(s, cmd)
    ensures Tokens(s, ParseBacks(s, p, cmd).0)
    decreases |s| - p
  {
    if Peek(s, p, {'&'}) { BacksTokens(s, GetToken(s, p).next, Back(cmd)); }
  }

  lemma SimpleTokens(s: string, p: nat)
    requires p <= |s| && ParseSimple(s, p).Ok?
    ensures Tokens(s, ParseSimple(s, p).cmd)
  {
    var first := ParseRedirs(s, p);
    var w := ParseWords(s, first.next, 0);
    WrapTokens(s, Exec(w.argv), first.list + w.redirs);
  }

  lemma {:induction false} LineTokens(s: string, p: nat)
    requires p <= |s| && ParseLine(s, p).Ok?
    ensures Tokens(s, ParseLine(s, p).cmd)
    decreases |s| - p, 3
  {
    PipeTokens(s, p);
    var first := ParsePipe(s, p);
    BacksTokens(s, first.next, first.cmd);
    var (cmd, n) := ParseBacks(s, first.next, first.cmd);
    if Peek(s, n, {';'}) { LineTokens(s, GetToken(s, n).next); }
  }

  lemma {:induction false} PipeTokens(s: string, p: nat)
    requires p <= |s| && ParsePipe(s, p).Ok?
    ensures Tokens(s, ParsePipe(s, p).cmd)
    decreases |s| - p, 2
  {
    ExecTokens(s, p);
    var first := ParseExec(s, p);
    if Peek(s, first.next, {'|'}) { PipeTokens(s, GetToken(s, first.next).next); }
  }

  lemma {:induction false} ExecTokens(s: string, p: nat)
    requires p <= |s| && ParseExec(s, p).Ok?
    ensures Tokens(s, ParseExec(s, p).cmd)
    decreases |s| - p, 1
  {
    if Peek(s, p, {'('}) { BlockTokens(s, p); } else { SimpleTokens(s, p); }
  }

  lemma {:induction false} BlockTokens(s: string, p: nat)
    requires p <= |s| && Peek(s, p, {'('}) && ParseBlock(s, p).Ok?
    ensures Tokens(s, ParseBlock(s, p).cmd)
    decreases |s| - p, 0
  {
    LineTokens(s, GetToken(s, p).next);
    var inner := ParseLine(s, GetToken(s, p).next);
    var redirs := ParseRedirs(s, GetToken(s, inner.next).next);
    WrapTokens(s, inner.cmd, redirs.list);
  }

  /** Whatever the line, a command that parses has at most nine arguments to an exec, and every argument and
      file name is a longest run of word characters. */
  lemma ParsedTokens(s: string)
    requires ParseCmd(s).Ok?
    ensures Tokens(s, ParseCmd(s).cmd)
  {
    LineTokens(s, 0);
  }
}
