/** Printing a command with every subcommand in parentheses, and reading it back. */
module ShellPrint {
  import opened ShellSyntax

  /** A command by the strings in it rather than by where they are. */
  datatype Tree =
    | TExec(words: seq<string>)
    | TRedir(tree: Tree, file: string, mode: Mode)
    | TPipe(left: Tree, right: Tree)
    | TList(left: Tree, right: Tree)
    | TBack(tree: Tree)

  predicate Word(w: string) { w != "" && forall i :: 0 <= i < |w| ==> WordChar(w[i]) }

  /** What the parser can produce: fewer than MAXARGS arguments, words without white space and symbols. */
  predicate Printable(t: Tree) {
    match t
    case TExec(words) => |words| < MAXARGS && forall i :: 0 <= i < |words| ==> Word(words[i])
    case TRedir(u, file, _) => Printable(u) && Word(file)
    case TPipe(l, r) => Printable(l) && Printable(r)
    case TList(l, r) => Printable(l) && Printable(r)
    case TBack(u) => Printable(u)
  }

  function PrintWords(words: seq<string>): string {
    if words == [] then "" else words[0] + " " + PrintWords(words[1..])
  }

  function Operator(mode: Mode): string {
    match mode case ReadFile => "<" case TruncateFile => ">" case AppendFile => ">>"
  }

  function Block(t: Tree): string
    decreases t, 1
  {
    "(" + Print(t) + ")"
  }

  function Print(t: Tree): string
    decreases t, 0
  {
    match t
    case TExec(words) => PrintWords(words)
    case TRedir(u, file, mode) => Block(u) + Operator(mode) + file + " "
    case TPipe(l, r) => Block(l) + "|" + Block(r)
    case TList(l, r) => Block(l) + ";" + Block(r)
    case TBack(u) => Block(u) + "&"
  }

  function Text(s: string, t: Span): string {
    if t.q <= t.eq <= |s| then s[t.q..t.eq] else ""
  }

  function Texts(s: string, argv: seq<Span>): seq<string> {
    if argv == [] then [] else [Text(s, argv[0])] + Texts(s, argv[1..])
  }

  /** The command that cmd, whose strings are in line s, stands for. */
  function Value(s: string, cmd: Cmd): Tree {
    match cmd
    case Exec(argv) => TExec(Texts(s, argv))
    case Redir(c, file, mode) => TRedir(Value(s, c), Text(s, file), mode)
    case Pipe(l, r) => TPipe(Value(s, l), Value(s, r))
    case List(l, r) => TList(Value(s, l), Value(s, r))
    case Back(c) => TBack(Value(s, c))
  }

  // ---------------------------------------------------------------------
  // Pieces of a line

  /** w stands at position p of s. */
  predicate At(s: string, p: nat, w: string) { p + |w| <= |s| && s[p..p + |w|] == w }

  lemma AtPlus(s: string, p: nat, u: string, w: string)
    requires At(s, p, u + w)
    ensures At(s, p, u) && At(s, p + |u|, w)
  {
    assert s[p..p + |u|] == (u + w)[..|u|];
    assert s[p + |u|..p + |u| + |w|] == (u + w)[|u|..];
  }

  lemma AtChar(s: string, p: nat, w: string, i: nat)
    requires At(s, p, w) && i < |w|
    ensures s[p + i] == w[i]
  {
    assert s[p..p + |w|][i] == w[i];
  }

  /** Where a printed command may end: at the end of the line or before a closing parenthesis. */
  predicate Stop(s: string, e: nat) { e == |s| || (e < |s| && s[e] == ')') }

  lemma StopsSkip(s: string, e: nat)
    requires Stop(s, e)
    ensures e <= |s| && SkipWhite(s, e) == e
    ensures !Peek(s, e, {'<', '>'}) && !Peek(s, e, {'|'}) && !Peek(s, e, {'&'})
    ensures !Peek(s, e, {';'}) && !Peek(s, e, {'('})
    ensures ParseRedirs(s, e) == Redirs([], e)
    ensures forall argc: nat :: ParseWords(s, e, argc) == Words([], [], e)
  {
  }

  /** A symbol other than '>' at p is a token of its own, and the next one starts at the next character that
      is not white. */
  lemma SymbolToken(s: string, p: nat, c: char)
    requires p < |s| && s[p] == c && Symbol(c) && c != '>'
    ensures SkipWhite(s, p) == p && GetToken(s, p) == Token(c, Span(p, p + 1), SkipWhite(s, p + 1))
  {
  }

  lemma {:induction false} WordEnds(s: string, p: nat, w: string, i: nat)
    requires At(s, p, w) && Word(w) && i <= |w| && p + |w| < |s| && !WordChar(s[p + |w|])
    ensures SkipWord(s, p + i) == p + |w|
    decreases |w| - i
  {
    if i < |w| {
      AtChar(s, p, w, i);
      WordEnds(s, p, w, i + 1);
    }
  }

  /** A word and the space after it are read as one token; what follows is not white. */
  lemma WordToken(s: string, p: nat, w: string, e: nat)
    requires At(s, p, w) && Word(w) && e == p + |w| + 1 <= |s| && s[p + |w|] == ' ' && (e < |s| ==> !White(s[e]))
    ensures GetToken(s, p) == Token('a', Span(p, p + |w|), e) && Text(s, Span(p, p + |w|)) == w
    ensures forall toks :: (forall c :: c in toks ==> Symbol(c)) ==> !Peek(s, p, toks)
  {
    AtChar(s, p, w, 0);
    WordEnds(s, p, w, 0);
  }

  // ---------------------------------------------------------------------
  // Simple commands

  /** Words are printed from p to e, where the command ends. */
  ghost predicate PrintedAt(s: string, p: nat, words: seq<string>, e: nat)
    decreases |words|
  {
    if words == [] then p == e && Stop(s, e)
    else WordAt(s, p, words[0], p + |words[0]| + 1) && PrintedAt(s, p + |words[0]| + 1, words[1..], e)
  }

  /** A word from p and the space after it, which ends at n. */
  ghost predicate WordAt(s: string, p: nat, w: string, n: nat) {
    At(s, p, w) && Word(w) && n == p + |w| + 1 <= |s| && s[p + |w|] == ' '
  }

  lemma {:induction false} WordsPrinted(s: string, p: nat, words: seq<string>, e: nat)
    requires At(s, p, PrintWords(words)) && e == p + |PrintWords(words)| && Stop(s, e)
    requires forall i :: 0 <= i < |words| ==> Word(words[i])
    ensures PrintedAt(s, p, words, e)
    decreases |words|
  {
    if words != [] {
      var w, rest := words[0], PrintWords(words[1..]);
      AtPlus(s, p, w + " ", rest);
      AtPlus(s, p, w, " ");
      AtChar(s, p + |w|, " ", 0);
      WordsPrinted(s, p + |w| + 1, words[1..], e);
    }
  }

  lemma WordsStart(s: string, p: nat, words: seq<string>, e: nat)
    requires PrintedAt(s, p, words, e)
    ensures p <= |s| && SkipWhite(s, p) == p && !Peek(s, p, {'<', '>'}) && !Peek(s, p, {'('})
  {
    if words == [] { StopsSkip(s, e); } else { AtChar(s, p, words[0], 0); }
  }

  /** parseexec's loop takes one word, after which no redirection follows. */
  lemma WordsUnfold(s: string, p: nat, argc: nat, more: nat, t: Token, list: seq<Redirection>, n: nat, tail: Words)
    requires p <= |s| && !Peek(s, p, {'|', ')', '&', ';'}) && GetToken(s, p) == t && t.tok == 'a'
    requires t.next <= |s| && ParseRedirs(s, t.next) == Redirs(list, n) && n <= |s| && more == argc + 1 < MAXARGS
    requires ParseWords(s, n, more) == tail && tail.Words?
    ensures ParseWords(s, p, argc) == Words([t.span] + tail.argv, list + tail.redirs, tail.next)
  {
  }

  lemma OneWord(s: string, p: nat, w: string, n: nat, argc: nat, more: nat)
    requires WordAt(s, p, w, n) && SkipWhite(s, n) == n && !Peek(s, n, {'<', '>'}) && more == argc + 1 < MAXARGS
    requires ParseWords(s, n, more).Words?
    ensures Text(s, Span(p, p + |w|)) == w
    ensures var tail := ParseWords(s, n, more);
      ParseWords(s, p, argc) == Words([Span(p, p + |w|)] + tail.argv, tail.redirs, tail.next)
  {
    WordToken(s, p, w, n);
    WordNoStop(s, p, w);
    NoRedirs(s, n);
    var tail := ParseWords(s, n, more);
    WordsUnfold(s, p, argc, more, GetToken(s, p), [], n, tail);
    assert [] + tail.redirs == tail.redirs;
  }

  lemma WordNoStop(s: string, p: nat, w: string)
    requires At(s, p, w) && Word(w)
    ensures p <= |s| && !Peek(s, p, {'|', ')', '&', ';'})
  {
    AtChar(s, p, w, 0);
  }

  lemma NoRedirs(s: string, n: nat)
    requires n <= |s| && SkipWhite(s, n) == n && !Peek(s, n, {'<', '>'})
    ensures ParseRedirs(s, n) == Redirs([], n)
  {
  }

  ghost predicate ReadAs(s: string, r: Words, words: seq<string>, e: nat) {
    r.Words? && r.redirs == [] && r.next == e && Texts(s, r.argv) == words
  }

  ghost predicate WordsRead(s: string, p: nat, argc: nat, words: seq<string>, e: nat) {
    p <= |s| && ReadAs(s, ParseWords(s, p, argc), words, e)
  }

  lemma TextsCons(s: string, t: Span, r: Words, w: string, rest: seq<string>, e: nat)
    requires Text(s, t) == w && ReadAs(s, r, rest, e)
    ensures ReadAs(s, Words([t] + r.argv, r.redirs, r.next), [w] + rest, e)
  {
    assert ([t] + r.argv)[1..] == r.argv;
  }

  lemma WordsStep(s: string, p: nat, w: string, rest: seq<string>, n: nat, e: nat, argc: nat, more: nat)
    requires WordAt(s, p, w, n) && SkipWhite(s, n) == n && !Peek(s, n, {'<', '>'}) && more == argc + 1 < MAXARGS
    requires WordsRead(s, n, more, rest, e)
    ensures WordsRead(s, p, argc, [w] + rest, e)
  {
    OneWord(s, p, w, n, argc, more);
    TextsCons(s, Span(p, p + |w|), ParseWords(s, n, more), w, rest, e);
  }

  lemma NoWords(s: string, p: nat, argc: nat)
    requires Stop(s, p)
    ensures WordsRead(s, p, argc, [], p)
  {
    StopsSkip(s, p);
  }

  /** The first of some words is read before the others. */
  lemma WordFirst(s: string, p: nat, w: string, rest: seq<string>, n: nat, e: nat, argc: nat, more: nat)
    requires WordAt(s, p, w, n) && PrintedAt(s, n, rest, e) && more == argc + 1 < MAXARGS
    requires WordsRead(s, n, more, rest, e)
    ensures WordsRead(s, p, argc, [w] + rest, e)
  {
    WordsStart(s, n, rest, e);
    WordsStep(s, p, w, rest, n, e, argc, more);
  }

  lemma {:induction false} WordsParse(s: string, p: nat, words: seq<string>, e: nat, argc: nat)
    requires PrintedAt(s, p, words, e) && argc + |words| < MAXARGS
    ensures WordsRead(s, p, argc, words, e)
    decreases |words|
  {
    if words == [] {
      NoWords(s, p, argc);
    } else {
      var w, rest, n, more := words[0], words[1..], p + |words[0]| + 1, argc + 1;
      assert words == [w] + rest;
      WordsParse(s, n, rest, e, more);
      WordFirst(s, p, w, rest, n, e, argc, more);
    }
  }

  lemma SimpleParse(s: string, p: nat, words: seq<string>, e: nat)
    requires PrintedAt(s, p, words, e) && |words| < MAXARGS
    ensures ExecReads(s, p, TExec(words), e)
  {
    WordsStart(s, p, words, e);
    WordsParse(s, p, words, e, 0);
    NoRedirs(s, p);
    SimpleResult(s, p, ParseWords(s, p, 0));
  }

  lemma SimpleResult(s: string, p: nat, r: Words)
    requires p <= |s| && !Peek(s, p, {'('}) && ParseRedirs(s, p) == Redirs([], p) && ParseWords(s, p, 0) == r
    requires r.Words? && r.redirs == []
    ensures ParseExec(s, p) == Ok(Exec(r.argv), r.next)
  {
  }

  // ---------------------------------------------------------------------
  // Compound commands

  /** Reading a line at p gives t and stops at e. */
  ghost predicate LineReads(s: string, p: nat, t: Tree, e: nat) {
    p <= |s| && var r := ParseLine(s, p); r.Ok? && r.next == e && Value(s, r.cmd) == t
  }

  ghost predicate ExecReads(s: string, p: nat, t: Tree, e: nat) {
    p <= |s| && var r := ParseExec(s, p); r.Ok? && r.next == e && Value(s, r.cmd) == t
  }

  lemma UpFromExec(s: string, p: nat, t: Tree, e: nat)
    requires ExecReads(s, p, t, e) && Stop(s, e)
    ensures LineReads(s, p, t, e)
  {
    StopsSkip(s, e);
  }

  lemma PrintStart(s: string, p: nat, t: Tree, e: nat)
    requires At(s, p, Print(t)) && e == p + |Print(t)| && Stop(s, e) && Printable(t)
    ensures p <= |s| && SkipWhite(s, p) == p
  {
    if t.TExec? {
      WordsPrinted(s, p, t.words, e);
      WordsStart(s, p, t.words, e);
    } else {
      AtChar(s, p, Print(t), 0);
    }
  }

  /** A block at p that ends at e begins and ends with parentheses. */
  lemma BlockEnds(s: string, p: nat, t: Tree, e: nat)
    requires At(s, p, Block(t)) && e == p + |Block(t)| && Printable(t)
    ensures p + 1 < e <= |s| && s[p] == '(' && s[e - 1] == ')' && At(s, p + 1, Print(t)) && e - 1 == p + 1 + |Print(t)|
  {
    AtPlus(s, p, "(" + Print(t), ")");
    AtPlus(s, p, "(", Print(t));
    AtChar(s, p, "(", 0);
    AtChar(s, e - 1, ")", 0);
  }

  lemma ParenTokens(s: string, p: nat, t: Tree, n: nat, m: nat, e: nat)
    requires At(s, p, Block(t)) && e == p + |Block(t)| && Printable(t) && SkipWhite(s, e) == e
    requires n == p + 1 && m + 1 == e
    ensures n <= m < |s| && s[p] == '(' && Peek(s, p, {'('}) && SkipWhite(s, p) == p && GetToken(s, p).next == n
    ensures Peek(s, m, {')'}) && GetToken(s, m).next == e
  {
    BlockEnds(s, p, t, e);
    PrintStart(s, n, t, m);
    SymbolToken(s, p, '(');
    SymbolToken(s, m, ')');
  }

  /** A block's command with the redirections that follow it. */
  function Redirected(c: Cmd, r: Redirections): Result {
    match r
    case NoFile => Err(MissingFile)
    case Redirs(list, end) => Ok(Wrap(c, list), end)
  }

  lemma BlockResult(s: string, p: nat, n: nat, c: Cmd, m: nat, e: nat)
    requires p <= |s| && Peek(s, p, {'('}) && GetToken(s, p).next == n && n <= |s| && ParseLine(s, n) == Ok(c, m)
    requires m <= |s| && Peek(s, m, {')'}) && GetToken(s, m).next == e && e <= |s|
    ensures ParseBlock(s, p) == Redirected(c, ParseRedirs(s, e))
  {
  }

  lemma ExecIsBlock(s: string, p: nat)
    requires p <= |s| && Peek(s, p, {'('})
    ensures ParseExec(s, p) == ParseBlock(s, p)
  {
  }

  /** A block at p that ends at e, with the redirections that follow it. */
  lemma BlockReads(s: string, p: nat, t: Tree, e: nat)
    requires At(s, p, Block(t)) && e == p + |Block(t)| && Printable(t)
    requires LineReads(s, p + 1, t, e - 1) && SkipWhite(s, e) == e
    ensures p < |s| && s[p] == '(' && Peek(s, p, {'('}) && SkipWhite(s, p) == p
    ensures ParseExec(s, p) == Redirected(ParseLine(s, p + 1).cmd, ParseRedirs(s, e))
  {
    ParenTokens(s, p, t, p + 1, e - 1, e);
    BlockResult(s, p, p + 1, ParseLine(s, p + 1).cmd, e - 1, e);
    ExecIsBlock(s, p);
  }

  lemma BlockAlone(s: string, p: nat, t: Tree, e: nat)
    requires At(s, p, Block(t)) && e == p + |Block(t)| && Printable(t)
    requires LineReads(s, p + 1, t, e - 1) && SkipWhite(s, e) == e && !Peek(s, e, {'<', '>'})
    ensures ExecReads(s, p, t, e)
  {
    BlockReads(s, p, t, e);
  }

  lemma BlockInside(s: string, p: nat, t: Tree, e: nat)
    requires At(s, p, Block(t)) && e == p + |Block(t)|
    ensures At(s, p + 1, Print(t)) && Stop(s, e - 1) && e - 1 == p + 1 + |Print(t)| && s[p] == '('
  {
    AtPlus(s, p, "(" + Print(t), ")");
    AtPlus(s, p, "(", Print(t));
    AtChar(s, p, "(", 0);
    AtChar(s, e - 1, ")", 0);
  }

  lemma OperatorToken(s: string, p: nat, mode: Mode, file: string, n: nat)
    requires At(s, p, Operator(mode)) && n == p + |Operator(mode)| && At(s, n, file) && Word(file)
    ensures p <= |s| && Peek(s, p, {'<', '>'}) && SkipWhite(s, p) == p
    ensures GetToken(s, p).next == n && ModeOf(GetToken(s, p).tok) == mode
  {
    AtChar(s, p, Operator(mode), 0);
    AtChar(s, n, file, 0);
    if mode.AppendFile? { AtChar(s, p, Operator(mode), 1); }
  }

  lemma OneRedir(s: string, p: nat, op: Token, file: Token, e: nat)
    requires p <= |s| && Peek(s, p, {'<', '>'}) && GetToken(s, p) == op
    requires op.next <= |s| && GetToken(s, op.next) == file
    requires file.tok == 'a' && file.next == e <= |s| && ParseRedirs(s, e) == Redirs([], e)
    ensures ParseRedirs(s, p) == Redirs([Redirection(file.span, ModeOf(op.tok))], e)
  {
  }

  /** One redirection and then the end of the command. */
  lemma RedirParse(s: string, p: nat, mode: Mode, file: string, e: nat)
    requires At(s, p, Operator(mode) + file + " ") && e == p + |Operator(mode) + file + " "|
    requires Word(file) && Stop(s, e)
    ensures p <= |s| && SkipWhite(s, p) == p
    ensures var r := ParseRedirs(s, p);
      && r.Redirs? && |r.list| == 1 && r.next == e && r.list[0].mode == mode
      && Text(s, r.list[0].file) == file
  {
    var n := p + |Operator(mode)|;
    AtPlus(s, p, Operator(mode) + file, " ");
    AtPlus(s, p, Operator(mode), file);
    AtChar(s, e - 1, " ", 0);
    OperatorToken(s, p, mode, file, n);
    StopsSkip(s, e);
    WordToken(s, n, file, e);
    NoRedirs(s, e);
    OneRedir(s, p, GetToken(s, p), GetToken(s, n), e);
  }

  lemma WrapOne(s: string, c: Cmd, list: seq<Redirection>)
    requires |list| == 1
    ensures Wrap(c, list) == Redir(c, list[0].file, list[0].mode)
  {
    assert list[..0] == [];
  }

  lemma RedirReads(s: string, p: nat, c: Cmd, r: Redirections, u: Tree, file: string, mode: Mode, e: nat)
    requires p <= |s| && ParseExec(s, p) == Redirected(c, r) && Value(s, c) == u
    requires r.Redirs? && |r.list| == 1 && r.next == e && r.list[0].mode == mode && Text(s, r.list[0].file) == file
    ensures ExecReads(s, p, TRedir(u, file, mode), e)
  {
    WrapOne(s, c, r.list);
  }

  lemma RedirCase(s: string, p: nat, u: Tree, file: string, mode: Mode, m: nat, e: nat)
    requires At(s, p, Block(u)) && m == p + |Block(u)| && Printable(u) && LineReads(s, p + 1, u, m - 1)
    requires At(s, m, Operator(mode) + file + " ") && e == m + |Operator(mode) + file + " "| && Word(file) && Stop(s, e)
    ensures LineReads(s, p, TRedir(u, file, mode), e)
  {
    RedirParse(s, m, mode, file, e);
    BlockReads(s, p, u, m);
    RedirReads(s, p, ParseLine(s, p + 1).cmd, ParseRedirs(s, m), u, file, mode, e);
    UpFromExec(s, p, TRedir(u, file, mode), e);
  }

  ghost predicate PipeReads(s: string, p: nat, t: Tree, e: nat) {
    p <= |s| && var r := ParsePipe(s, p); r.Ok? && r.next == e && Value(s, r.cmd) == t
  }

  lemma LastExec(s: string, p: nat, t: Tree, e: nat)
    requires ExecReads(s, p, t, e) && Stop(s, e)
    ensures PipeReads(s, p, t, e)
  {
    StopsSkip(s, e);
  }

  /** A one-character operator at m, with no white space before it or after it. */
  ghost predicate OpAt(s: string, m: nat, op: char, n: nat) {
    m <= |s| && SkipWhite(s, m) == m && Peek(s, m, {op}) && GetToken(s, m).next == n
  }

  lemma OperatorAt(s: string, m: nat, op: char, n: nat)
    requires m < |s| && s[m] == op && Symbol(op) && op != '>' && n == m + 1 && SkipWhite(s, n) == n
    ensures OpAt(s, m, op, n)
  {
    SymbolToken(s, m, op);
  }

  lemma ParenNext(s: string, n: nat)
    requires n < |s| && s[n] == '('
    ensures SkipWhite(s, n) == n
  {
    SymbolToken(s, n, '(');
  }

  /** A command that no pipe follows. */
  lemma ExecAlone(s: string, p: nat, t: Tree, m: nat, op: char, n: nat)
    requires ExecReads(s, p, t, m) && OpAt(s, m, op, n) && op != '|'
    ensures PipeReads(s, p, t, m)
  {
    assert !Peek(s, m, {'|'});
  }

  lemma PipeOp(s: string, p: nat, l: Tree, m: nat, n: nat, r: Tree, e: nat)
    requires ExecReads(s, p, l, m) && OpAt(s, m, '|', n) && PipeReads(s, n, r, e)
    ensures PipeReads(s, p, TPipe(l, r), e)
  {
  }

  lemma LastPipe(s: string, p: nat, t: Tree, e: nat)
    requires PipeReads(s, p, t, e) && Stop(s, e)
    ensures LineReads(s, p, t, e)
  {
    StopsSkip(s, e);
  }

  lemma ListOp(s: string, p: nat, l: Tree, m: nat, n: nat, r: Tree, e: nat)
    requires PipeReads(s, p, l, m) && OpAt(s, m, ';', n) && LineReads(s, n, r, e)
    ensures LineReads(s, p, TList(l, r), e)
  {
    var c := ParsePipe(s, p).cmd;
    assert !Peek(s, m, {'&'});
    assert ParseBacks(s, m, c) == (c, m);
  }

  lemma OneBack(s: string, m: nat, e: nat, c: Cmd)
    requires OpAt(s, m, '&', e) && Stop(s, e)
    ensures ParseBacks(s, m, c) == (Back(c), e) && e <= |s| && !Peek(s, e, {';'})
  {
    StopsSkip(s, e);
    assert ParseBacks(s, e, Back(c)) == (Back(c), e);
  }

  lemma BackOp(s: string, p: nat, u: Tree, m: nat, e: nat)
    requires PipeReads(s, p, u, m) && OpAt(s, m, '&', e) && Stop(s, e)
    ensures LineReads(s, p, TBack(u), e)
  {
    OneBack(s, m, e, ParsePipe(s, p).cmd);
  }

  lemma BackCase(s: string, p: nat, u: Tree, m: nat, e: nat)
    requires At(s, p, Block(u)) && m == p + |Block(u)| && Printable(u) && LineReads(s, p + 1, u, m - 1)
    requires m < |s| && s[m] == '&' && e == m + 1 && Stop(s, e)
    ensures LineReads(s, p, TBack(u), e)
  {
    SymbolToken(s, m, '&');
    StopsSkip(s, e);
    BlockAlone(s, p, u, m);
    OperatorAt(s, m, '&', e);
    ExecAlone(s, p, u, m, '&', e);
    BackOp(s, p, u, m, e);
  }

  /** Two blocks with a one-character operator between them. */
  ghost predicate BlocksAt(s: string, p: nat, l: Tree, op: char, r: Tree, m: nat, e: nat) {
    && At(s, p, Block(l)) && m == p + |Block(l)| && Printable(l)
    && m < |s| && s[m] == op
    && At(s, m + 1, Block(r)) && e == m + 1 + |Block(r)| && Printable(r) && Stop(s, e)
  }

  lemma PipeCase(s: string, p: nat, l: Tree, m: nat, n: nat, r: Tree, e: nat)
    requires ExecReads(s, p, l, m) && ExecReads(s, n, r, e) && Stop(s, e)
    requires n == m + 1 < |s| && s[m] == '|' && s[n] == '('
    ensures LineReads(s, p, TPipe(l, r), e)
  {
    ParenNext(s, n);
    OperatorAt(s, m, '|', n);
    LastExec(s, n, r, e);
    PipeOp(s, p, l, m, n, r, e);
    LastPipe(s, p, TPipe(l, r), e);
  }

  lemma ListCase(s: string, p: nat, l: Tree, m: nat, n: nat, r: Tree, e: nat)
    requires ExecReads(s, p, l, m) && ExecReads(s, n, r, e) && Stop(s, e)
    requires n == m + 1 < |s| && s[m] == ';' && s[n] == '('
    ensures LineReads(s, p, TList(l, r), e)
  {
    ParenNext(s, n);
    OperatorAt(s, m, ';', n);
    ExecAlone(s, p, l, m, ';', n);
    UpFromExec(s, n, r, e);
    ListOp(s, p, l, m, n, r, e);
  }

  lemma TwoBlocks(s: string, p: nat, l: Tree, op: string, r: Tree, m: nat, e: nat)
    requires |op| == 1 && At(s, p, Block(l) + op + Block(r)) && m == p + |Block(l)| && e == m + 1 + |Block(r)|
    requires Printable(l) && Printable(r) && Stop(s, e)
    ensures BlocksAt(s, p, l, op[0], r, m, e)
  {
    AtPlus(s, p, Block(l) + op, Block(r));
    AtPlus(s, p, Block(l), op);
    AtChar(s, m, op, 0);
  }

  /** A block stands from p to e, and neither white space nor a redirection follows it. */
  ghost predicate BlockAt(s: string, p: nat, t: Tree, e: nat) {
    && At(s, p, Block(t)) && e == p + |Block(t)| && Printable(t)
    && SkipWhite(s, e) == e && !Peek(s, e, {'<', '>'})
  }

  lemma TwoReady(s: string, p: nat, l: Tree, op: string, r: Tree, m: nat, n: nat, e: nat)
    requires |op| == 1 && (op[0] == '|' || op[0] == ';') && Stop(s, e) && Printable(l) && Printable(r)
    requires At(s, p, Block(l) + op + Block(r)) && m == p + |Block(l)| && n == m + 1 && e == n + |Block(r)|
    ensures BlockAt(s, p, l, m) && m < |s| && s[m] == op[0] && BlockAt(s, n, r, e)
  {
    TwoBlocks(s, p, l, op, r, m, e);
    SymbolToken(s, m, op[0]);
    StopsSkip(s, e);
  }

  lemma RedirAt(s: string, p: nat, u: Tree, mode: Mode, file: string, m: nat)
    requires At(s, p, Print(TRedir(u, file, mode))) && m == p + |Block(u)|
    ensures At(s, p, Block(u)) && At(s, m, Operator(mode) + file + " ")
    ensures |Print(TRedir(u, file, mode))| == |Block(u)| + |Operator(mode) + file + " "|
  {
    assert Print(TRedir(u, file, mode)) == Block(u) + (Operator(mode) + file + " ");
    AtPlus(s, p, Block(u), Operator(mode) + file + " ");
  }

  lemma BackAt(s: string, p: nat, u: Tree, m: nat)
    requires At(s, p, Print(TBack(u))) && m == p + |Block(u)|
    ensures At(s, p, Block(u)) && m < |s| && s[m] == '&'
  {
    AtPlus(s, p, Block(u), "&");
    AtChar(s, m, "&", 0);
  }

  /** A printed command is read back wherever it stands, if the line or a parenthesis ends after it. */
  lemma {:induction false} PrintReads(s: string, p: nat, t: Tree, e: nat)
    requires At(s, p, Print(t)) && e == p + |Print(t)| && Stop(s, e) && Printable(t)
    ensures LineReads(s, p, t, e)
    decreases t, 2
  {
    match t
    case TExec(words) =>
      WordsPrinted(s, p, words, e);
      SimpleParse(s, p, words, e);
      UpFromExec(s, p, t, e);
    case TRedir(u, file, mode) => PrintRedir(s, p, u, file, mode, e);
    case TBack(u) => PrintBack(s, p, u, e);
    case TPipe(l, r) => PrintPipe(t, s, p, l, r, p + |Block(l)|, p + |Block(l)| + 1, e);
    case TList(l, r) => PrintList(t, s, p, l, r, p + |Block(l)|, p + |Block(l)| + 1, e);
  }

  lemma {:induction false} PrintPipe(t: Tree, s: string, p: nat, l: Tree, r: Tree, m: nat, n: nat, e: nat)
    requires t == TPipe(l, r) && Stop(s, e) && Printable(l) && Printable(r)
    requires At(s, p, Block(l) + "|" + Block(r)) && m == p + |Block(l)| && n == m + 1 && e == n + |Block(r)|
    ensures LineReads(s, p, t, e)
    decreases t, 0
  {
    TwoReady(s, p, l, "|", r, m, n, e);
    PrintBlock(s, p, l, m);
    PrintBlock(s, n, r, e);
    PipeCase(s, p, l, m, n, r, e);
  }

  lemma {:induction false} PrintList(t: Tree, s: string, p: nat, l: Tree, r: Tree, m: nat, n: nat, e: nat)
    requires t == TList(l, r) && Stop(s, e) && Printable(l) && Printable(r)
    requires At(s, p, Block(l) + ";" + Block(r)) && m == p + |Block(l)| && n == m + 1 && e == n + |Block(r)|
    ensures LineReads(s, p, t, e)
    decreases t, 0
  {
    TwoReady(s, p, l, ";", r, m, n, e);
    PrintBlock(s, p, l, m);
    PrintBlock(s, n, r, e);
    ListCase(s, p, l, m, n, r, e);
  }

  lemma {:induction false} PrintRedir(s: string, p: nat, u: Tree, file: string, mode: Mode, e: nat)
    requires At(s, p, Print(TRedir(u, file, mode))) && e == p + |Print(TRedir(u, file, mode))| && Stop(s, e)
    requires Printable(u) && Word(file)
    ensures LineReads(s, p, TRedir(u, file, mode), e)
    decreases u, 4
  {
    var m := p + |Block(u)|;
    RedirAt(s, p, u, mode, file, m);
    PrintInside(s, p, u, m);
    RedirCase(s, p, u, file, mode, m, e);
  }

  lemma {:induction false} PrintBack(s: string, p: nat, u: Tree, e: nat)
    requires At(s, p, Print(TBack(u))) && e == p + |Print(TBack(u))| && Stop(s, e) && Printable(u)
    ensures LineReads(s, p, TBack(u), e)
    decreases u, 4
  {
    var m := p + |Block(u)|;
    BackAt(s, p, u, m);
    PrintInside(s, p, u, m);
    BackCase(s, p, u, m, e);
  }

  lemma {:induction false} PrintInside(s: string, p: nat, t: Tree, e: nat)
    requires At(s, p, Block(t)) && e == p + |Block(t)| && Printable(t)
    ensures LineReads(s, p + 1, t, e - 1)
    decreases t, 3
  {
    BlockInside(s, p, t, e);
    PrintReads(s, p + 1, t, e - 1);
  }

  lemma {:induction false} PrintBlock(s: string, p: nat, t: Tree, e: nat)
    requires BlockAt(s, p, t, e)
    ensures ExecReads(s, p, t, e) && p < |s| && s[p] == '('
    decreases t, 4
  {
    PrintInside(s, p, t, e);
    BlockAlone(s, p, t, e);
    BlockInside(s, p, t, e);
  }

  /** Parsing a printed command gives the command back. */
  lemma RoundTrip(t: Tree)
    requires Printable(t)
    ensures ParseCmd(Print(t)).Ok? && Value(Print(t), ParseCmd(Print(t)).cmd) == t
  {
    var s := Print(t);
    PrintReads(s, 0, t, |s|);
  }
}
