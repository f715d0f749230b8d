/** The parser of user/sh.c as it runs: loops over the line, recursion, and the NULs that nulterminate writes
    into the line at the end. */
module Shell {
  import opened ShellSyntax

  // ---------------------------------------------------------------------
  // Tokens

  lemma SkipTwice(s: string, p: nat)
    requires p <= |s|
    ensures SkipWhite(s, SkipWhite(s, p)) == SkipWhite(s, p)
  {
  }

  method ReadWhite(s: string, p: nat) returns (q: nat)
    requires p <= |s|
    ensures q == SkipWhite(s, p)
  {
    q := p;
    while q < |s| && White(s[q])
      invariant p <= q <= |s| && SkipWhite(s, q) == SkipWhite(s, p)
    {
      q := q + 1;
    }
  }

  method ReadToken(s: string, p: nat) returns (t: Token)
    requires p <= |s|
    ensures t == GetToken(s, p)
  {
    var q := ReadWhite(s, p);
    var e, tok := q, '\0';
    if q < |s| {
      tok := s[q];
      if s[q] == '>' {
        e := e + 1;
        if e < |s| && s[e] == '>' {
          tok := '+';
          e := e + 1;
        }
      } else if Symbol(s[q]) {
        e := e + 1;
      } else {
        tok := 'a';
        while e < |s| && !White(s[e]) && !Symbol(s[e])
          invariant q <= e <= |s| && SkipWord(s, e) == SkipWord(s, q)
        {
          e := e + 1;
        }
      }
    }
    var next := ReadWhite(s, e);
    t := Token(tok, Span(q, e), next);
  }

  method ReadPeek(s: string, p: nat, toks: set<char>) returns (found: bool, next: nat)
    requires p <= |s|
    ensures found == Peek(s, p, toks) && next == SkipWhite(s, p)
  {
    next := ReadWhite(s, p);
    found := next < |s| && s[next] in toks;
  }

  // ---------------------------------------------------------------------
  // Redirections and words

  /** White space in front makes no difference to the parser. */
  lemma SkipFirst(s: string, p: nat, q: nat)
    requires p <= |s| && q == SkipWhite(s, p)
    ensures GetToken(s, q) == GetToken(s, p)
    ensures forall toks :: Peek(s, q, toks) == Peek(s, p, toks)
  {
    SkipTwice(s, p);
  }

  function Before(list: seq<Redirection>, r: Redirections): Redirections {
    match r case NoFile => NoFile case Redirs(rest, next) => Redirs(list + rest, next)
  }

  lemma BeforeOne(list: seq<Redirection>, rd: Redirection, r: Redirections)
    ensures Before(list + [rd], r) == Before(list, Before([rd], r))
  {
    if r.Redirs? { assert list + [rd] + r.list == list + ([rd] + r.list); }
  }

  lemma BeforeNone(r: Redirections)
    ensures Before([], r) == r
  {
  }

  lemma TookRedir(s: string, i: nat, list: seq<Redirection>, op: Token, file: Token, goal: Redirections)
    requires i <= |s| && Peek(s, i, {'<', '>'}) && op == GetToken(s, i) && file == GetToken(s, op.next)
    requires Before(list, ParseRedirs(s, i)) == goal
    ensures file.tok != 'a' ==> goal == NoFile
    ensures file.tok == 'a' ==>
      i < file.next && Before(list + [Redirection(file.span, ModeOf(op.tok))], ParseRedirs(s, file.next)) == goal
  {
    BeforeOne(list, Redirection(file.span, ModeOf(op.tok)), ParseRedirs(s, file.next));
  }

  method ReadRedirs(s: string, p: nat) returns (r: Redirections)
    requires p <= |s|
    ensures r == ParseRedirs(s, p)
  {
    var list: seq<Redirection> := [];
    var i := p;
    ghost var goal := ParseRedirs(s, p);
    BeforeNone(goal);
    while true
      invariant i <= |s| && Before(list, ParseRedirs(s, i)) == goal
      decreases |s| - i
    {
      var found, n := ReadPeek(s, i, {'<', '>'});
      if !found { return Redirs(list, n); }
      SkipFirst(s, i, n);
      var op := ReadToken(s, n);
      var file := ReadToken(s, op.next);
      TookRedir(s, i, list, op, file, goal);
      if file.tok != 'a' { return NoFile; }
      list, i := list + [Redirection(file.span, ModeOf(op.tok))], file.next;
    }
  }

  function After(argv: seq<Span>, redirs: seq<Redirection>, w: Words): Words {
    match w case BadWords(e) => BadWords(e) case Words(a, r, next) => Words(argv + a, redirs + r, next)
  }

  lemma AfterOne(argv: seq<Span>, redirs: seq<Redirection>, t: Span, list: seq<Redirection>, w: Words)
    ensures After(argv + [t], redirs + list, w) == After(argv, redirs, After([t], list, w))
  {
    if w.Words? {
      assert argv + [t] + w.argv == argv + ([t] + w.argv);
      assert redirs + list + w.redirs == redirs + (list + w.redirs);
    }
  }

  /** One round of parseexec's loop: it ends the command, fails, or takes a word and the redirections after it. */
  datatype Round = Ended(next: nat) | Failed(error: Error) | Took(t: Span, list: seq<Redirection>, next: nat)

  ghost predicate IsRound(s: string, p: nat, argc: nat, r: Round)
    requires p <= |s|
  {
    match r
    case Ended(next) => ParseWords(s, p, argc) == Words([], [], next)
    case Failed(e) => ParseWords(s, p, argc) == BadWords(e)
    case Took(t, list, next) =>
      p < next <= |s| && ParseWords(s, p, argc) == After([t], list, ParseWords(s, next, argc + 1))
  }

  method ReadRound(s: string, p: nat, argc: nat) returns (r: Round)
    requires p <= |s|
    ensures IsRound(s, p, argc, r)
  {
    var stop, i := ReadPeek(s, p, {'|', ')', '&', ';'});
    if stop { return Ended(i); }
    SkipFirst(s, p, i);
    var t := ReadToken(s, i);
    if t.tok == '\0' { return Ended(t.next); }
    if t.tok != 'a' { return Failed(BadSyntax); }
    if argc + 1 >= MAXARGS { return Failed(TooManyArgs); }
    var redirs := ReadRedirs(s, t.next);
    if redirs.NoFile? { return Failed(MissingFile); }
    r := Took(t.span, redirs.list, redirs.next);
  }

  lemma AfterNone(w: Words)
    ensures After([], [], w) == w
  {
  }

  lemma TookRound(s: string, i: nat, argc: nat, argv: seq<Span>, redirs: seq<Redirection>, r: Round, goal: Words)
    requires i <= |s| && r.Took? && IsRound(s, i, argc, r) && After(argv, redirs, ParseWords(s, i, argc)) == goal
    ensures i < r.next <= |s| && After(argv + [r.t], redirs + r.list, ParseWords(s, r.next, argc + 1)) == goal
  {
    AfterOne(argv, redirs, r.t, r.list, ParseWords(s, r.next, argc + 1));
  }

  lemma LastRound(s: string, i: nat, argc: nat, argv: seq<Span>, redirs: seq<Redirection>, r: Round)
    requires i <= |s| && !r.Took? && IsRound(s, i, argc, r)
    ensures After(argv, redirs, ParseWords(s, i, argc)) ==
      if r.Failed? then BadWords(r.error) else Words(argv, redirs, r.next)
  {
  }

  /** parseexec's loop, collecting arguments and redirections. */
  method ReadWords(s: string, p: nat) returns (w: Words)
    requires p <= |s|
    ensures w == ParseWords(s, p, 0)
  {
    var argv: seq<Span> := [];
    var redirs: seq<Redirection> := [];
    var i, argc := p, 0;
    ghost var goal := ParseWords(s, p, 0);
    AfterNone(goal);
    while true
      invariant i <= |s| && argc >= 0 && After(argv, redirs, ParseWords(s, i, argc)) == goal
      decreases |s| - i
    {
      var round := ReadRound(s, i, argc);
      if !round.Took? {
        LastRound(s, i, argc, argv, redirs, round);
        return if round.Failed? then BadWords(round.error) else Words(argv, redirs, round.next);
      }
      TookRound(s, i, argc, argv, redirs, round, goal);
      argv, redirs, i, argc := argv + [round.t], redirs + round.list, round.next, argc + 1;
    }
  }

  // ---------------------------------------------------------------------
  // Commands

  method ReadSimple(s: string, p: nat) returns (r: Result)
    requires p <= |s|
    ensures r == ParseSimple(s, p)
  {
    var first := ReadRedirs(s, p);
    if first.NoFile? { return Err(MissingFile); }
    var w := ReadWords(s, first.next);
    if w.BadWords? { return Err(w.error); }
    r := Ok(Wrap(Exec(w.argv), first.list + w.redirs), w.next);
  }

  method ReadLine(s: string, p: nat) returns (r: Result)
    requires p <= |s|
    ensures r == ParseLine(s, p)
    decreases |s| - p, 3
  {
    r := ReadPipe(s, p);
    if r.Err? { return; }
    var cmd := r.cmd;
    ghost var first := r;
    var found, i := ReadPeek(s, r.next, {'&'});
    SkipFirst(s, r.next, i);
    SkipBacks(s, r.next, i, cmd);
    while found
      invariant p <= first.next <= i <= |s| && SkipWhite(s, i) == i && found == Peek(s, i, {'&'})
      invariant ParseBacks(s, i, cmd) == ParseBacks(s, first.next, first.cmd)
      decreases |s| - i
    {
      var t := ReadToken(s, i);
      cmd := Back(cmd);
      found, i := ReadPeek(s, t.next, {'&'});
      SkipFirst(s, t.next, i);
      SkipBacks(s, t.next, i, cmd);
    }
    var semi, n := ReadPeek(s, i, {';'});
    if semi {
      var t := ReadToken(s, n);
      var rest := ReadLine(s, t.next);
      if rest.Err? { return rest; }
      return Ok(List(cmd, rest.cmd), rest.next);
    }
    r := Ok(cmd, n);
  }

  lemma SkipBacks(s: string, p: nat, q: nat, cmd: Cmd)
    requires p <= |s| && q == SkipWhite(s, p)
    ensures ParseBacks(s, q, cmd) == ParseBacks(s, p, cmd) && SkipWhite(s, q) == q
  {
    SkipFirst(s, p, q);
    SkipTwice(s, p);
  }

  method ReadPipe(s: string, p: nat) returns (r: Result)
    requires p <= |s|
    ensures r == ParsePipe(s, p)
    decreases |s| - p, 2
  {
    r := ReadExec(s, p);
    if r.Err? { return; }
    var bar, n := ReadPeek(s, r.next, {'|'});
    if bar {
      SkipFirst(s, r.next, n);
      var t := ReadToken(s, n);
      var rest := ReadPipe(s, t.next);
      if rest.Err? { return rest; }
      return Ok(Pipe(r.cmd, rest.cmd), rest.next);
    }
    r := Ok(r.cmd, n);
  }

  method ReadExec(s: string, p: nat) returns (r: Result)
    requires p <= |s|
    ensures r == ParseExec(s, p)
    decreases |s| - p, 1
  {
    var paren, n := ReadPeek(s, p, {'('});
    if paren {
      r := ReadBlock(s, p);
    } else {
      r := ReadSimple(s, p);
    }
  }

  method ReadBlock(s: string, p: nat) returns (r: Result)
    requires p <= |s| && Peek(s, p, {'('})
    ensures r == ParseBlock(s, p)
    decreases |s| - p, 0
  {
    var t := ReadToken(s, p);
    r := ReadLine(s, t.next);
    if r.Err? { return; }
    var close, n := ReadPeek(s, r.next, {')'});
    if !close { return Err(MissingParen); }
    SkipFirst(s, r.next, n);
    t := ReadToken(s, n);
    var redirs := ReadRedirs(s, t.next);
    if redirs.NoFile? { return Err(MissingFile); }
    r := Ok(Wrap(r.cmd, redirs.list), redirs.next);
  }

  // ---------------------------------------------------------------------
  // Termination of the strings

  /** Every counted string of a command. */
  ghost function Spans(cmd: Cmd): set<Span> {
    match cmd
    case Exec(argv) => set t | t in argv
    case Redir(c, file, _) => Spans(c) + {file}
    case Pipe(l, r) => Spans(l) + Spans(r)
    case List(l, r) => Spans(l) + Spans(r)
    case Back(c) => Spans(c)
  }

  /** The string at t.eq ends one of the command's strings. */
  ghost predicate IsEnd(cmd: Cmd, i: nat) { exists t :: t in Spans(cmd) && t.eq == i }

  lemma {:induction false} SpansAreTokens(s: string, cmd: Cmd, t: Span)
    requires Tokens(s, cmd) && t in Spans(cmd)
    ensures IsToken(s, t)
  {
    match cmd
    case Exec(argv) =>
    case Redir(c, file, _) => if t != file { SpansAreTokens(s, c, t); }
    case Pipe(l, r) => if t in Spans(l) { SpansAreTokens(s, l, t); } else { SpansAreTokens(s, r, t); }
    case List(l, r) => if t in Spans(l) { SpansAreTokens(s, l, t); } else { SpansAreTokens(s, r, t); }
    case Back(c) => SpansAreTokens(s, c, t);
  }

  /** No end pointer lies inside a string: an end is where a token stops, and a token has only word characters. */
  lemma NoEndInside(s: string, cmd: Cmd, t: Span, i: nat)
    requires Tokens(s, cmd) && t in Spans(cmd) && IsEnd(cmd, i)
    ensures i <= |s| && !(t.q <= i < t.eq)
  {
    var u :| u in Spans(cmd) && u.eq == i;
    SpansAreTokens(s, cmd, u);
    SpansAreTokens(s, cmd, t);
  }

  method NulTerminate(buf: array<char>, cmd: Cmd)
    requires forall t :: t in Spans(cmd) ==> t.eq < buf.Length
    modifies buf
    ensures forall i: nat :: i < buf.Length ==> buf[i] == if IsEnd(cmd, i) then '\0' else old(buf[i])
    decreases cmd
  {
    match cmd
    case Exec(argv) =>
      var i := 0;
      while i < |argv|
        invariant 0 <= i <= |argv|
        invariant forall j: nat :: j < buf.Length ==>
          buf[j] == if IsEnd(Exec(argv[..i]), j) then '\0' else old(buf[j])
      {
        ExecEnds(argv, i);
        assert argv[i] in Spans(cmd);
        buf[argv[i].eq] := '\0';
        i := i + 1;
      }
      assert argv[..i] == argv;
    case Redir(c, file, _) =>
      assert file in Spans(cmd);
      NulTerminate(buf, c);
      buf[file.eq] := '\0';
      RedirEnds(cmd);
    case Pipe(l, r) =>
      NulTerminate(buf, l);
      NulTerminate(buf, r);
      PairEnds(cmd);
    case List(l, r) =>
      NulTerminate(buf, l);
      NulTerminate(buf, r);
      PairEnds(cmd);
    case Back(c) =>
      NulTerminate(buf, c);
      assert Spans(cmd) == Spans(c);
  }

  lemma ExecEnds(argv: seq<Span>, i: nat)
    requires i < |argv|
    ensures forall j: nat :: IsEnd(Exec(argv[..i + 1]), j) <==> IsEnd(Exec(argv[..i]), j) || j == argv[i].eq
  {
    assert Spans(Exec(argv[..i + 1])) == Spans(Exec(argv[..i])) + {argv[i]};
  }

  lemma RedirEnds(cmd: Cmd)
    requires cmd.Redir?
    ensures forall j: nat :: IsEnd(cmd, j) <==> IsEnd(cmd.cmd, j) || j == cmd.file.eq
  {
    assert Spans(cmd) == Spans(cmd.cmd) + {cmd.file};
  }

  lemma PairEnds(cmd: Cmd)
    requires cmd.Pipe? || cmd.List?
    ensures forall j: nat :: IsEnd(cmd, j) <==> IsEnd(cmd.left, j) || IsEnd(cmd.right, j)
  {
    assert Spans(cmd) == Spans(cmd.left) + Spans(cmd.right);
  }

  /** The C string at q of buf is w. */
  predicate CString(buf: seq<char>, q: nat, w: string) {
    && q + |w| < |buf| && buf[q + |w|] == '\0'
    && (forall i :: 0 <= i < |w| ==> buf[q + i] == w[i] && w[i] != '\0')
  }

  /** With a NUL at every end and nothing else changed, each counted string reads as the token it counts. */
  lemma StringsIntact(s: string, cmd: Cmd, buf: seq<char>, t: Span)
    requires Tokens(s, cmd) && t in Spans(cmd) && |buf| > |s|
    requires forall i :: 0 <= i < |s| ==> s[i] != '\0'
    requires forall i: nat :: i <= |s| && IsEnd(cmd, i) ==> buf[i] == '\0'
    requires forall i: nat :: i < |s| && !IsEnd(cmd, i) ==> buf[i] == s[i]
    ensures t.q <= t.eq <= |s| && CString(buf, t.q, s[t.q..t.eq])
  {
    SpansAreTokens(s, cmd, t);
    assert IsEnd(cmd, t.eq);
    forall i: nat | t.q <= i < t.eq ensures buf[i] == s[i] {
      if IsEnd(cmd, i) { NoEndInside(s, cmd, t, i); }
    }
  }

  /** parsecmd on a line in a buffer: the tree is that of the line, and every argument and file name in it
      reads, as a C string, as exactly the token that gettoken delimited. */
  method ReadCmd(buf: array<char>, s: string) returns (r: Result)
    requires |s| < buf.Length && buf[..|s|] == s && buf[|s|] == '\0'
    requires forall i :: 0 <= i < |s| ==> s[i] != '\0'
    modifies buf
    ensures r == ParseCmd(s)
    ensures r.Err? ==> buf[..] == old(buf[..])
    ensures r.Ok? ==> forall t :: t in Spans(r.cmd) ==> t.q < t.eq <= |s| && CString(buf[..], t.q, s[t.q..t.eq])
  {
    r := ReadLine(s, 0);
    if r.Err? { return; }
    var n := ReadWhite(s, r.next);
    if n != |s| { return Err(Leftovers); }
    r := Ok(r.cmd, |s|);
    ParsedTokens(s);
    forall t | t in Spans(r.cmd) ensures IsToken(s, t) { SpansAreTokens(s, r.cmd, t); }
    NulTerminate(buf, r.cmd);
    forall t | t in Spans(r.cmd) ensures CString(buf[..], t.q, s[t.q..t.eq]) {
      StringsIntact(s, r.cmd, buf[..], t);
    }
  }
}
