/** sh.c's tokens and grammar, as functions of the text that is left to read. */
module Shell {
  import opened Basics

  const MAXARGS: nat := 10

  predicate White(c: char) {
    c == ' ' || c == '\t' || c == '\r' || c == '\n' || c == '\U{0B}'
  }

  predicate Symbol(c: char) {
    c == '<' || c == '|' || c == '>' || c == '&' || c == ';' || c == '(' || c == ')'
  }

  predicate WordChar(c: char) {
    !White(c) && !Symbol(c)
  }

  function Skip(r: string): (t: string)
    ensures |t| <= |r| && (t == [] || !White(t[0]))
  {
    if r != [] && White(r[0]) then Skip(r[1..]) else r
  }

  function SkipWord(r: string): (t: string)
    ensures |t| <= |r| && (t == [] || !WordChar(t[0]))
    ensures r != [] && WordChar(r[0]) ==> |t| < |r|
  {
    if r != [] && WordChar(r[0]) then SkipWord(r[1..]) else r
  }

  // peek: *s, after white space, is one of toks.
  predicate Peek(r: string, toks: set<char>) {
    Skip(r) != [] && Skip(r)[0] in toks
  }

  /** gettoken: kind is the character, '+' for >>, 'a' for a word, or NUL at the end; q and eq are
      what is left at the token's start and end. */
  datatype Token = Token(kind: char, q: string, eq: string, next: string)

  function Gettoken(r: string): (t: Token)
    ensures |t.next| <= |t.eq| <= |t.q| <= |r|
    ensures t.kind != '\0' ==> |t.eq| < |t.q|
  {
    var q := Skip(r);
    if q == [] then Token('\0', q, q, q)
    else if q[0] == '>' then
      if |q| > 1 && q[1] == '>' then Token('+', q, q[2..], Skip(q[2..])) else Token('>', q, q[1..], Skip(q[1..]))
    else if Symbol(q[0]) then Token(q[0], q, q[1..], Skip(q[1..]))
    else Token('a', q, SkipWord(q), Skip(SkipWord(q)))
  }

  /** A string in the buffer, by how much text is left at its start and at its end. */
  datatype Span = Span(lo: nat, hi: nat)

  function Text(s: string, x: Span): string
    requires x.hi <= x.lo <= |s|
  {
    s[|s| - x.lo..|s| - x.hi]
  }

  datatype Kind = In | Out | Append

  datatype Cmd =
    | Exec(args: seq<Span>)
    | Redir(cmd: Cmd, file: Span, kind: Kind)
    | Pipe(left: Cmd, right: Cmd)
    | List(left: Cmd, right: Cmd)
    | Back(cmd: Cmd)

  datatype Parsed = Parsed(cmd: Cmd, rest: string)

  datatype Redirs = Redirs(files: seq<(Span, Kind)>, rest: string)

  datatype Args = Args(args: seq<Span>, files: seq<(Span, Kind)>, rest: string)

  function Wrap(c: Cmd, files: seq<(Span, Kind)>): Cmd {
    if files == [] then c else Redir(Wrap(c, files[..|files| - 1]), files[|files| - 1].0, files[|files| - 1].1)
  }

  function KindOf(c: char): Kind {
    if c == '<' then In else if c == '>' then Out else Append
  }

  lemma PeekIsToken(r: string, toks: set<char>)
    requires Peek(r, toks) && forall c :: c in toks ==> Symbol(c)
    ensures Gettoken(r).kind != '\0' && |Gettoken(r).next| < |r| && Gettoken(r).kind != 'a'
  {
  }

  // parseredirs: the redirections at the front; None is a panic.
  function Parseredirs(r: string): (o: Option<Redirs>)
    ensures o.Some? ==> |o.value.rest| <= |r|
    decreases |r|
  {
    if !Peek(r, {'<', '>'}) then Some(Redirs([], Skip(r))) else
    var tok := Gettoken(r);
    PeekIsToken(r, {'<', '>'});
    var name := Gettoken(tok.next);
    if name.kind != 'a' then None else
    match Parseredirs(name.next)
    case None => None
    case Some(more) => Some(Redirs([(Span(|name.q|, |name.eq|), KindOf(tok.kind))] + more.files, more.rest))
  }

  // parseexec's loop, with argc arguments read so far.
  function Parseargs(r: string, argc: nat): (o: Option<Args>)
    ensures o.Some? ==> |o.value.rest| <= |r|
    decreases |r|
  {
    if Peek(r, {'|', ')', '&', ';'}) then Some(Args([], [], Skip(r))) else
    var tok := Gettoken(r);
    if tok.kind == '\0' then Some(Args([], [], tok.next))
    else if tok.kind != 'a' || argc + 1 >= MAXARGS then None
    else
      match Parseredirs(tok.next)
      case None => None
      case Some(rs) =>
        match Parseargs(rs.rest, argc + 1)
        case None => None
        case Some(more) => Some(Args([Span(|tok.q|, |tok.eq|)] + more.args, rs.files + more.files, more.rest))
  }

  function Parseexec(r: string): (o: Option<Parsed>)
    ensures o.Some? ==> |o.value.rest| <= |r|
    decreases |r|, 1
  {
    if Peek(r, {'('}) then Parseblock(r) else
    match Parseredirs(r)
    case None => None
    case Some(rs) =>
      match Parseargs(rs.rest, 0)
      case None => None
      case Some(a) => Some(Parsed(Wrap(Exec(a.args), rs.files + a.files), a.rest))
  }

  function Parseblock(r: string): (o: Option<Parsed>)
    requires Peek(r, {'('})
    ensures o.Some? ==> |o.value.rest| <= |r|
    decreases |r|, 0
  {
    PeekIsToken(r, {'('});
    match Parseline(Gettoken(r).next)
    case None => None
    case Some(p) =>
      if !Peek(p.rest, {')'}) then None else
      match Parseredirs(Gettoken(p.rest).next)
      case None => None
      case Some(rs) => Some(Parsed(Wrap(p.cmd, rs.files), rs.rest))
  }

  function Parsepipe(r: string): (o: Option<Parsed>)
    ensures o.Some? ==> |o.value.rest| <= |r|
    decreases |r|, 2
  {
    match Parseexec(r)
    case None => None
    case Some(p) =>
      if !Peek(p.rest, {'|'}) then Some(Parsed(p.cmd, Skip(p.rest))) else
      PeekIsToken(p.rest, {'|'});
      match Parsepipe(Gettoken(p.rest).next)
      case None => None
      case Some(q) => Some(Parsed(Pipe(p.cmd, q.cmd), q.rest))
  }

  // parseline's loop over &.
  function Backs(c: Cmd, r: string): (p: Parsed)
    ensures |p.rest| <= |r| && !Peek(p.rest, {'&'})
    decreases |r|
  {
    if !Peek(r, {'&'}) then Parsed(c, Skip(r)) else
    PeekIsToken(r, {'&'});
    Backs(Back(c), Gettoken(r).next)
  }

  function Parseline(r: string): (o: Option<Parsed>)
    ensures o.Some? ==> |o.value.rest| <= |r|
    decreases |r|, 3
  {
    match Parsepipe(r)
    case None => None
    case Some(p) =>
      var b := Backs(p.cmd, p.rest);
      if !Peek(b.rest, {';'}) then Some(Parsed(b.cmd, Skip(b.rest))) else
      PeekIsToken(b.rest, {';'});
      match Parseline(Gettoken(b.rest).next)
      case None => None
      case Some(q) => Some(Parsed(List(b.cmd, q.cmd), q.rest))
  }

  /** parsecmd, before nulterminate: None is any of the parser's panics. */
  function Parsecmd(s: string): Option<Cmd> {
    match Parseline(s)
    case None => None
    case Some(p) => if Skip(p.rest) != [] then None else Some(p.cmd)
  }
}
