/** The language of the shell as a grammar over tokens, precedence and all, and that the parser takes
    exactly the lines of it and gives each its meaning, however it is spaced. */
module ShellGrammar {
  import opened Basics
  import opened Shell
  import opened ShellPrint
  import opened ShellTokens

  // ---- tokens ----

  /** A word has its text; < > + ; & | ( ) have none. */
  datatype Tok = Tok(kind: char, text: string)

  function TokOf(t: Token): Tok
    requires |t.eq| <= |t.q|
  {
    Tok(t.kind, if t.kind == 'a' then t.q[..|t.q| - |t.eq|] else "")
  }

  function Lex(r: string): seq<Tok>
    decreases |r|
  {
    var t := Gettoken(r);
    if t.kind == '\0' then [] else [TokOf(t)] + Lex(t.next)
  }

  // ---- the grammar ----

  datatype Redirect = Redirect(kind: Kind, file: string)

  datatype Arg = Arg(word: string, redirs: seq<Redirect>)

  /** exec     ::= redir* (word redir*)*  |  ( line ) redir*
      pipeline ::= exec  |  exec | pipeline
      line     ::= pipeline &*  |  pipeline &* ; line */
  datatype Exec_ = Plain(redirs: seq<Redirect>, args: seq<Arg>) | Block(line: Line, redirs: seq<Redirect>)

  datatype Pipeline = One(first: Exec_) | More(first: Exec_, rest: Pipeline)

  datatype Line = Last(pipe: Pipeline, amps: nat) | Then(pipe: Pipeline, amps: nat, rest: Line)

  function Op(c: char): Tok {
    Tok(c, "")
  }

  function KindTok(k: Kind): Tok {
    match k
    case In => Op('<')
    case Out => Op('>')
    case Append => Op('+')
  }

  function RedirToks(rs: seq<Redirect>): seq<Tok> {
    if rs == [] then [] else [KindTok(rs[0].kind), Tok('a', rs[0].file)] + RedirToks(rs[1..])
  }

  function ArgToks(args: seq<Arg>): seq<Tok> {
    if args == [] then [] else [Tok('a', args[0].word)] + RedirToks(args[0].redirs) + ArgToks(args[1..])
  }

  function AmpToks(n: nat): seq<Tok> {
    seq(n, _ => Op('&'))
  }

  function ExecToks(e: Exec_): seq<Tok>
    decreases e
  {
    match e
    case Plain(rs, args) => RedirToks(rs) + ArgToks(args)
    case Block(l, rs) => [Op('(')] + LineToks(l) + [Op(')')] + RedirToks(rs)
  }

  function PipeToks(p: Pipeline): seq<Tok>
    decreases p
  {
    match p
    case One(e) => ExecToks(e)
    case More(e, q) => ExecToks(e) + [Op('|')] + PipeToks(q)
  }

  function LineToks(l: Line): seq<Tok>
    decreases l
  {
    match l
    case Last(p, n) => PipeToks(p) + AmpToks(n)
    case Then(p, n, m) => PipeToks(p) + AmpToks(n) + [Op(';')] + LineToks(m)
  }

  // ---- the meaning ----

  // Redirections apply from the left, the first one innermost.
  function Redirected(t: Tree, rs: seq<Redirect>): Tree {
    if rs == [] then t else To(Redirected(t, rs[..|rs| - 1]), rs[|rs| - 1].file, rs[|rs| - 1].kind)
  }

  function AllRedirs(args: seq<Arg>): seq<Redirect> {
    if args == [] then [] else args[0].redirs + AllRedirs(args[1..])
  }

  function WordsOf(args: seq<Arg>): (ws: seq<string>)
    ensures |ws| == |args|
  {
    seq(|args|, i requires 0 <= i < |args| => args[i].word)
  }

  function Behinds(t: Tree, n: nat): Tree {
    if n == 0 then t else Behind(Behinds(t, n - 1))
  }

  function ExecMeans(e: Exec_): Tree
    decreases e
  {
    match e
    case Plain(rs, args) => Redirected(Words(WordsOf(args)), rs + AllRedirs(args))
    case Block(l, rs) => Redirected(LineMeans(l), rs)
  }

  function PipeMeans(p: Pipeline): Tree
    decreases p
  {
    match p
    case One(e) => ExecMeans(e)
    case More(e, q) => Piped(ExecMeans(e), PipeMeans(q))
  }

  function LineMeans(l: Line): Tree
    decreases l
  {
    match l
    case Last(p, n) => Behinds(PipeMeans(p), n)
    case Then(p, n, m) => Listed(Behinds(PipeMeans(p), n), LineMeans(m))
  }

  // At most nine arguments to a command.
  predicate ExecOk(e: Exec_)
    decreases e
  {
    match e
    case Plain(_, args) => |args| <= 9
    case Block(l, _) => LineOk(l)
  }

  predicate PipeOk(p: Pipeline)
    decreases p
  {
    ExecOk(p.first) && (p.More? ==> PipeOk(p.rest))
  }

  predicate LineOk(l: Line)
    decreases l
  {
    PipeOk(l.pipe) && (l.Then? ==> LineOk(l.rest))
  }

  // ---- what the parser looks at ----

  lemma LexSkip(r: string)
    ensures Lex(Skip(r)) == Lex(r)
  {
  }

  // The character peek sees at the front of a token.
  function Front(t: Tok): char {
    if t.kind == '+' then '>' else t.kind
  }

  lemma PeekIs(r: string, toks: set<char>)
    requires forall c :: c in toks ==> Symbol(c)
    ensures Peek(r, toks) <==> Lex(r) != [] && Front(Lex(r)[0]) in toks
  {
  }

  // The first token, if there is one.
  lemma LexFirst(r: string)
    ensures Gettoken(r).kind == '\0' <==> Lex(r) == []
    ensures Lex(r) != [] ==> Lex(r)[0] == TokOf(Gettoken(r)) && Lex(Gettoken(r).next) == Lex(r)[1..]
    ensures Lex(r) != [] ==> |Gettoken(r).next| < |r|
  {
    hide Gettoken;
  }

  lemma TokenReads(s: string, r: string)
    requires Suffix(s, r)
    ensures Suffix(s, Gettoken(r).next)
    ensures var t := Gettoken(r); t.kind == 'a' ==> SpanReads(s, Span(|t.q|, |t.eq|), TokOf(t).text)
  {
    hide Skip, SkipWord;
    TokenSound(s, r);
    SkipSuffix(s, r);
  }

  // ---- redirections ----

  predicate FilesRead(s: string, files: seq<(Span, Kind)>, rs: seq<Redirect>) {
    |files| == |rs| && forall i :: 0 <= i < |rs| ==> SpanReads(s, files[i].0, rs[i].file) && files[i].1 == rs[i].kind
  }

  lemma {:induction false} WrapReads(s: string, c: Cmd, t: Tree, files: seq<(Span, Kind)>, rs: seq<Redirect>)
    requires Reads(s, c, t) && FilesRead(s, files, rs)
    ensures Reads(s, Wrap(c, files), Redirected(t, rs))
  {
    if rs != [] {
      var n := |rs| - 1;
      assert FilesRead(s, files[..n], rs[..n]);
      WrapReads(s, c, t, files[..n], rs[..n]);
      assert SpanReads(s, files[n].0, rs[n].file);
    }
  }

  lemma FilesJoin(s: string, f: seq<(Span, Kind)>, a: seq<Redirect>, g: seq<(Span, Kind)>, b: seq<Redirect>)
    requires FilesRead(s, f, a) && FilesRead(s, g, b)
    ensures FilesRead(s, f + g, a + b)
  {
  }

  // No redirection comes next.
  predicate NoRedir(ts: seq<Tok>) {
    ts != [] ==> Front(ts[0]) != '<' && Front(ts[0]) != '>'
  }

  lemma KindTokIs(k: Kind)
    ensures (Front(KindTok(k)) == '<' || Front(KindTok(k)) == '>') && KindOf(KindTok(k).kind) == k
  {
  }

  /** parseredirs reads the redirections in front, and nothing else. */
  lemma {:induction false} RedirsTake(s: string, r: string, rs: seq<Redirect>, rest: seq<Tok>)
    requires Suffix(s, r) && Lex(r) == RedirToks(rs) + rest && NoRedir(rest)
    ensures var o := Parseredirs(r);
            o.Some? && FilesRead(s, o.value.files, rs) && Lex(o.value.rest) == rest && Suffix(s, o.value.rest)
    decreases |rs|
  {
    hide Gettoken, Skip, Peek, Lex, SpanReads, Suffix;
    PeekIs(r, {'<', '>'});
    if rs == [] {
      assert Lex(r) == rest;
      LexSkip(r);
      SkipSuffix(s, r);
    } else {
      RedirsFront(rs, rest);
      KindTokIs(rs[0].kind);
      var tok := Gettoken(r);
      LexFirst(r);
      TokenReads(s, r);
      LexFirst(tok.next);
      TokenReads(s, tok.next);
      var name := Gettoken(tok.next);
      RedirsTake(s, name.next, rs[1..], rest);
    }
  }

  lemma RedirsFront(rs: seq<Redirect>, rest: seq<Tok>)
    requires rs != []
    ensures var ts := RedirToks(rs) + rest;
            |ts| >= 2 && ts[0] == KindTok(rs[0].kind) && ts[1] == Tok('a', rs[0].file)
            && ts[1..][1..] == RedirToks(rs[1..]) + rest
  {
    TwoFirst(KindTok(rs[0].kind), Tok('a', rs[0].file), RedirToks(rs[1..]), rest);
  }

  lemma TwoFirst(a: Tok, b: Tok, tail: seq<Tok>, rest: seq<Tok>)
    ensures ([a, b] + tail + rest)[1..][1..] == tail + rest
  {
    assert [a, b] + tail + rest == [a] + ([b] + (tail + rest));
  }

  // ---- arguments ----

  // What may follow a simple command.
  predicate Stops(ts: seq<Tok>) {
    ts == [] || ts[0].kind == '|' || ts[0].kind == ')' || ts[0].kind == '&' || ts[0].kind == ';'
  }

  predicate ArgsRead(s: string, args: seq<Span>, ws: seq<Arg>) {
    |args| == |ws| && forall i :: 0 <= i < |ws| ==> SpanReads(s, args[i], ws[i].word)
  }

  lemma ArgsFront(args: seq<Arg>, rest: seq<Tok>)
    requires args != []
    ensures var ts := ArgToks(args) + rest;
            ts != [] && ts[0] == Tok('a', args[0].word)
            && ts[1..] == RedirToks(args[0].redirs) + (ArgToks(args[1..]) + rest)
  {
    hide RedirToks;
    OneFirst(Tok('a', args[0].word), RedirToks(args[0].redirs), ArgToks(args[1..]), rest);
  }

  lemma OneFirst(a: Tok, b: seq<Tok>, c: seq<Tok>, rest: seq<Tok>)
    ensures ([a] + b + c + rest)[0] == a && ([a] + b + c + rest)[1..] == b + (c + rest)
  {
    assert [a] + b + c + rest == [a] + (b + (c + rest));
  }

  // After an argument comes another argument, or what follows the command.
  lemma ArgsNext(args: seq<Arg>, rest: seq<Tok>)
    requires Stops(rest)
    ensures NoRedir(ArgToks(args) + rest)
  {
    if args != [] { ArgsFront(args, rest); } else { assert ArgToks(args) + rest == rest; }
  }

  lemma ArgsReadMore(s: string, x: Span, xs: seq<Span>, args: seq<Arg>)
    requires args != [] && SpanReads(s, x, args[0].word) && ArgsRead(s, xs, args[1..])
    ensures ArgsRead(s, [x] + xs, args)
  {
    forall i | 0 <= i < |args| ensures SpanReads(s, ([x] + xs)[i], args[i].word) {
      if i > 0 { assert args[i] == args[1..][i - 1] && ([x] + xs)[i] == xs[i - 1]; }
    }
  }

  /** parseexec's loop reads the arguments and their redirections. */
  lemma {:induction false} ArgsTake(s: string, r: string, args: seq<Arg>, rest: seq<Tok>, argc: nat)
    requires Suffix(s, r) && Lex(r) == ArgToks(args) + rest && Stops(rest) && argc + |args| < MAXARGS
    ensures var o := Parseargs(r, argc);
            && o.Some? && ArgsRead(s, o.value.args, args) && FilesRead(s, o.value.files, AllRedirs(args))
            && Lex(o.value.rest) == rest && Suffix(s, o.value.rest)
    decreases |args|
  {
    hide Gettoken, Skip, Peek, Lex, SpanReads, Suffix, Parseredirs, FilesRead;
    PeekIs(r, {'|', ')', '&', ';'});
    LexFirst(r);
    if args == [] {
      assert Lex(r) == rest;
      NoFiles(s);
      LexSkip(r);
      SkipSuffix(s, r);
      TokenReads(s, r);
      if rest == [] { NothingLeft(r); }
    } else {
      ArgsFront(args, rest);
      ArgsNext(args[1..], rest);
      TokenReads(s, r);
      var tok := Gettoken(r);
      RedirsTake(s, tok.next, args[0].redirs, ArgToks(args[1..]) + rest);
      var rs := Parseredirs(tok.next).value;
      ArgsTake(s, rs.rest, args[1..], rest, argc + 1);
      var more := Parseargs(rs.rest, argc + 1).value;
      ArgsReadMore(s, Span(|tok.q|, |tok.eq|), more.args, args);
      FilesJoin(s, rs.files, args[0].redirs, more.files, AllRedirs(args[1..]));
    }
  }

  lemma NoFiles(s: string)
    ensures FilesRead(s, [], [])
  {
  }

  lemma NothingLeft(r: string)
    requires Lex(r) == []
    ensures Lex(Gettoken(r).next) == []
  {
  }

  // ---- commands, pipelines and lines ----

  // What the parser makes of a text: a command that means t, with ts left to read.
  predicate Gives(s: string, o: Option<Parsed>, t: Tree, ts: seq<Tok>) {
    o.Some? && Reads(s, o.value.cmd, t) && Lex(o.value.rest) == ts && Suffix(s, o.value.rest)
  }

  lemma WordsRead(s: string, xs: seq<Span>, args: seq<Arg>)
    requires ArgsRead(s, xs, args)
    ensures Reads(s, Exec(xs), Words(WordsOf(args)))
  {
    forall i | 0 <= i < |xs| ensures SpanReads(s, xs[i], WordsOf(args)[i]) { }
  }

  // A simple command does not begin with a parenthesis.
  lemma PlainFront(rs: seq<Redirect>, args: seq<Arg>, rest: seq<Tok>)
    requires Stops(rest)
    ensures var ts := RedirToks(rs) + (ArgToks(args) + rest); ts != [] ==> Front(ts[0]) != '('
  {
    if rs != [] { RedirsFront(rs, ArgToks(args) + rest); KindTokIs(rs[0].kind); }
    else if args != [] { ArgsFront(args, rest); assert RedirToks(rs) + (ArgToks(args) + rest) == ArgToks(args) + rest; }
    else { assert RedirToks(rs) + (ArgToks(args) + rest) == rest; }
  }

  lemma PlainIs(r: string, fs: Redirs, a: Args)
    requires !Peek(r, {'('}) && Parseredirs(r) == Some(fs) && Parseargs(fs.rest, 0) == Some(a)
    ensures Parseexec(r) == Some(Parsed(Wrap(Exec(a.args), fs.files + a.files), a.rest))
  {
    hide Peek, Parseredirs, Parseargs, Wrap, Parseblock;
  }

  lemma BlockIs(r: string, p: Parsed, rs: Redirs)
    requires Peek(r, {'('}) && Parseline(Gettoken(r).next) == Some(p) && Peek(p.rest, {')'})
    requires Parseredirs(Gettoken(p.rest).next) == Some(rs)
    ensures Parseexec(r) == Some(Parsed(Wrap(p.cmd, rs.files), rs.rest))
  {
    hide Peek, Parseredirs, Parseargs, Wrap, Parseline, Gettoken;
  }

  lemma PlainTakes(s: string, r: string, rs: seq<Redirect>, args: seq<Arg>, rest: seq<Tok>)
    requires Suffix(s, r) && Lex(r) == RedirToks(rs) + ArgToks(args) + rest && Stops(rest) && |args| < MAXARGS
    ensures Gives(s, Parseexec(r), ExecMeans(Plain(rs, args)), rest)
  {
    hide Gettoken, Skip, Peek, Lex, SpanReads, Suffix, Parseexec, Parseredirs, Parseargs;
    hide FilesRead, ArgsRead, Reads, Wrap, RedirToks, ArgToks, AllRedirs, Redirected, WordsOf, Stops, NoRedir;
    assert Lex(r) == RedirToks(rs) + (ArgToks(args) + rest);
    PlainFront(rs, args, rest);
    PeekIs(r, {'('});
    ArgsNext(args, rest);
    RedirsTake(s, r, rs, ArgToks(args) + rest);
    var fs := Parseredirs(r).value;
    ArgsTake(s, fs.rest, args, rest, 0);
    var a := Parseargs(fs.rest, 0).value;
    WordsRead(s, a.args, args);
    FilesJoin(s, fs.files, rs, a.files, AllRedirs(args));
    WrapReads(s, Exec(a.args), Words(WordsOf(args)), fs.files + a.files, rs + AllRedirs(args));
    PlainIs(r, fs, a);
  }

  predicate LineEnds(ts: seq<Tok>) {
    ts == [] || ts[0].kind == ')'
  }

  lemma BlockFront(l: seq<Tok>, rs: seq<Tok>, rest: seq<Tok>)
    ensures var ts := [Op('(')] + l + [Op(')')] + rs + rest;
            ts != [] && ts[0] == Op('(') && ts[1..] == l + ([Op(')')] + (rs + rest))
  {
    assert [Op('(')] + l + [Op(')')] + rs + rest == [Op('(')] + (l + ([Op(')')] + (rs + rest)));
  }

  /** parseexec reads an exec. */
  lemma {:induction false} ExecTakes(s: string, r: string, e: Exec_, rest: seq<Tok>)
    requires Suffix(s, r) && Lex(r) == ExecToks(e) + rest && Stops(rest) && ExecOk(e)
    ensures Gives(s, Parseexec(r), ExecMeans(e), rest)
    decreases e, 0
  {
    hide Parseexec, Lex, Reads;
    match e
    case Plain(rs, args) => PlainTakes(s, r, rs, args, rest);
    case Block(l, rs) => BlockTakes(s, r, l, rs, rest);
  }

  lemma {:induction false} BlockTakes(s: string, r: string, l: Line, rs: seq<Redirect>, rest: seq<Tok>)
    requires Suffix(s, r) && Lex(r) == ExecToks(Block(l, rs)) + rest && Stops(rest) && LineOk(l)
    ensures Gives(s, Parseexec(r), ExecMeans(Block(l, rs)), rest)
    decreases l, 3
  {
    hide Gettoken, Skip, Peek, Lex, SpanReads, Suffix, Parseexec, Parseline, Parseredirs;
    hide FilesRead, Reads, Wrap, LineToks, RedirToks, LineMeans, Redirected;
    BlockFront(LineToks(l), RedirToks(rs), rest);
    PeekIs(r, {'('});
    LexFirst(r);
    TokenReads(s, r);
    var inside := Gettoken(r).next;
    LineTakes(s, inside, l, [Op(')')] + (RedirToks(rs) + rest));
    var p := Parseline(inside).value;
    PeekIs(p.rest, {')'});
    LexFirst(p.rest);
    TokenReads(s, p.rest);
    var after := Gettoken(p.rest).next;
    RedirsTake(s, after, rs, rest);
    WrapReads(s, p.cmd, LineMeans(l), Parseredirs(after).value.files, rs);
    BlockIs(r, p, Parseredirs(after).value);
  }

  predicate PipeEnds(ts: seq<Tok>) {
    Stops(ts) && (ts != [] ==> ts[0].kind != '|')
  }

  /** parsepipe reads a pipeline, and stops at the first thing that is not part of it. */
  lemma {:induction false} PipeTakes(s: string, r: string, p: Pipeline, rest: seq<Tok>)
    requires Suffix(s, r) && Lex(r) == PipeToks(p) + rest && PipeEnds(rest) && PipeOk(p)
    ensures Gives(s, Parsepipe(r), PipeMeans(p), rest)
    decreases p, 1
  {
    hide Gettoken, Skip, Peek, Lex, SpanReads, Suffix, Parseexec, Parseredirs;
    match p
    case One(e) =>
      ExecTakes(s, r, e, rest);
      var x := Parseexec(r).value;
      PeekIs(x.rest, {'|'});
      LexSkip(x.rest);
      SkipSuffix(s, x.rest);
    case More(e, q) =>
      assert ExecToks(e) + [Op('|')] + PipeToks(q) + rest == ExecToks(e) + ([Op('|')] + (PipeToks(q) + rest));
      ExecTakes(s, r, e, [Op('|')] + (PipeToks(q) + rest));
      var x := Parseexec(r).value;
      PeekIs(x.rest, {'|'});
      LexFirst(x.rest);
      TokenReads(s, x.rest);
      PeekIsToken(x.rest, {'|'});
      PipeTakes(s, Gettoken(x.rest).next, q, rest);
  }

  lemma {:induction false} BehindsOne(t: Tree, n: nat)
    ensures Behinds(Behind(t), n) == Behinds(t, n + 1)
  {
    if n > 0 { BehindsOne(t, n - 1); }
  }

  predicate BacksEnd(ts: seq<Tok>) {
    ts == [] || ts[0].kind == ')' || ts[0].kind == ';'
  }

  // parseline's loop over &.
  lemma {:induction false} BacksTake(s: string, c: Cmd, r: string, t: Tree, n: nat, rest: seq<Tok>)
    requires Suffix(s, r) && Reads(s, c, t) && Lex(r) == AmpToks(n) + rest && BacksEnd(rest)
    ensures Gives(s, Some(Backs(c, r)), Behinds(t, n), rest)
    decreases n
  {
    hide Gettoken, Skip, Peek, Lex, SpanReads, Suffix;
    PeekIs(r, {'&'});
    if n == 0 {
      assert Lex(r) == rest;
      LexSkip(r);
      SkipSuffix(s, r);
    } else {
      assert AmpToks(n) + rest == [Op('&')] + (AmpToks(n - 1) + rest);
      LexFirst(r);
      TokenReads(s, r);
      PeekIsToken(r, {'&'});
      BacksTake(s, Back(c), Gettoken(r).next, Behind(t), n - 1, rest);
      BehindsOne(t, n - 1);
    }
  }

  lemma AmpsStop(n: nat, rest: seq<Tok>)
    requires BacksEnd(rest)
    ensures PipeEnds(AmpToks(n) + rest)
  {
    if n == 0 { assert AmpToks(n) + rest == rest; }
  }

  /** parseline reads a line. */
  lemma {:induction false} LineTakes(s: string, r: string, l: Line, rest: seq<Tok>)
    requires Suffix(s, r) && Lex(r) == LineToks(l) + rest && LineEnds(rest) && LineOk(l)
    ensures Gives(s, Parseline(r), LineMeans(l), rest)
    decreases l, 2
  {
    hide Gettoken, Skip, Peek, Lex, SpanReads, Suffix, Parsepipe, Parseredirs, Behinds, AmpToks;
    var tail := match l case Last(_, _) => rest case Then(_, _, m) => [Op(';')] + (LineToks(m) + rest);
    LineFront(l, rest);
    AmpsStop(l.amps, tail);
    PipeTakes(s, r, l.pipe, AmpToks(l.amps) + tail);
    var p := Parsepipe(r).value;
    BacksTake(s, p.cmd, p.rest, PipeMeans(l.pipe), l.amps, tail);
    var b := Backs(p.cmd, p.rest);
    PeekIs(b.rest, {';'});
    if l.Last? {
      LexSkip(b.rest);
      SkipSuffix(s, b.rest);
    } else {
      LexFirst(b.rest);
      TokenReads(s, b.rest);
      PeekIsToken(b.rest, {';'});
      LineTakes(s, Gettoken(b.rest).next, l.rest, rest);
    }
  }

  lemma LineFront(l: Line, rest: seq<Tok>)
    ensures var tail := match l case Last(_, _) => rest case Then(_, _, m) => [Op(';')] + (LineToks(m) + rest);
            LineToks(l) + rest == PipeToks(l.pipe) + (AmpToks(l.amps) + tail)
  {
    hide AmpToks;
    match l
    case Last(p, n) => assert PipeToks(p) + AmpToks(n) + rest == PipeToks(p) + (AmpToks(n) + rest);
    case Then(p, n, m) =>
      assert PipeToks(p) + AmpToks(n) + [Op(';')] + LineToks(m) + rest
          == PipeToks(p) + (AmpToks(n) + ([Op(';')] + (LineToks(m) + rest)));
  }

  /** Every text whose tokens are a line of the grammar is taken, whatever its spacing, and gives the
      command the grammar says. */
  lemma Takes(s: string, l: Line)
    requires Lex(s) == LineToks(l) && LineOk(l)
    ensures Parsecmd(s).Some? && Reads(s, Parsecmd(s).value, LineMeans(l))
  {
    hide Gettoken, Lex, SpanReads, Parseline;
    assert LineToks(l) == LineToks(l) + [];
    LineTakes(s, s, l, []);
    SkipIsEmpty(Parseline(s).value.rest);
  }

  lemma SkipIsEmpty(r: string)
    ensures Lex(r) == [] <==> Skip(r) == []
  {
  }
}
