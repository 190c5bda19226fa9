/** The parser accepts exactly the lines of the grammar, and the text of a command with parentheses
    only where the grammar needs them is read back as that command. */
module ShellExact {
  import opened Shell
  import opened ShellPrint
  import opened ShellGrammar

  // ---- what is accepted is a line of the grammar ----

  lemma KindOfTok(t: Token)
    requires t.kind == '<' || t.kind == '>' || t.kind == '+'
    ensures KindTok(KindOf(t.kind)) == Op(t.kind)
  {
  }

  lemma RedirsMore(x: Redirect, rs: seq<Redirect>, rest: seq<Tok>)
    ensures RedirToks([x] + rs) + rest == [KindTok(x.kind), Tok('a', x.file)] + (RedirToks(rs) + rest)
  {
    assert ([x] + rs)[1..] == rs;
  }

  lemma {:induction false} RedirsAre(r: string) returns (rs: seq<Redirect>)
    requires Parseredirs(r).Some?
    ensures Lex(r) == RedirToks(rs) + Lex(Parseredirs(r).value.rest)
    decreases |r|
  {
    hide Gettoken, Skip, Peek, Lex, RedirToks, KindTok, KindOf;
    PeekIs(r, {'<', '>'});
    if !Peek(r, {'<', '>'}) {
      rs := [];
      LexSkip(r);
      NoToks();
    } else {
      var tok := Gettoken(r);
      var name := Gettoken(tok.next);
      LexFirst(r);
      LexFirst(tok.next);
      FrontKind(Lex(r)[0]);
      KindOfTok(tok);
      var more := RedirsAre(name.next);
      var x := Redirect(KindOf(tok.kind), TokOf(name).text);
      rs := [x] + more;
      RedirsMore(x, more, Lex(Parseredirs(r).value.rest));
      TwoThen(Lex(r));
    }
  }

  lemma NoToks()
    ensures RedirToks([]) == [] && ArgToks([]) == []
  {
  }

  lemma FrontKind(t: Tok)
    requires Front(t) == '<' || Front(t) == '>'
    ensures t.kind == '<' || t.kind == '>' || t.kind == '+'
  {
  }

  lemma TwoThen(ts: seq<Tok>)
    requires |ts| >= 2
    ensures ts == [ts[0], ts[1]] + ts[1..][1..]
  {
  }

  lemma ArgsMore(x: Arg, args: seq<Arg>, rest: seq<Tok>)
    ensures ArgToks([x] + args) + rest == [Tok('a', x.word)] + (RedirToks(x.redirs) + (ArgToks(args) + rest))
  {
    assert ([x] + args)[1..] == args;
    var a, b, c := [Tok('a', x.word)], RedirToks(x.redirs), ArgToks(args);
    assert a + b + c + rest == a + (b + (c + rest));
  }

  lemma {:induction false} ArgsAre(r: string, argc: nat) returns (args: seq<Arg>)
    requires Parseargs(r, argc).Some? && argc < MAXARGS
    ensures Lex(r) == ArgToks(args) + Lex(Parseargs(r, argc).value.rest) && argc + |args| < MAXARGS
    decreases |r|
  {
    hide Gettoken, Skip, Peek, Lex, RedirToks, ArgToks, Parseredirs;
    PeekIs(r, {'|', ')', '&', ';'});
    LexFirst(r);
    NoToks();
    if Peek(r, {'|', ')', '&', ';'}) {
      args := [];
      LexSkip(r);
    } else if Gettoken(r).kind == '\0' {
      args := [];
      NothingLeft(r);
    } else {
      var tok := Gettoken(r);
      var rs := RedirsAre(tok.next);
      var more := ArgsAre(Parseredirs(tok.next).value.rest, argc + 1);
      var x := Arg(TokOf(tok).text, rs);
      args := [x] + more;
      ArgsMore(x, more, Lex(Parseargs(r, argc).value.rest));
      assert Lex(r) == [Lex(r)[0]] + Lex(r)[1..];
    }
  }

  lemma {:induction false} ExecAre(r: string) returns (e: Exec_)
    requires Parseexec(r).Some?
    ensures Lex(r) == ExecToks(e) + Lex(Parseexec(r).value.rest) && ExecOk(e)
    decreases |r|, 1
  {
    hide Gettoken, Skip, Peek, Lex, RedirToks, ArgToks, Parseredirs, Parseargs, Parseblock, Wrap;
    if Peek(r, {'('}) {
      e := BlockAre(r);
    } else {
      var rs := RedirsAre(r);
      var args := ArgsAre(Parseredirs(r).value.rest, 0);
      e := Plain(rs, args);
      assert RedirToks(rs) + ArgToks(args) + Lex(Parseexec(r).value.rest)
          == RedirToks(rs) + (ArgToks(args) + Lex(Parseexec(r).value.rest));
    }
  }

  lemma {:induction false} BlockAre(r: string) returns (e: Exec_)
    requires Peek(r, {'('}) && Parseblock(r).Some?
    ensures Lex(r) == ExecToks(e) + Lex(Parseblock(r).value.rest) && ExecOk(e)
    decreases |r|, 0
  {
    hide Gettoken, Skip, Peek, Lex, RedirToks, LineToks, Parseredirs, Parseline, Wrap;
    PeekIsToken(r, {'('});
    PeekIs(r, {'('});
    LexFirst(r);
    var inside := Gettoken(r).next;
    var l := LineAre(inside);
    var p := Parseline(inside).value;
    PeekIs(p.rest, {')'});
    LexFirst(p.rest);
    var rs := RedirsAre(Gettoken(p.rest).next);
    e := Block(l, rs);
    BlockFront(LineToks(l), RedirToks(rs), Lex(Parseblock(r).value.rest));
    OpIs(Gettoken(r), '(');
    OpIs(Gettoken(p.rest), ')');
    assert Lex(r) == [Lex(r)[0]] + Lex(r)[1..];
    assert Lex(p.rest) == [Lex(p.rest)[0]] + Lex(p.rest)[1..];
  }

  lemma OpIs(t: Token, c: char)
    requires |t.eq| <= |t.q| && Front(TokOf(t)) == c && c != '>' && c != 'a'
    ensures TokOf(t) == Op(c)
  {
  }

  lemma {:induction false} PipeAre(r: string) returns (p: Pipeline)
    requires Parsepipe(r).Some?
    ensures Lex(r) == PipeToks(p) + Lex(Parsepipe(r).value.rest) && PipeOk(p)
    decreases |r|, 2
  {
    hide Gettoken, Skip, Peek, Lex, ExecToks, Parseexec;
    var e := ExecAre(r);
    var x := Parseexec(r).value;
    PeekIs(x.rest, {'|'});
    if !Peek(x.rest, {'|'}) {
      p := One(e);
      LexSkip(x.rest);
    } else {
      PeekIsToken(x.rest, {'|'});
      LexFirst(x.rest);
      OpIs(Gettoken(x.rest), '|');
      var q := PipeAre(Gettoken(x.rest).next);
      p := More(e, q);
      var rest := Lex(Parsepipe(r).value.rest);
      assert Lex(x.rest) == [Lex(x.rest)[0]] + Lex(x.rest)[1..];
      assert ExecToks(e) + [Op('|')] + PipeToks(q) + rest == ExecToks(e) + ([Op('|')] + (PipeToks(q) + rest));
    }
  }

  lemma {:induction false} BacksAre(c: Cmd, r: string) returns (n: nat)
    ensures Lex(r) == AmpToks(n) + Lex(Backs(c, r).rest)
    decreases |r|
  {
    hide Gettoken, Skip, Peek, Lex;
    PeekIs(r, {'&'});
    if !Peek(r, {'&'}) {
      n := 0;
      LexSkip(r);
    } else {
      PeekIsToken(r, {'&'});
      LexFirst(r);
      OpIs(Gettoken(r), '&');
      var m := BacksAre(Back(c), Gettoken(r).next);
      n := m + 1;
      assert Lex(r) == [Lex(r)[0]] + Lex(r)[1..];
      assert AmpToks(m + 1) == [Op('&')] + AmpToks(m);
    }
  }

  lemma {:induction false} LineAre(r: string) returns (l: Line)
    requires Parseline(r).Some?
    ensures Lex(r) == LineToks(l) + Lex(Parseline(r).value.rest) && LineOk(l)
    decreases |r|, 3
  {
    hide Gettoken, Skip, Peek, Lex, PipeToks, AmpToks, Parsepipe, Backs;
    var p := PipeAre(r);
    var x := Parsepipe(r).value;
    var n := BacksAre(x.cmd, x.rest);
    var b := Backs(x.cmd, x.rest);
    var rest := Lex(Parseline(r).value.rest);
    PeekIs(b.rest, {';'});
    if !Peek(b.rest, {';'}) {
      l := Last(p, n);
      LexSkip(b.rest);
    } else {
      PeekIsToken(b.rest, {';'});
      LexFirst(b.rest);
      OpIs(Gettoken(b.rest), ';');
      var m := LineAre(Gettoken(b.rest).next);
      l := Then(p, n, m);
      assert Lex(b.rest) == [Lex(b.rest)[0]] + Lex(b.rest)[1..];
    }
    LineFront(l, rest);
  }

  /** The language, exactly: a text is accepted if and only if its tokens are a line of the grammar,
      with at most nine arguments to a command. */
  lemma AcceptsExactly(s: string)
    ensures Parsecmd(s).Some? <==> exists l :: LineOk(l) && Lex(s) == LineToks(l)
  {
    hide Gettoken, Skip, Peek, Lex, LineToks, LineOk, Parseline;
    if Parsecmd(s).Some? {
      var l := LineAre(s);
      SkipIsEmpty(Parseline(s).value.rest);
      assert LineToks(l) + [] == LineToks(l);
    }
    if l :| LineOk(l) && Lex(s) == LineToks(l) { Takes(s, l); }
  }

  // ---- commands without needless parentheses ----

  function AddRedir(e: Exec_, x: Redirect): Exec_ {
    match e
    case Plain(rs, args) =>
      if args == [] then Plain(rs + [x], []) else
      var n := |args| - 1;
      Plain(rs, args[..n] + [Arg(args[n].word, args[n].redirs + [x])])
    case Block(l, rs) => Block(l, rs + [x])
  }

  // & and what it follows.
  function Amps(t: Tree): nat {
    if t.Behind? then Amps(t.tree) + 1 else 0
  }

  function Unbehind(t: Tree): (u: Tree)
    ensures !u.Behind? && (t.Behind? ==> u < t) && (!t.Behind? ==> u == t)
  {
    if t.Behind? then Unbehind(t.tree) else t
  }

  // A simple command with its redirections is one; anything else needs parentheses.
  function PlainExec(t: Tree): Exec_
    decreases t, if t.Words? || t.To? then 0 else 3
  {
    match t
    case Words(ws) => Plain([], seq(|ws|, i requires 0 <= i < |ws| => Arg(ws[i], [])))
    case To(a, f, k) => AddRedir(PlainExec(a), Redirect(k, f))
    case _ => Block(PlainLine(t), [])
  }

  // A pipe is one if it nests to the right.
  function PlainPipe(t: Tree): Pipeline
    decreases t, if t.Words? || t.To? || t.Piped? then 1 else 4
  {
    match t
    case Piped(a, b) => More(PlainExec(a), PlainPipe(b))
    case _ => One(PlainExec(t))
  }

  // & applies to a pipe, and ; comes last.
  function PlainLine(t: Tree): Line
    decreases t, 2
  {
    match t
    case Listed(a, b) => Then(PlainPipe(Unbehind(a)), Amps(a), PlainLine(b))
    case Behind(a) => Last(PlainPipe(Unbehind(a)), Amps(t))
    case _ => Last(PlainPipe(t), 0)
  }

  lemma {:induction false} BehindsOf(t: Tree)
    ensures Behinds(Unbehind(t), Amps(t)) == t
  {
    if t.Behind? { BehindsOf(t.tree); }
  }

  lemma {:induction false} AllRedirsMore(args: seq<Arg>, x: Redirect)
    requires args != []
    ensures var n := |args| - 1;
            AllRedirs(args[..n] + [Arg(args[n].word, args[n].redirs + [x])]) == AllRedirs(args) + [x]
  {
    var n := |args| - 1;
    var more := args[..n] + [Arg(args[n].word, args[n].redirs + [x])];
    if n == 0 {
      assert AllRedirs(args[1..]) == AllRedirs(more[1..]) == [];
      assert args[0].redirs + [] == args[0].redirs && args[0].redirs + [x] + [] == args[0].redirs + [x];
    } else {
      AllRedirsMore(args[1..], x);
      assert more[1..] == args[1..][..n - 1] + [Arg(args[n].word, args[n].redirs + [x])];
      assert more[0] == args[0];
      assert args[0].redirs + (AllRedirs(args[1..]) + [x]) == args[0].redirs + AllRedirs(args[1..]) + [x];
    }
  }

  lemma RedirectedMore(t: Tree, rs: seq<Redirect>, x: Redirect)
    ensures Redirected(t, rs + [x]) == To(Redirected(t, rs), x.file, x.kind)
  {
    assert (rs + [x])[..|rs|] == rs;
  }

  lemma AddRedirMeans(e: Exec_, x: Redirect)
    ensures ExecMeans(AddRedir(e, x)) == To(ExecMeans(e), x.file, x.kind)
    ensures ExecOk(e) ==> ExecOk(AddRedir(e, x))
  {
    hide Redirected, AllRedirs, LineMeans;
    match e
    case Block(l, rs) => RedirectedMore(LineMeans(l), rs, x);
    case Plain(rs, args) =>
      RedirectedMore(Words(WordsOf(args)), rs + AllRedirs(args), x);
      if args == [] {
        NoRedirs();
        assert rs + [x] + [] == rs + [] + [x];
        assert WordsOf([]) == [];
      } else {
        var n := |args| - 1;
        var more := args[..n] + [Arg(args[n].word, args[n].redirs + [x])];
        AllRedirsMore(args, x);
        assert WordsOf(more) == WordsOf(args);
        assert rs + (AllRedirs(args) + [x]) == rs + AllRedirs(args) + [x];
      }
  }

  lemma NoRedirs()
    ensures AllRedirs([]) == []
  {
  }

  lemma {:induction false} WordsHaveNone(args: seq<Arg>)
    requires forall i :: 0 <= i < |args| ==> args[i].redirs == []
    ensures AllRedirs(args) == []
  {
    if args != [] { WordsHaveNone(args[1..]); }
  }

  lemma {:induction false} ExecOfMeans(t: Tree)
    requires Good(t)
    ensures ExecMeans(PlainExec(t)) == t && ExecOk(PlainExec(t))
    decreases t, if t.Words? || t.To? then 0 else 3
  {
    match t
    case Words(ws) =>
      var args := seq(|ws|, i requires 0 <= i < |ws| => Arg(ws[i], []));
      assert PlainExec(t) == Plain([], args);
      WordsHaveNone(args);
      assert WordsOf(args) == ws;
    case To(a, f, k) =>
      ExecOfMeans(a);
      AddRedirMeans(PlainExec(a), Redirect(k, f));
    case _ => LineOfMeans(t);
  }

  lemma {:induction false} PipeOfMeans(t: Tree)
    requires Good(t)
    ensures PipeMeans(PlainPipe(t)) == t && PipeOk(PlainPipe(t))
    decreases t, if t.Words? || t.To? || t.Piped? then 1 else 4
  {
    match t
    case Piped(a, b) =>
      ExecOfMeans(a);
      PipeOfMeans(b);
    case _ => ExecOfMeans(t);
  }

  lemma {:induction false} GoodUnder(t: Tree)
    requires Good(t)
    ensures Good(Unbehind(t))
  {
    if t.Behind? { GoodUnder(t.tree); }
  }

  /** Written with parentheses only where the grammar needs them, a command means itself. */
  lemma {:induction false} LineOfMeans(t: Tree)
    requires Good(t)
    ensures LineMeans(PlainLine(t)) == t && LineOk(PlainLine(t))
    decreases t, 2
  {
    match t
    case Listed(a, b) =>
      GoodUnder(a);
      PipeOfMeans(Unbehind(a));
      BehindsOf(a);
      LineOfMeans(b);
    case Behind(a) =>
      GoodUnder(a);
      PipeOfMeans(Unbehind(a));
      BehindsOf(t);
    case _ => PipeOfMeans(t);
  }

  /** The round trip without needless parentheses, for every spacing: a text with the tokens of a
      command so written is read as that command.  So | binds tighter than &, and & than ;, and | and ;
      nest to the right. */
  lemma PlainRoundTrip(s: string, t: Tree)
    requires Good(t) && Lex(s) == LineToks(PlainLine(t))
    ensures Parsecmd(s).Some? && Reads(s, Parsecmd(s).value, t)
  {
    hide Lex, LineToks, PlainLine, Parsecmd, Reads;
    LineOfMeans(t);
    Takes(s, PlainLine(t));
  }

  lemma OneWord(w: string)
    requires Word(w)
    ensures Good(Words([w])) && ExecToks(PlainExec(Words([w]))) == [Tok('a', w)]
  {
    var e := PlainExec(Words([w]));
    assert e == Plain([], [Arg(w, [])]);
    assert [Arg(w, [])][1..] == [];
    assert ArgToks([Arg(w, [])]) == [Tok('a', w)] + [] + [];
  }

  // The tokens of lines without &.
  lemma LineToksAre(e: Exec_, p: Pipeline, l: Line)
    ensures PipeToks(One(e)) == ExecToks(e) && PipeToks(More(e, p)) == ExecToks(e) + [Op('|')] + PipeToks(p)
    ensures LineToks(Last(p, 0)) == PipeToks(p) && LineToks(Then(p, 0, l)) == PipeToks(p) + [Op(';')] + LineToks(l)
  {
    assert PipeToks(p) + AmpToks(0) == PipeToks(p);
  }

  // A simple command is a line of one exec.
  lemma Simple(t: Tree)
    requires t.Words?
    ensures PlainPipe(t) == One(PlainExec(t)) && PlainLine(t) == Last(One(PlainExec(t)), 0)
    ensures Unbehind(t) == t && Amps(t) == 0
  {
  }

  lemma OfPipe(t: Tree, u: Tree)
    requires t.Words?
    ensures PlainPipe(Piped(t, u)) == More(PlainExec(t), PlainPipe(u))
    ensures PlainLine(Piped(t, u)) == Last(PlainPipe(Piped(t, u)), 0)
    ensures Unbehind(Piped(t, u)) == Piped(t, u) && Amps(Piped(t, u)) == 0
  {
  }

  lemma OfList(t: Tree, u: Tree)
    ensures PlainLine(Listed(t, u)) == Then(PlainPipe(Unbehind(t)), Amps(t), PlainLine(u))
  {
  }

  /** Three words a, b and c with | and ; between them, in the four ways that tell precedence and
      nesting apart. */
  lemma Precedence(s: string, a: string, x: char, b: string, y: char, c: string)
    requires Word(a) && Word(b) && Word(c) && (x == '|' || x == ';') && (y == '|' || y == ';')
    requires Lex(s) == [Tok('a', a), Op(x), Tok('a', b), Op(y), Tok('a', c)]
    ensures var u, v, w := Words([a]), Words([b]), Words([c]);
            Parsecmd(s).Some? && Reads(s, Parsecmd(s).value,
                                       if x == '|' && y == '|' then Piped(u, Piped(v, w))
                                       else if x == '|' then Listed(Piped(u, v), w)
                                       else if y == '|' then Listed(u, Piped(v, w))
                                       else Listed(u, Listed(v, w)))
  {
    hide Lex, Parsecmd, Reads, ExecToks, PipeToks, LineToks, PlainExec, PlainPipe, PlainLine, Amps, Word;
    var u, v, w := Words([a]), Words([b]), Words([c]);
    OneWord(a);
    OneWord(b);
    OneWord(c);
    Simple(u);
    Simple(v);
    Simple(w);
    OfPipe(v, w);
    var eu, ev, ew := PlainExec(u), PlainExec(v), PlainExec(w);
    LineToksAre(ew, One(ew), Last(One(ew), 0));
    LineToksAre(ev, One(ew), Last(More(ev, One(ew)), 0));
    LineToksAre(ev, One(ev), Last(One(ew), 0));
    LineToksAre(eu, More(ev, One(ew)), Last(More(ev, One(ew)), 0));
    LineToksAre(eu, One(eu), Last(More(ev, One(ew)), 0));
    LineToksAre(eu, One(eu), Then(One(ev), 0, Last(One(ew), 0)));
    LineToksAre(eu, One(ev), Last(One(ew), 0));
    LineToksAre(eu, More(eu, One(ev)), Last(One(ew), 0));
    if x == '|' && y == '|' {
      OfPipe(u, Piped(v, w));
      LineToksAre(eu, More(eu, More(ev, One(ew))), Last(One(ew), 0));
      PlainRoundTrip(s, Piped(u, Piped(v, w)));
    } else if x == '|' {
      OfPipe(u, v);
      OfList(Piped(u, v), w);
      PlainRoundTrip(s, Listed(Piped(u, v), w));
    } else if y == '|' {
      OfList(u, Piped(v, w));
      PlainRoundTrip(s, Listed(u, Piped(v, w)));
    } else {
      OfList(v, w);
      OfList(u, Listed(v, w));
      PlainRoundTrip(s, Listed(u, Listed(v, w)));
    }
  }

  // ---- such a text ----

  function SpellTok(t: Tok): string {
    (if t.kind == 'a' then t.text else if t.kind == '+' then ">>" else [t.kind]) + " "
  }

  function Spell(ts: seq<Tok>): string {
    if ts == [] then "" else SpellTok(ts[0]) + Spell(ts[1..])
  }

  predicate Proper(t: Tok) {
    if t.kind == 'a' then Word(t.text) else t.text == "" && (t.kind == '+' || Symbol(t.kind))
  }

  predicate AllProper(ts: seq<Tok>) {
    forall i :: 0 <= i < |ts| ==> Proper(ts[i])
  }

  lemma SpaceAfter(k: string)
    ensures Skip(" " + k) == Skip(k) && Lex(" " + k) == Lex(k)
  {
    assert (" " + k)[1..] == k;
    LexSkip(k);
    LexSkip(" " + k);
  }

  lemma SpellWord(w: string, k: string)
    requires Word(w)
    ensures Lex(w + (" " + k)) == [Tok('a', w)] + Lex(k)
  {
    hide Lex, Word;
    var r := w + (" " + k);
    AfterWord(w, " " + k);
    assert r[..|w|] == w;
    LexNext(r, " " + k);
    SpaceAfter(k);
  }

  lemma SpellAppend(k: string)
    ensures Lex(">>" + (" " + k)) == [Op('+')] + Lex(k)
  {
    hide Lex;
    var r := ">>" + (" " + k);
    assert r[2..] == " " + k;
    LexNext(r, " " + k);
    SpaceAfter(k);
  }

  lemma SpellOp(c: char, k: string)
    requires Symbol(c)
    ensures Lex([c] + (" " + k)) == [Op(c)] + Lex(k)
  {
    hide Lex;
    var r := [c] + (" " + k);
    assert r[1..] == " " + k;
    assert r[1] == ' ';
    LexNext(r, " " + k);
    SpaceAfter(k);
  }

  lemma SpellOne(t: Tok, k: string)
    requires Proper(t)
    ensures Lex(SpellTok(t) + k) == [t] + Lex(k)
  {
    hide Lex, Word;
    var r := SpellTok(t) + k;
    if t.kind == 'a' {
      assert r == t.text + (" " + k);
      SpellWord(t.text, k);
    } else if t.kind == '+' {
      assert r == ">>" + (" " + k);
      SpellAppend(k);
    } else {
      assert r == [t.kind] + (" " + k);
      SpellOp(t.kind, k);
    }
  }

  lemma LexNext(r: string, k: string)
    requires Gettoken(r).kind != '\0' && Gettoken(r).next == Skip(k)
    ensures Lex(r) == [TokOf(Gettoken(r))] + Lex(k)
  {
    LexSkip(k);
  }

  lemma {:induction false} SpellLexes(ts: seq<Tok>)
    requires AllProper(ts)
    ensures Lex(Spell(ts)) == ts
  {
    hide SpellTok, Proper, Gettoken;
    if ts == [] {
      EmptyLexes();
    } else {
      SpellLexes(ts[1..]);
      SpellOne(ts[0], Spell(ts[1..]));
      assert ts == [ts[0]] + ts[1..];
    }
  }

  lemma EmptyLexes()
    ensures Lex("") == []
  {
  }

  lemma {:induction false} RedirToksMore(rs: seq<Redirect>, x: Redirect)
    ensures RedirToks(rs + [x]) == RedirToks(rs) + [KindTok(x.kind), Tok('a', x.file)]
  {
    if rs == [] {
      assert RedirToks([x][1..]) == [];
    } else {
      RedirToksMore(rs[1..], x);
      assert (rs + [x])[1..] == rs[1..] + [x];
    }
  }

  lemma {:induction false} ArgToksMore(args: seq<Arg>, x: Redirect)
    requires args != []
    ensures var n := |args| - 1;
            ArgToks(args[..n] + [Arg(args[n].word, args[n].redirs + [x])])
            == ArgToks(args) + [KindTok(x.kind), Tok('a', x.file)]
  {
    hide RedirToks, KindTok;
    var n := |args| - 1;
    var more := args[..n] + [Arg(args[n].word, args[n].redirs + [x])];
    if n == 0 {
      RedirToksMore(args[0].redirs, x);
      assert args[1..] == more[1..] == [];
    } else {
      ArgToksMore(args[1..], x);
      assert more[1..] == args[1..][..n - 1] + [Arg(args[n].word, args[n].redirs + [x])];
    }
  }

  // A redirection more adds its tokens at the end.
  lemma AddRedirToks(e: Exec_, x: Redirect)
    ensures ExecToks(AddRedir(e, x)) == ExecToks(e) + [KindTok(x.kind), Tok('a', x.file)]
  {
    hide RedirToks, KindTok, LineToks;
    match e
    case Block(l, rs) => RedirToksMore(rs, x);
    case Plain(rs, args) =>
      RedirToksMore(rs, x);
      if args == [] { NoToks(); } else { ArgToksMore(args, x); }
  }

  lemma {:induction false} WordToks(args: seq<Arg>)
    requires forall i :: 0 <= i < |args| ==> Word(args[i].word) && args[i].redirs == []
    ensures AllProper(ArgToks(args))
  {
    if args != [] { WordToks(args[1..]); }
  }

  lemma {:induction false} ExecProper(t: Tree)
    requires Good(t)
    ensures AllProper(ExecToks(PlainExec(t)))
    decreases t, if t.Words? || t.To? then 0 else 3
  {
    hide ExecToks, LineToks;
    match t
    case Words(ws) => WordsProper(ws);
    case To(a, f, k) =>
      ExecProper(a);
      AddRedirToks(PlainExec(a), Redirect(k, f));
      KindProper(k);
    case _ =>
      LineProper(t);
      ParensProper(PlainLine(t));
  }

  lemma WordsProper(ws: seq<string>)
    requires Good(Words(ws))
    ensures AllProper(ExecToks(PlainExec(Words(ws))))
  {
    var args := seq(|ws|, i requires 0 <= i < |ws| => Arg(ws[i], []));
    assert PlainExec(Words(ws)) == Plain([], args);
    WordToks(args);
  }

  lemma KindProper(k: Kind)
    ensures Proper(KindTok(k))
  {
  }

  lemma ParensProper(l: Line)
    requires AllProper(LineToks(l))
    ensures AllProper(ExecToks(Block(l, [])))
  {
    hide LineToks;
    NoToks();
  }

  lemma {:induction false} PipeProper(t: Tree)
    requires Good(t)
    ensures AllProper(PipeToks(PlainPipe(t)))
    decreases t, if t.Words? || t.To? || t.Piped? then 1 else 4
  {
    match t
    case Piped(a, b) =>
      ExecProper(a);
      PipeProper(b);
    case _ => ExecProper(t);
  }

  lemma {:induction false} LineProper(t: Tree)
    requires Good(t)
    ensures AllProper(LineToks(PlainLine(t)))
    decreases t, 2
  {
    match t
    case Listed(a, b) =>
      GoodUnder(a);
      PipeProper(Unbehind(a));
      LineProper(b);
    case Behind(a) =>
      GoodUnder(a);
      PipeProper(Unbehind(a));
    case _ => PipeProper(t);
  }

  /** Every command can be written so, and is read back. */
  lemma PlainTextRoundTrip(t: Tree)
    requires Good(t)
    ensures var s := Spell(LineToks(PlainLine(t))); Parsecmd(s).Some? && Reads(s, Parsecmd(s).value, t)
  {
    hide Lex, LineToks, PlainLine, Parsecmd, Reads, Spell;
    LineProper(t);
    SpellLexes(LineToks(PlainLine(t)));
    PlainRoundTrip(Spell(LineToks(PlainLine(t))), t);
  }

  // ---- characters ----

  /** The characters between words, the characters with a meaning of their own, and all others. */
  lemma Characters(c: char, k: string)
    ensures c in {' ', '\t', '\r', '\n', '\U{0B}'} ==> Lex([c] + k) == Lex(k)
    ensures c in {'<', '|', '&', ';', '(', ')'} ==> Lex([c] + k) == [Op(c)] + Lex(k)
    ensures c == '>' && (k == "" || k[0] != '>') ==> Lex([c] + k) == [Op(c)] + Lex(k)
    ensures c !in {' ', '\t', '\r', '\n', '\U{0B}', '<', '|', '>', '&', ';', '(', ')'} ==>
              Lex([c] + (" " + k)) == [Tok('a', [c])] + Lex(k)
  {
    var r := [c] + k;
    assert r[1..] == k;
    if c in {' ', '\t', '\r', '\n', '\U{0B}'} {
      LexSkip(r);
      LexSkip(k);
    } else if c in {'<', '|', '&', ';', '(', ')'} || (c == '>' && (k == "" || k[0] != '>')) {
      LexNext(r, k);
    } else if c != '>' {
      SpellWord([c], k);
    }
  }
}
