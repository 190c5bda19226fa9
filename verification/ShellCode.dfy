/** The parser as it runs: a cursor over the command line's buffer, then nulterminate. */
module ShellCode {
  import opened Basics
  import opened Shell
  import opened ShellTokens

  // What a parsing function did: o is None when it panicked.
  predicate Parses(want: Option<Parsed>, o: Option<Cmd>, rest: string) {
    match want
    case None => o == None
    case Some(p) => o == Some(p.cmd) && rest == p.rest
  }

  // A loop that has read files and has o's still to read.
  predicate AheadFiles(want: Option<Redirs>, files: seq<(Span, Kind)>, o: Option<Redirs>) {
    match o
    case None => want == None
    case Some(rs) => want == Some(Redirs(files + rs.files, rs.rest))
  }

  predicate AheadArgs(want: Option<Args>, args: seq<Span>, files: seq<(Span, Kind)>, o: Option<Args>) {
    match o
    case None => want == None
    case Some(a) => want == Some(Args(args + a.args, files + a.files, a.rest))
  }

  // Peeking has only skipped white space, which every reader skips anyway.
  lemma SkipTwice(r: string)
    ensures Skip(Skip(r)) == Skip(r) && Gettoken(Skip(r)) == Gettoken(r)
    ensures forall toks :: Peek(Skip(r), toks) == Peek(r, toks)
    ensures Parseredirs(Skip(r)) == Parseredirs(r)
    ensures forall argc :: Parseargs(Skip(r), argc) == Parseargs(r, argc)
  {
  }

  lemma NextFile(want: Option<Redirs>, files: seq<(Span, Kind)>, r: string, name: Token)
    requires AheadFiles(want, files, Parseredirs(r)) && Peek(r, {'<', '>'})
    requires name == Gettoken(Gettoken(r).next)
    ensures name.kind != 'a' ==> want == None
    ensures name.kind == 'a' ==>
      AheadFiles(want, files + [(Span(|name.q|, |name.eq|), KindOf(Gettoken(r).kind))], Parseredirs(name.next))
  {
    hide Gettoken, Skip, Peek, KindOf;
    var x := (Span(|name.q|, |name.eq|), KindOf(Gettoken(r).kind));
    if name.kind == 'a' && Parseredirs(name.next).Some? {
      var more := Parseredirs(name.next).value.files;
      assert files + ([x] + more) == files + [x] + more;
    }
  }

  lemma NextArg(want: Option<Args>, args: seq<Span>, files: seq<(Span, Kind)>, r: string, rs: Option<Redirs>)
    requires AheadArgs(want, args, files, Parseargs(r, |args|))
    requires !Peek(r, {'|', ')', '&', ';'}) && Gettoken(r).kind == 'a' && |args| + 1 < MAXARGS
    requires rs == Parseredirs(Gettoken(r).next)
    ensures rs == None ==> want == None
    ensures rs.Some? ==> AheadArgs(want, args + [Span(|Gettoken(r).q|, |Gettoken(r).eq|)], files + rs.value.files,
                                   Parseargs(rs.value.rest, |args| + 1))
  {
    hide Gettoken, Skip, Peek, Parseredirs;
    var x := Span(|Gettoken(r).q|, |Gettoken(r).eq|);
    if rs.Some? && Parseargs(rs.value.rest, |args| + 1).Some? {
      var more := Parseargs(rs.value.rest, |args| + 1).value;
      assert args + ([x] + more.args) == args + [x] + more.args;
      assert files + (rs.value.files + more.files) == files + rs.value.files + more.files;
    }
  }

  class Parser {
    const buf: array<char>
    const es: nat
    var s: nat

    ghost predicate Valid()
      reads this, buf
    {
      && s <= es < buf.Length && buf[es] == '\0'
      && forall i :: 0 <= i < es ==> buf[i] != '\0'
    }

    ghost function Rest(): (r: string)
      reads this, buf
      requires s <= es < buf.Length
    {
      buf[s..es]
    }

    /** parsecmd's start: the cursor at the beginning of a NUL-terminated line. */
    constructor (line: array<char>, n: nat)
      requires n < line.Length && line[n] == '\0' && '\0' !in line[..n]
      ensures Valid() && buf == line && es == n && s == 0
    {
      buf, es, s := line, n, 0;
    }

    // The loops over white space.
    method SkipWhite(from: nat) returns (to: nat)
      requires Valid() && from <= es
      ensures from <= to <= es && buf[to..es] == Skip(buf[from..es])
    {
      to := from;
      while to < es && White(buf[to])
        invariant from <= to <= es
        invariant Skip(buf[to..es]) == Skip(buf[from..es])
      {
        assert buf[to..es][1..] == buf[to + 1..es];
        to := to + 1;
      }
    }

    method PeekFor(toks: set<char>) returns (found: bool)
      requires Valid() && '\0' !in toks
      modifies this`s
      ensures Valid() && Rest() == Skip(old(Rest())) && found == Peek(old(Rest()), toks)
    {
      s := SkipWhite(s);
      found := buf[s] in toks;
    }

    // The loop over a word.
    method WordEnd(from: nat) returns (to: nat)
      requires Valid() && from <= es
      ensures from <= to <= es && buf[to..es] == SkipWord(buf[from..es])
    {
      to := from;
      while to < es && !White(buf[to]) && !Symbol(buf[to])
        invariant from <= to <= es
        invariant SkipWord(buf[to..es]) == SkipWord(buf[from..es])
      {
        assert buf[to..es][1..] == buf[to + 1..es];
        to := to + 1;
      }
    }

    method NextToken() returns (kind: char, q: nat, eq: nat)
      requires Valid()
      modifies this`s
      ensures Valid() && q <= eq <= es
      ensures Token(kind, buf[q..es], buf[eq..es], Rest()) == Gettoken(old(Rest()))
      ensures kind != '\0' ==> s > old(s)
    {
      hide Skip, SkipWord, White;
      q := SkipWhite(s);
      kind := buf[q];
      if kind == '\0' {
        eq := q;
      } else if kind == '>' {
        eq := q + 1;
        if buf[eq] == '>' {
          kind := '+';
          eq := eq + 1;
        }
      } else if Symbol(kind) {
        eq := q + 1;
      } else {
        kind := 'a';
        eq := WordEnd(q);
      }
      s := SkipWhite(eq);
      assert kind != '\0' ==> |buf[eq..es]| < |buf[q..es]|;
    }

    // parseredirs: the redirections found, in order; the caller wraps its command in them.
    method ReadRedirs() returns (o: Option<seq<(Span, Kind)>>)
      requires Valid()
      modifies this`s
      ensures Valid() && s >= old(s)
      ensures match Parseredirs(old(Rest()))
        case None => o == None
        case Some(rs) => o == Some(rs.files) && Rest() == rs.rest
    {
      hide Parseredirs, Gettoken, Skip, Peek, AheadFiles;
      ghost var want := Parseredirs(Rest());
      var files: seq<(Span, Kind)> := [];
      StartFiles(want);
      var more := true;
      while more
        invariant Valid() && s >= old(s)
        invariant more ==> AheadFiles(want, files, Parseredirs(Rest()))
        invariant !more ==> want == Some(Redirs(files, Rest()))
        decreases more, es - s
      {
        ghost var r := Rest();
        SkipTwice(r);
        more := PeekFor({'<', '>'});
        if more {
          PeekIsToken(r, {'<', '>'});
          var tok, _, _ := NextToken();
          var kind, q, eq := NextToken();
          NextFile(want, files, r, Gettoken(Gettoken(r).next));
          if kind != 'a' {
            return None;
          }
          files := files + [(Span(es - q, es - eq), KindOf(tok))];
        } else {
          LastFile(want, files, r);
        }
      }
      o := Some(files);
    }

    // parseexec's loop over arguments and the redirections between them.
    method ReadArgs(first: seq<(Span, Kind)>) returns (o: Option<Cmd>)
      requires Valid()
      modifies this`s
      ensures Valid() && s >= old(s)
      ensures match Parseargs(old(Rest()), 0)
        case None => o == None
        case Some(a) => o == Some(Wrap(Exec(a.args), first + a.files)) && Rest() == a.rest
    {
      hide Parseredirs, Parseargs, Gettoken, Skip, Peek, AheadArgs, Wrap;
      ghost var start := Parseargs(Rest(), 0);
      ghost var want := match start case None => None case Some(a) => Some(Args(a.args, first + a.files, a.rest));
      var args: seq<Span>, files := [], first;
      StartArgs(want, first, start);
      var more := true;
      while more
        invariant Valid() && s >= old(s) && |args| < MAXARGS
        invariant more ==> AheadArgs(want, args, files, Parseargs(Rest(), |args|))
        invariant !more ==> want == Some(Args(args, files, Rest()))
        decreases more, es - s
      {
        ghost var r := Rest();
        SkipTwice(r);
        var end := PeekFor({'|', ')', '&', ';'});
        more := !end;
        if more {
          var kind, q, eq := NextToken();
          if kind == '\0' {
            more := false;
            EndIsSkip(r);
          } else if kind != 'a' || |args| + 1 >= MAXARGS {
            NoArg(want, args, files, r);
            return None;
          } else {
            ghost var rs := Parseredirs(Rest());
            NextArg(want, args, files, r, rs);
            args := args + [Span(es - q, es - eq)];
            var found := ReadRedirs();
            if found == None {
              return None;
            }
            files := files + found.value;
          }
        }
        if !more {
          LastArg(want, args, files, r);
        }
      }
      o := Some(Wrap(Exec(args), files));
    }

    method ReadExec() returns (o: Option<Cmd>)
      requires Valid()
      modifies this`s
      ensures Valid() && s >= old(s) && Parses(Parseexec(old(Rest())), o, Rest())
      decreases es - s, 1
    {
      hide Parseredirs, Parseargs, Parseline, Gettoken, Skip, Peek, Wrap;
      ghost var r := Rest();
      SkipTwice(r);
      var block := PeekFor({'('});
      if block {
        BlockSkips(r);
        o := ReadBlock();
      } else {
        var found := ReadRedirs();
        if found == None {
          return None;
        }
        o := ReadArgs(found.value);
      }
    }

    method ReadBlock() returns (o: Option<Cmd>)
      requires Valid() && Peek(Rest(), {'('})
      modifies this`s
      ensures Valid() && s >= old(s) && Parses(Parseblock(old(Rest())), o, Rest())
      decreases es - s, 0
    {
      hide Parseredirs, Parseargs, Parseline, Gettoken, Skip, Peek, Wrap;
      PeekIsToken(Rest(), {'('});
      var _, _, _ := NextToken();
      o := ReadLine();
      if o == None {
        return;
      }
      ghost var r := Rest();
      SkipTwice(r);
      var closed := PeekFor({')'});
      if !closed {
        return None;
      }
      var _, _, _ := NextToken();
      var found := ReadRedirs();
      if found == None {
        return None;
      }
      o := Some(Wrap(o.value, found.value));
    }

    method ReadPipe() returns (o: Option<Cmd>)
      requires Valid()
      modifies this`s
      ensures Valid() && s >= old(s) && Parses(Parsepipe(old(Rest())), o, Rest())
      decreases es - s, 2
    {
      hide Parseexec, Gettoken, Skip, Peek;
      o := ReadExec();
      if o == None {
        return;
      }
      ghost var r := Rest();
      SkipTwice(r);
      var pipe := PeekFor({'|'});
      if pipe {
        PeekIsToken(r, {'|'});
        var _, _, _ := NextToken();
        var right := ReadPipe();
        if right == None {
          return None;
        }
        o := Some(Pipe(o.value, right.value));
      }
    }

    method ReadLine() returns (o: Option<Cmd>)
      requires Valid()
      modifies this`s
      ensures Valid() && s >= old(s) && Parses(Parseline(old(Rest())), o, Rest())
      decreases es - s, 3
    {
      hide Parsepipe, Gettoken, Skip, Peek;
      o := ReadPipe();
      if o == None {
        return;
      }
      var cmd := o.value;
      ghost var b := Backs(cmd, Rest());
      var more := true;
      while more
        invariant Valid() && s >= old(s)
        invariant b == Backs(cmd, Rest()) && (!more ==> Rest() == b.rest && cmd == b.cmd)
        decreases more, es - s
      {
        ghost var r := Rest();
        SkipTwice(r);
        more := PeekFor({'&'});
        if more {
          PeekIsToken(r, {'&'});
          var _, _, _ := NextToken();
          cmd := Back(cmd);
        }
      }
      ghost var r := Rest();
      SkipTwice(r);
      var list := PeekFor({';'});
      if list {
        PeekIsToken(r, {';'});
        var _, _, _ := NextToken();
        var right := ReadLine();
        if right == None {
          return None;
        }
        cmd := List(cmd, right.value);
      }
      o := Some(cmd);
    }

    // The loop over argv, and nulterminate: a NUL at the end of every string of c.
    method TerminateArgs(args: seq<Span>)
      requires es < buf.Length && forall x :: x in args ==> x.hi <= es
      modifies buf
      ensures forall i :: 0 <= i <= es ==> buf[i] == if EndsFirst(args, |args|, es - i) then '\0' else old(buf[i])
    {
      var i := 0;
      while i < |args|
        invariant 0 <= i <= |args|
        invariant forall j :: 0 <= j <= es ==> buf[j] == if EndsFirst(args, i, es - j) then '\0' else old(buf[j])
      {
        assert args[i] in args;
        buf[es - args[i].hi] := '\0';
        ghost var k := i + 1;
        forall h: nat | h <= es ensures EndsFirst(args, k, h) == (EndsFirst(args, i, h) || args[i].hi == h) {
          OneMoreEnd(args, i, h);
        }
        i := i + 1;
      }
    }

    method Nulterminate(c: Cmd)
      requires es < buf.Length && forall h: nat :: Ends(c, h) ==> h <= es
      modifies buf
      ensures forall i :: 0 <= i <= es ==> buf[i] == if Ends(c, es - i) then '\0' else old(buf[i])
      decreases c
    {
      match c
      case Exec(args) =>
        forall x | x in args ensures x.hi <= es {
          EndOfArg(args, x);
        }
        TerminateArgs(args);
      case Redir(a, f, _) =>
        assert Ends(c, f.hi);
        assert forall h: nat :: Ends(a, h) ==> Ends(c, h);
        Nulterminate(a);
        buf[es - f.hi] := '\0';
      case Pipe(a, b) =>
        assert forall h: nat :: Ends(a, h) || Ends(b, h) ==> Ends(c, h);
        Nulterminate(a);
        Nulterminate(b);
      case List(a, b) =>
        assert forall h: nat :: Ends(a, h) || Ends(b, h) ==> Ends(c, h);
        Nulterminate(a);
        Nulterminate(b);
      case Back(a) =>
        assert forall h: nat :: Ends(a, h) ==> Ends(c, h);
        Nulterminate(a);
    }

    // nulterminate for a command just parsed.
    method Finish(c: Cmd)
      requires Valid() && Sound(buf[..es], c)
      modifies buf
      ensures Terminated(old(buf[..es]), c, buf[..]) && AllRead(old(buf[..es]), c, buf[..])
    {
      hide Ends, Sound;
      ghost var was := buf[..];
      assert was[..es] == buf[..es];
      EndsInside(was[..es], c);
      Nulterminate(c);
      Terminates(was[..es], c, was, buf[..]);
      EachReads(was[..es], c, buf[..]);
    }

    /** parsecmd: the command of the line, every string of which reads as exactly its token. */
    method ReadCommand() returns (o: Option<Cmd>)
      requires Valid() && s == 0
      modifies this`s, buf
      ensures o == Parsecmd(old(buf[..es]))
      ensures o == None ==> buf[..] == old(buf[..])
      ensures o.Some? ==> Terminated(old(buf[..es]), o.value, buf[..]) && AllRead(old(buf[..es]), o.value, buf[..])
    {
      hide Parseline, Skip, Sound, AllRead, Terminated;
      ghost var line := buf[..es];
      assert Rest() == line;
      o := ReadLine();
      if o == None {
        return;
      }
      ghost var rest := Rest();
      var _ := PeekFor({});
      if s != es {
        return None;
      }
      ParsedIsSound(line);
      Finish(o.value);
    }
  }

  // Every string of c reads as its token.
  ghost predicate AllRead(line: string, c: Cmd, b: string) {
    forall x :: Points(c, x) ==> x.hi <= x.lo <= |line| && CString(b, |line| - x.lo) == Text(line, x)
  }

  lemma EachReads(line: string, c: Cmd, b: string)
    requires Sound(line, c) && Terminated(line, c, b) && b[|line|] == '\0' && '\0' !in line
    ensures AllRead(line, c, b)
  {
    hide Sound, Terminated, Points, CString, Text;
    forall x | Points(c, x) ensures x.hi <= x.lo <= |line| && CString(b, |line| - x.lo) == Text(line, x) {
      ReadsAsToken(line, c, b, x);
    }
  }

  // A line and its NUL, after nulterminate.
  lemma Terminates(line: string, c: Cmd, was: string, now: string)
    requires |was| == |now| > |line| && was[..|line|] == line && was[|line|] == '\0'
    requires forall i {:trigger now[i]} :: 0 <= i <= |line| ==> now[i] == if Ends(c, |line| - i) then '\0' else was[i]
    ensures Terminated(line, c, now) && now[|line|] == '\0'
  {
    hide Ends;
    assert forall i :: 0 <= i < |line| ==> was[..|line|][i] == was[i];
  }

  lemma OneMoreEnd(args: seq<Span>, i: nat, h: nat)
    requires i < |args|
    ensures EndsFirst(args, i + 1, h) == (EndsFirst(args, i, h) || args[i].hi == h)
  {
    if EndsFirst(args, i + 1, h) && args[i].hi != h {
      var j :| 0 <= j < i + 1 && args[j].hi == h;
      assert j < i;
    }
  }

  lemma EndOfArg(args: seq<Span>, x: Span)
    requires x in args
    ensures Ends(Exec(args), x.hi)
  {
    var j :| 0 <= j < |args| && args[j] == x;
  }

  lemma EndsInside(s: string, c: Cmd)
    requires Sound(s, c)
    ensures forall h: nat :: Ends(c, h) ==> h <= |s|
  {
    forall h: nat | Ends(c, h) ensures h <= |s| {
      EndIsNoWordChar(s, c, h);
    }
  }

  lemma EndIsSkip(r: string)
    requires Gettoken(r).kind == '\0'
    ensures Gettoken(r).next == Skip(r)
  {
  }

  lemma BlockSkips(r: string)
    requires Peek(r, {'('})
    ensures Peek(Skip(r), {'('}) && Parseblock(Skip(r)) == Parseblock(r)
  {
    SkipTwice(r);
  }

  lemma StartFiles(want: Option<Redirs>)
    ensures AheadFiles(want, [], want)
  {
    if want.Some? {
      assert [] + want.value.files == want.value.files;
    }
  }

  lemma LastFile(want: Option<Redirs>, files: seq<(Span, Kind)>, r: string)
    requires AheadFiles(want, files, Parseredirs(r)) && !Peek(r, {'<', '>'})
    ensures want == Some(Redirs(files, Skip(r)))
  {
    var none: seq<(Span, Kind)> := [];
    assert Parseredirs(r) == Some(Redirs(none, Skip(r)));
    assert files + none == files;
  }

  lemma StartArgs(want: Option<Args>, files: seq<(Span, Kind)>, o: Option<Args>)
    requires want == match o case None => None case Some(a) => Some(Args(a.args, files + a.files, a.rest))
    ensures AheadArgs(want, [], files, o)
  {
    if o.Some? {
      assert [] + o.value.args == o.value.args;
    }
  }

  lemma LastArg(want: Option<Args>, args: seq<Span>, files: seq<(Span, Kind)>, r: string)
    requires AheadArgs(want, args, files, Parseargs(r, |args|))
    requires Peek(r, {'|', ')', '&', ';'}) || Gettoken(r).kind == '\0'
    ensures want == Some(Args(args, files, Skip(r)))
  {
    hide Gettoken, Skip, Peek, Parseredirs;
    if Gettoken(r).kind == '\0' {
      EndIsSkip(r);
    }
    var none: seq<Span> := [];
    var noFiles: seq<(Span, Kind)> := [];
    assert Parseargs(r, |args|) == Some(Args(none, noFiles, Skip(r)));
    assert args + none == args && files + noFiles == files;
  }

  lemma NoArg(want: Option<Args>, args: seq<Span>, files: seq<(Span, Kind)>, r: string)
    requires AheadArgs(want, args, files, Parseargs(r, |args|))
    requires !Peek(r, {'|', ')', '&', ';'}) && Gettoken(r).kind != '\0'
    requires Gettoken(r).kind != 'a' || |args| + 1 >= MAXARGS
    ensures want == None
  {
  }
}
