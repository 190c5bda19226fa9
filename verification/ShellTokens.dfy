/** Where the parser's string pointers lie, and what the NULs written at their ends leave readable. */
module ShellTokens {
  import opened Shell

  // r is what is left of s.
  predicate Suffix(s: string, r: string) {
    |r| <= |s| && r == s[|s| - |r|..]
  }

  /** x is a whole token: word characters, ending at the end of the text or before another kind. */
  predicate Delimited(s: string, x: Span) {
    && x.hi < x.lo <= |s|
    && (forall i :: |s| - x.lo <= i < |s| - x.hi ==> WordChar(s[i]))
    && (x.hi > 0 ==> !WordChar(s[|s| - x.hi]))
  }

  // x is a string that c points to.
  predicate Points(c: Cmd, x: Span) {
    match c
    case Exec(args) => x in args
    case Redir(a, f, _) => x == f || Points(a, x)
    case Pipe(a, b) => Points(a, x) || Points(b, x)
    case List(a, b) => Points(a, x) || Points(b, x)
    case Back(a) => Points(a, x)
  }

  // Some string of c ends with h characters left.
  predicate Ends(c: Cmd, h: nat) {
    match c
    case Exec(args) => EndsFirst(args, |args|, h)
    case Redir(a, f, _) => f.hi == h || Ends(a, h)
    case Pipe(a, b) => Ends(a, h) || Ends(b, h)
    case List(a, b) => Ends(a, h) || Ends(b, h)
    case Back(a) => Ends(a, h)
  }

  predicate EndsFirst(args: seq<Span>, k: nat, h: nat)
    requires k <= |args|
  {
    exists j :: 0 <= j < k && args[j].hi == h
  }

  /** Every string of c is a whole token of s, and argv has room for its closing null. */
  predicate Sound(s: string, c: Cmd) {
    match c
    case Exec(args) => |args| < MAXARGS && forall x :: x in args ==> Delimited(s, x)
    case Redir(a, f, _) => Delimited(s, f) && Sound(s, a)
    case Pipe(a, b) => Sound(s, a) && Sound(s, b)
    case List(a, b) => Sound(s, a) && Sound(s, b)
    case Back(a) => Sound(s, a)
  }

  lemma {:induction false} SkipSuffix(s: string, r: string)
    requires Suffix(s, r)
    ensures Suffix(s, Skip(r))
  {
    if r != [] && White(r[0]) {
      SkipSuffix(s, r[1..]);
    }
  }

  lemma {:induction false} SkipWordSuffix(s: string, r: string)
    requires Suffix(s, r)
    ensures Suffix(s, SkipWord(r))
    ensures forall i :: |s| - |r| <= i < |s| - |SkipWord(r)| ==> WordChar(s[i])
  {
    if r != [] && WordChar(r[0]) {
      SkipWordSuffix(s, r[1..]);
    }
  }

  // A token of what is left is a token of the whole.
  lemma TokenSound(s: string, r: string)
    requires Suffix(s, r)
    ensures Suffix(s, Gettoken(r).next)
    ensures Gettoken(r).kind == 'a' ==> Delimited(s, Span(|Gettoken(r).q|, |Gettoken(r).eq|))
  {
    hide Skip, SkipWord, White;
    SkipSuffix(s, r);
    SkipWordSuffix(s, Skip(r));
    SkipSuffix(s, Gettoken(r).eq);
  }

  predicate FilesSound(s: string, files: seq<(Span, Kind)>) {
    forall f :: f in files ==> Delimited(s, f.0)
  }

  lemma {:induction false} RedirsSound(s: string, r: string)
    requires Suffix(s, r) && Parseredirs(r).Some?
    ensures FilesSound(s, Parseredirs(r).value.files) && Suffix(s, Parseredirs(r).value.rest)
    decreases |r|
  {
    if !Peek(r, {'<', '>'}) {
      SkipSuffix(s, r);
    } else {
      TokenSound(s, r);
      TokenSound(s, Gettoken(r).next);
      PeekIsToken(r, {'<', '>'});
      RedirsSound(s, Gettoken(Gettoken(r).next).next);
    }
  }

  lemma {:induction false} ArgsSound(s: string, r: string, argc: nat)
    requires Suffix(s, r) && Parseargs(r, argc).Some? && argc < MAXARGS
    ensures var a := Parseargs(r, argc).value;
      && argc + |a.args| < MAXARGS && (forall x :: x in a.args ==> Delimited(s, x))
      && FilesSound(s, a.files) && Suffix(s, a.rest)
    decreases |r|
  {
    hide Delimited, Suffix, Gettoken, Skip, Parseredirs, Peek;
    TokenSound(s, r);
    SkipSuffix(s, r);
    if !Peek(r, {'|', ')', '&', ';'}) && Gettoken(r).kind != '\0' {
      RedirsSound(s, Gettoken(r).next);
      ArgsSound(s, Parseredirs(Gettoken(r).next).value.rest, argc + 1);
    }
  }

  lemma {:induction false} WrapSound(s: string, c: Cmd, files: seq<(Span, Kind)>)
    requires Sound(s, c) && FilesSound(s, files)
    ensures Sound(s, Wrap(c, files))
  {
    if files != [] {
      WrapSound(s, c, files[..|files| - 1]);
      assert files[|files| - 1] in files;
    }
  }

  lemma ExecSound(s: string, r: string)
    requires Suffix(s, r) && Parseexec(r).Some?
    ensures Sound(s, Parseexec(r).value.cmd) && Suffix(s, Parseexec(r).value.rest)
    decreases |r|, 1
  {
    hide Parseline, Parsepipe, Delimited, Suffix, Wrap, Gettoken, Skip;
    if Peek(r, {'('}) {
      BlockSound(s, r);
    } else {
      RedirsSound(s, r);
      var rs := Parseredirs(r).value;
      ArgsSound(s, rs.rest, 0);
      var a := Parseargs(rs.rest, 0).value;
      WrapSound(s, Exec(a.args), rs.files + a.files);
    }
  }

  lemma BlockSound(s: string, r: string)
    requires Suffix(s, r) && Peek(r, {'('}) && Parseblock(r).Some?
    ensures Sound(s, Parseblock(r).value.cmd) && Suffix(s, Parseblock(r).value.rest)
    decreases |r|, 0
  {
    hide Parseline, Parseexec, Parsepipe, Delimited, Suffix, Sound, Wrap;
    PeekIsToken(r, {'('});
    TokenSound(s, r);
    LineSound(s, Gettoken(r).next);
    var p := Parseline(Gettoken(r).next).value;
    TokenSound(s, p.rest);
    RedirsSound(s, Gettoken(p.rest).next);
    WrapSound(s, p.cmd, Parseredirs(Gettoken(p.rest).next).value.files);
  }

  lemma PipeSound(s: string, r: string)
    requires Suffix(s, r) && Parsepipe(r).Some?
    ensures Sound(s, Parsepipe(r).value.cmd) && Suffix(s, Parsepipe(r).value.rest)
    decreases |r|, 2
  {
    hide Parseline, Parseexec, Delimited, Suffix;
    ExecSound(s, r);
    var p := Parseexec(r).value;
    SkipSuffix(s, p.rest);
    if Peek(p.rest, {'|'}) {
      PeekIsToken(p.rest, {'|'});
      TokenSound(s, p.rest);
      PipeSound(s, Gettoken(p.rest).next);
    }
  }

  lemma {:induction false} BacksSound(s: string, c: Cmd, r: string)
    requires Suffix(s, r) && Sound(s, c)
    ensures Sound(s, Backs(c, r).cmd) && Suffix(s, Backs(c, r).rest)
    decreases |r|
  {
    SkipSuffix(s, r);
    if Peek(r, {'&'}) {
      PeekIsToken(r, {'&'});
      TokenSound(s, r);
      BacksSound(s, Back(c), Gettoken(r).next);
    }
  }

  lemma LineSound(s: string, r: string)
    requires Suffix(s, r) && Parseline(r).Some?
    ensures Sound(s, Parseline(r).value.cmd) && Suffix(s, Parseline(r).value.rest)
    decreases |r|, 3
  {
    hide Parsepipe, Parseexec, Delimited, Suffix;
    PipeSound(s, r);
    var p := Parsepipe(r).value;
    BacksSound(s, p.cmd, p.rest);
    var b := Backs(p.cmd, p.rest);
    SkipSuffix(s, b.rest);
    if Peek(b.rest, {';'}) {
      PeekIsToken(b.rest, {';'});
      TokenSound(s, b.rest);
      LineSound(s, Gettoken(b.rest).next);
    }
  }

  /** Whatever text parses, its strings are whole tokens of it. */
  lemma ParsedIsSound(s: string)
    requires Parsecmd(s).Some?
    ensures Sound(s, Parsecmd(s).value)
  {
    LineSound(s, s);
  }

  lemma {:induction false} PointedIsDelimited(s: string, c: Cmd, x: Span)
    requires Sound(s, c) && Points(c, x)
    ensures Delimited(s, x) && Ends(c, x.hi)
    decreases c
  {
    match c
    case Exec(args) =>
    case Redir(a, f, _) => if Points(a, x) { PointedIsDelimited(s, a, x); }
    case Pipe(a, b) => if Points(a, x) { PointedIsDelimited(s, a, x); } else { PointedIsDelimited(s, b, x); }
    case List(a, b) => if Points(a, x) { PointedIsDelimited(s, a, x); } else { PointedIsDelimited(s, b, x); }
    case Back(a) => PointedIsDelimited(s, a, x);
  }

  // A string ends at the end of the text or at a character that is in no word.
  lemma {:induction false} EndIsNoWordChar(s: string, c: Cmd, h: nat)
    requires Sound(s, c) && Ends(c, h)
    ensures h <= |s| && (h > 0 ==> !WordChar(s[|s| - h]))
    decreases c
  {
    match c
    case Exec(args) =>
      var j :| 0 <= j < |args| && args[j].hi == h;
      assert args[j] in args;
    case Redir(a, f, _) => if Ends(a, h) { EndIsNoWordChar(s, a, h); }
    case Pipe(a, b) => if Ends(a, h) { EndIsNoWordChar(s, a, h); } else { EndIsNoWordChar(s, b, h); }
    case List(a, b) => if Ends(a, h) { EndIsNoWordChar(s, a, h); } else { EndIsNoWordChar(s, b, h); }
    case Back(a) => EndIsNoWordChar(s, a, h);
  }

  // What a pointer to b[i] reads as.
  function CString(b: seq<char>, i: nat): string
    decreases |b| - i
  {
    if i >= |b| || b[i] == '\0' then "" else [b[i]] + CString(b, i + 1)
  }

  lemma {:induction false} CStringIs(b: seq<char>, i: nat, e: nat)
    requires i <= e < |b| && b[e] == '\0' && forall k :: i <= k < e ==> b[k] != '\0'
    ensures CString(b, i) == b[i..e]
    decreases e - i
  {
    if i < e {
      CStringIs(b, i + 1, e);
    }
  }

  // b is the buffer that held s, with a NUL at the end of every string of c.
  predicate Terminated(s: string, c: Cmd, b: seq<char>) {
    && |b| > |s|
    && forall i :: 0 <= i < |s| ==> b[i] == if Ends(c, |s| - i) then '\0' else s[i]
  }

  /** No NUL lands inside another token: every string of c reads as exactly its token. */
  lemma ReadsAsToken(s: string, c: Cmd, b: seq<char>, x: Span)
    requires Sound(s, c) && Terminated(s, c, b) && b[|s|] == '\0' && '\0' !in s
    requires Points(c, x)
    ensures x.hi <= x.lo <= |s| && CString(b, |s| - x.lo) == Text(s, x)
  {
    PointedIsDelimited(s, c, x);
    var i, e := |s| - x.lo, |s| - x.hi;
    forall k | i <= k < e ensures b[k] == s[k] {
      if Ends(c, |s| - k) {
        EndIsNoWordChar(s, c, |s| - k);
      }
    }
    CStringIs(b, i, e);
    assert b[i..e] == s[i..e];
  }
}
