/** The canonical text of a command, and that the parser reads it back. */
module ShellPrint {
  import opened Basics
  import opened Shell
  import opened ShellTokens

  /** A command with its words spelled out. */
  datatype Tree =
    | Words(words: seq<string>)
    | To(tree: Tree, file: string, kind: Kind)
    | Piped(left: Tree, right: Tree)
    | Listed(left: Tree, right: Tree)
    | Behind(tree: Tree)

  predicate Word(w: string) {
    w != "" && forall i :: 0 <= i < |w| ==> WordChar(w[i])
  }

  /** What the shell can be told: whole words, and at most nine of them to a command. */
  predicate Good(t: Tree) {
    match t
    case Words(ws) => |ws| < MAXARGS && forall i :: 0 <= i < |ws| ==> Word(ws[i])
    case To(a, f, _) => Good(a) && Word(f)
    case Piped(a, b) => Good(a) && Good(b)
    case Listed(a, b) => Good(a) && Good(b)
    case Behind(a) => Good(a)
  }

  function PrintWords(ws: seq<string>): string {
    if ws == [] then "" else ws[0] + " " + PrintWords(ws[1..])
  }

  function PrintKind(k: Kind): string {
    match k
    case In => "<"
    case Out => ">"
    case Append => ">>"
  }

  function Print(t: Tree): string
    decreases t, 0
  {
    match t
    case Words(ws) => PrintWords(ws)
    case To(a, f, k) => Block(a) + PrintKind(k) + f
    case Piped(a, b) => Block(a) + "|" + Block(b)
    case Listed(a, b) => Block(a) + ";" + Block(b)
    case Behind(a) => Block(a) + "&"
  }

  function Block(t: Tree): string
    decreases t, 1
  {
    "(" + Print(t) + ")"
  }

  predicate SpanReads(s: string, x: Span, w: string) {
    x.hi <= x.lo <= |s| && Text(s, x) == w
  }

  /** Every string pointer of c, as a stretch of s, is the word t has there. */
  predicate Reads(s: string, c: Cmd, t: Tree) {
    match c
    case Exec(args) =>
      t.Words? && |args| == |t.words| && forall i :: 0 <= i < |args| ==> SpanReads(s, args[i], t.words[i])
    case Redir(a, f, k) => t.To? && t.kind == k && SpanReads(s, f, t.file) && Reads(s, a, t.tree)
    case Pipe(a, b) => t.Piped? && Reads(s, a, t.left) && Reads(s, b, t.right)
    case List(a, b) => t.Listed? && Reads(s, a, t.left) && Reads(s, b, t.right)
    case Back(a) => t.Behind? && Reads(s, a, t.tree)
  }

  lemma SpanReadsOn(p: string, r: string, x: Span, w: string)
    requires SpanReads(r, x, w)
    ensures SpanReads(p + r, x, w)
  {
  }

  // Text in front of what is left to read does not matter.
  lemma {:induction false} ReadsOn(p: string, r: string, c: Cmd, t: Tree)
    requires Reads(r, c, t)
    ensures Reads(p + r, c, t)
    decreases c
  {
    match c
    case Exec(args) =>
      forall i | 0 <= i < |args| ensures SpanReads(p + r, args[i], t.words[i]) {
        SpanReadsOn(p, r, args[i], t.words[i]);
      }
    case Redir(a, f, k) =>
      SpanReadsOn(p, r, f, t.file);
      ReadsOn(p, r, a, t.tree);
    case Pipe(a, b) =>
      ReadsOn(p, r, a, t.left);
      ReadsOn(p, r, b, t.right);
    case List(a, b) =>
      ReadsOn(p, r, a, t.left);
      ReadsOn(p, r, b, t.right);
    case Back(a) => ReadsOn(p, r, a, t.tree);
  }

  lemma {:induction false} SkipWordStops(w: string, k: string)
    requires forall i :: 0 <= i < |w| ==> WordChar(w[i])
    requires k == "" || !WordChar(k[0])
    ensures SkipWord(w + k) == k
  {
    if w != "" {
      assert (w + k)[1..] == w[1..] + k;
      SkipWordStops(w[1..], k);
    } else {
      assert w + k == k;
    }
  }

  // A word is read whole.
  lemma AfterWord(w: string, k: string)
    requires Word(w) && (k == "" || !WordChar(k[0]))
    ensures Gettoken(w + k) == Token('a', w + k, k, Skip(k))
    ensures Skip(w + k) == w + k && SpanReads(w + k, Span(|w + k|, |k|), w)
  {
    assert (w + k)[0] == w[0];
    SkipWordStops(w, k);
    assert (w + k)[..|w|] == w;
  }

  // Where a command's text may end: at the end, or before the parenthesis that closes it.
  predicate Closed(k: string) {
    k == "" || k[0] == ')'
  }

  // One argument, and the rest.
  lemma ArgStep(w: string, more: string, argc: nat, rest: seq<Span>, k: string)
    requires Word(w) && argc + 1 < MAXARGS && Parseredirs(more) == Some(Redirs([], more)) && Skip(more) == more
    requires Parseargs(more, argc + 1) == Some(Args(rest, [], k))
    ensures var r := w + " " + more;
      Parseargs(r, argc) == Some(Args([Span(|r|, |more| + 1)] + rest, [], k))
  {
    var r := w + " " + more;
    assert r == w + (" " + more);
    AfterWord(w, " " + more);
    assert (" " + more)[1..] == more;
    assert !Peek(r, {'|', ')', '&', ';'}) by {
      assert r[0] == w[0];
    }
    assert Gettoken(r).next == more;
    var none: seq<(Span, Kind)> := [];
    assert none + none == none;
  }

  // The arguments, and nothing else, are read.
  lemma {:induction false} WordsParse(ws: seq<string>, argc: nat, k: string) returns (args: seq<Span>)
    requires argc + |ws| < MAXARGS && Closed(k)
    requires forall i :: 0 <= i < |ws| ==> Word(ws[i])
    ensures Parseargs(PrintWords(ws) + k, argc) == Some(Args(args, [], k))
    ensures Reads(PrintWords(ws) + k, Exec(args), Words(ws))
  {
    hide Parseargs, Parseredirs, Skip, Gettoken, Word, WordChar, PrintWords, Reads;
    if ws == [] {
      args := [];
      PrintedNone(k);
      ArgsEnd(k, argc);
    } else {
      var more := PrintWords(ws[1..]) + k;
      var r := PrintWords(ws) + k;
      PrintedFirst(ws, k);
      MoreWords(ws[1..], k);
      var rest := WordsParse(ws[1..], argc + 1, k);
      ArgStep(ws[0], more, argc, rest, k);
      args := [Span(|r|, |more| + 1)] + rest;
      ArgReads(ws[0], more, rest, ws[1..]);
      assert ws == [ws[0]] + ws[1..];
    }
  }

  lemma PrintedNone(k: string)
    ensures PrintWords([]) + k == k && Reads(k, Exec([]), Words([]))
  {
  }

  lemma PrintedFirst(ws: seq<string>, k: string)
    requires ws != []
    ensures PrintWords(ws) + k == ws[0] + " " + (PrintWords(ws[1..]) + k)
  {
  }

  lemma ArgsEnd(k: string, argc: nat)
    requires Closed(k)
    ensures Parseargs(k, argc) == Some(Args([], [], k))
  {
  }

  lemma ArgReads(w: string, more: string, rest: seq<Span>, ws: seq<string>)
    requires Reads(more, Exec(rest), Words(ws))
    ensures var r := w + " " + more;
      Reads(r, Exec([Span(|r|, |more| + 1)] + rest), Words([w] + ws))
  {
    var r := w + " " + more;
    ReadsOn(w + " ", more, Exec(rest), Words(ws));
    var args := [Span(|r|, |more| + 1)] + rest;
    forall i | 0 <= i < |args| ensures SpanReads(r, args[i], ([w] + ws)[i]) {
      if i == 0 {
        assert r[0..|w|] == w;
      } else {
        assert SpanReads(r, rest[i - 1], ws[i - 1]);
      }
    }
  }

  // What follows an argument is not white space nor a redirection.
  lemma MoreWords(ws: seq<string>, k: string)
    requires Closed(k) && forall i :: 0 <= i < |ws| ==> Word(ws[i])
    ensures Skip(PrintWords(ws) + k) == PrintWords(ws) + k
    ensures Parseredirs(PrintWords(ws) + k) == Some(Redirs([], PrintWords(ws) + k))
    ensures !Peek(PrintWords(ws) + k, {'('})
  {
    if ws != [] {
      assert (PrintWords(ws) + k)[0] == ws[0][0];
    } else {
      assert PrintWords(ws) + k == k;
    }
  }

  // The file after <, > or >>.
  lemma RedirParses(f: string, kind: Kind, k: string)
    requires Word(f) && Closed(k)
    ensures var r := PrintKind(kind) + f + k;
      var x := Span(|f + k|, |k|);
      Skip(r) == r && Parseredirs(r) == Some(Redirs([(x, kind)], k)) && SpanReads(r, x, f)
  {
    var r := PrintKind(kind) + f + k;
    assert PrintKind(kind) + (f + k) == r;
    AfterWord(f, k);
    SpanReadsOn(PrintKind(kind), f + k, Span(|f + k|, |k|), f);
    KindParses(kind, f + k);
    RedirStep(r, f + k, kind, k);
  }

  lemma KindParses(kind: Kind, more: string)
    requires more != "" && WordChar(more[0])
    ensures var r := PrintKind(kind) + more;
      Skip(r) == r && Peek(r, {'<', '>'}) && Gettoken(r).next == more && KindOf(Gettoken(r).kind) == kind
  {
    var r := PrintKind(kind) + more;
    assert r[0] == PrintKind(kind)[0];
    assert r[|PrintKind(kind)|..] == more;
    assert r[|PrintKind(kind)|] == more[0];
  }

  lemma RedirStep(r: string, more: string, kind: Kind, k: string)
    requires Closed(k)
    requires Peek(r, {'<', '>'}) && Gettoken(r).next == more && KindOf(Gettoken(r).kind) == kind
    requires Gettoken(more) == Token('a', more, k, Skip(k))
    ensures Parseredirs(r) == Some(Redirs([(Span(|more|, |k|), kind)], k))
  {
    assert Parseredirs(k) == Some(Redirs([], k));
    assert [(Span(|more|, |k|), kind)] + [] == [(Span(|more|, |k|), kind)];
  }

  // A block, up to the redirections after it.
  lemma BlockParses(t: Tree, k: string) returns (c: Cmd)
    requires Good(t) && Skip(k) == k && Parseredirs(k).Some?
    ensures Parseexec(Block(t) + k) == Some(Parsed(Wrap(c, Parseredirs(k).value.files), Parseredirs(k).value.rest))
    ensures Reads(Block(t) + k, c, t)
    decreases t, 3
  {
    hide Parseexec, Parseline, Parseredirs, Print, Good, Skip, Wrap;
    c := LineParses(t, ")" + k);
    var inner := Print(t) + (")" + k);
    assert Block(t) + k == "(" + inner;
    InnerStarts(t, k);
    BlockStep(inner, c, k);
    ReadsOn("(", inner, c, t);
  }

  lemma BlockStep(inner: string, c: Cmd, k: string)
    requires Skip(inner) == inner && Skip(k) == k && Parseredirs(k).Some?
    requires Parseline(inner) == Some(Parsed(c, ")" + k))
    ensures Parseexec("(" + inner) == Some(Parsed(Wrap(c, Parseredirs(k).value.files), Parseredirs(k).value.rest))
  {
    hide Parseline, Parseredirs, Wrap;
    var r := "(" + inner;
    assert r[0] == '(' && r[1..] == inner;
    assert Gettoken(r).next == inner;
    assert (")" + k)[1..] == k;
    assert Peek(")" + k, {')'}) && Gettoken(")" + k).next == k;
  }

  // A command's text does not begin with white space.
  lemma InnerStarts(t: Tree, k: string)
    requires Good(t)
    ensures Skip(Print(t) + (")" + k)) == Print(t) + (")" + k)
  {
    match t
    case Words(ws) => MoreWords(ws, ")" + k);
    case _ => assert (Print(t) + (")" + k))[0] == '(';
  }

  // Nothing follows a command that parseexec read to where it closes.
  lemma ExecIsLine(r: string, c: Cmd, k: string)
    requires Parseexec(r) == Some(Parsed(c, k)) && Closed(k)
    ensures Parseline(r) == Parsepipe(r) == Some(Parsed(c, k))
  {
    hide Parseexec;
  }

  lemma PipeStep(r: string, c: Cmd, tail: string, d: Cmd, k: string)
    requires Parseexec(r) == Some(Parsed(c, tail)) && Peek(tail, {'|'}) && Closed(k)
    requires Parsepipe(Gettoken(tail).next) == Some(Parsed(d, k))
    ensures Parseline(r) == Some(Parsed(Pipe(c, d), k))
  {
    hide Parseexec, Gettoken;
  }

  lemma ListStep(r: string, c: Cmd, tail: string, d: Cmd, k: string)
    requires Parseexec(r) == Some(Parsed(c, tail)) && tail != "" && tail[0] == ';' && Closed(k)
    requires Parseline(Gettoken(tail).next) == Some(Parsed(d, k))
    ensures Parseline(r) == Some(Parsed(List(c, d), k))
  {
    hide Parseexec, Gettoken;
    assert Parsepipe(r) == Some(Parsed(c, tail));
    assert Backs(c, tail) == Parsed(c, tail);
  }

  lemma BackStep(r: string, c: Cmd, k: string)
    requires Parseexec(r) == Some(Parsed(c, "&" + k)) && Closed(k)
    ensures Parseline(r) == Some(Parsed(Back(c), k))
  {
    hide Parseexec;
    var tail := "&" + k;
    assert Parsepipe(r) == Some(Parsed(c, tail));
    assert tail[1..] == k;
    assert Gettoken(tail).next == k;
    assert Backs(Back(c), k) == Parsed(Back(c), k);
    assert Backs(c, tail) == Parsed(Back(c), k);
  }

  /** Parsing the canonical text of a command, at the end or inside a block, gives that command. */
  lemma {:induction false} LineParses(t: Tree, k: string) returns (c: Cmd)
    requires Good(t) && Closed(k)
    ensures Parseline(Print(t) + k) == Some(Parsed(c, k))
    ensures Reads(Print(t) + k, c, t)
    decreases t, 2
  {
    match t
    case Words(ws) =>
      var args := WordsParse(ws, 0, k);
      c := Exec(args);
      MoreWords(ws, k);
      ExecIsLine(Print(t) + k, c, k);
    case To(a, f, kind) =>
      c := ToParses(a, f, kind, k);
    case Piped(a, b) =>
      c := PipedParses(a, b, k);
    case Listed(a, b) =>
      c := ListedParses(a, b, k);
    case Behind(a) =>
      c := BehindParses(a, k);
  }

  lemma ToParses(a: Tree, f: string, kind: Kind, k: string) returns (c: Cmd)
    requires Good(To(a, f, kind)) && Closed(k)
    ensures Parseline(Print(To(a, f, kind)) + k) == Some(Parsed(c, k))
    ensures Reads(Print(To(a, f, kind)) + k, c, To(a, f, kind))
    decreases a, 4
  {
    hide Parseexec, Parsepipe, Parseline, Skip, Gettoken, Parseredirs, Closed, Block, PrintKind;
    var tail := PrintKind(kind) + f + k;
    RedirParses(f, kind, k);
    var d := BlockParses(a, tail);
    var r := Print(To(a, f, kind)) + k;
    assert r == Block(a) + tail;
    var x := Span(|f + k|, |k|);
    WrapOne(d, x, kind);
    c := Redir(d, x, kind);
    SpanReadsOn(Block(a), tail, x, f);
    ExecIsLine(r, c, k);
  }

  lemma WrapOne(c: Cmd, x: Span, kind: Kind)
    ensures Wrap(c, [(x, kind)]) == Redir(c, x, kind)
  {
  }

  // The rest of a line after an operator.
  lemma Next(op: char, b: Tree, k: string)
    requires op == '|' || op == ';'
    ensures var r := [op] + Block(b) + k;
      Skip(r) == r && Parseredirs(r) == Some(Redirs([], r)) && Gettoken(r).next == Block(b) + k
  {
    var r := [op] + Block(b) + k;
    assert r[1..] == Block(b) + k;
    assert r[1..][0] == '(';
  }

  lemma BothRead(r: string, c: Cmd, d: Cmd, a: Tree, b: Tree)
    requires Reads(r, c, a) && Reads(r, d, b)
    ensures Reads(r, Pipe(c, d), Piped(a, b)) && Reads(r, List(c, d), Listed(a, b))
  {
  }

  lemma PipedParses(a: Tree, b: Tree, k: string) returns (c: Cmd)
    requires Good(Piped(a, b)) && Closed(k)
    ensures Parseline(Print(Piped(a, b)) + k) == Some(Parsed(c, k))
    ensures Reads(Print(Piped(a, b)) + k, c, Piped(a, b))
    decreases Piped(a, b), 1
  {
    hide Parseexec, Parsepipe, Parseline, Skip, Gettoken, Parseredirs, Closed, Block, Reads;
    var r := Print(Piped(a, b)) + k;
    var d, e := BothParse(Piped(a, b), '|', a, b, k);
    assert r == Block(a) + (['|'] + Block(b) + k);
    PipeStep(r, d, ['|'] + Block(b) + k, e, k);
    c := Pipe(d, e);
    BothRead(r, d, e, a, b);
  }

  // The two sides of | or ;.
  lemma BothParse(t: Tree, op: char, a: Tree, b: Tree, k: string) returns (c: Cmd, d: Cmd)
    requires t == Piped(a, b) || t == Listed(a, b)
    requires (op == '|' || op == ';') && Good(a) && Good(b) && Closed(k)
    ensures var tail := [op] + Block(b) + k;
      && Skip(tail) == tail && tail[0] == op && Parseexec(Block(a) + tail) == Some(Parsed(c, tail))
      && Parseline(Gettoken(tail).next) == Parsepipe(Gettoken(tail).next) == Some(Parsed(d, k))
      && Reads(Block(a) + tail, c, a) && Reads(Block(a) + tail, d, b)
    decreases t, 0
  {
    hide Parseexec, Parsepipe, Parseline, Skip, Gettoken, Print;
    var tail := [op] + Block(b) + k;
    Next(op, b, k);
    c := BlockParses(a, tail);
    ClosedHasNoRedirs(k);
    d := BlockParses(b, k);
    ExecIsLine(Block(b) + k, d, k);
    ReadsOn(Block(a) + [op], Block(b) + k, d, b);
    assert Block(a) + [op] + (Block(b) + k) == Block(a) + tail;
  }

  lemma ClosedHasNoRedirs(k: string)
    requires Closed(k)
    ensures Skip(k) == k && Parseredirs(k) == Some(Redirs([], k))
  {
  }

  lemma ListedParses(a: Tree, b: Tree, k: string) returns (c: Cmd)
    requires Good(Listed(a, b)) && Closed(k)
    ensures Parseline(Print(Listed(a, b)) + k) == Some(Parsed(c, k))
    ensures Reads(Print(Listed(a, b)) + k, c, Listed(a, b))
    decreases Listed(a, b), 1
  {
    hide Parseexec, Parsepipe, Parseline, Skip, Gettoken, Parseredirs, Closed, Block, Reads;
    var r := Print(Listed(a, b)) + k;
    var d, e := BothParse(Listed(a, b), ';', a, b, k);
    assert r == Block(a) + ([';'] + Block(b) + k);
    ListStep(r, d, [';'] + Block(b) + k, e, k);
    c := List(d, e);
    BothRead(r, d, e, a, b);
  }

  lemma BehindParses(a: Tree, k: string) returns (c: Cmd)
    requires Good(a) && Closed(k)
    ensures Parseline(Print(Behind(a)) + k) == Some(Parsed(c, k))
    ensures Reads(Print(Behind(a)) + k, c, Behind(a))
    decreases a, 4
  {
    hide Parseexec, Parsepipe, Parseline, Gettoken;
    var tail := "&" + k;
    assert Skip(tail) == tail && Parseredirs(tail) == Some(Redirs([], tail));
    var d := BlockParses(a, tail);
    assert Print(Behind(a)) + k == Block(a) + tail;
    BackStep(Block(a) + tail, d, k);
    c := Back(d);
  }

  /** The round trip. */
  lemma RoundTrip(t: Tree) returns (c: Cmd)
    requires Good(t)
    ensures Parsecmd(Print(t)) == Some(c) && Reads(Print(t), c, t)
  {
    c := LineParses(t, "");
    assert Print(t) + "" == Print(t);
  }

  // A command that points into s, with the words written out.
  function TreeOf(s: string, c: Cmd): Tree
    requires Sound(s, c)
  {
    match c
    case Exec(args) => Words(seq(|args|, i requires 0 <= i < |args| => TextOf(s, args, i)))
    case Redir(a, f, k) => To(TreeOf(s, a), Text(s, f), k)
    case Pipe(a, b) => Piped(TreeOf(s, a), TreeOf(s, b))
    case List(a, b) => Listed(TreeOf(s, a), TreeOf(s, b))
    case Back(a) => Behind(TreeOf(s, a))
  }

  function TextOf(s: string, args: seq<Span>, i: nat): string
    requires i < |args| && forall x :: x in args ==> Delimited(s, x)
  {
    var x := args[i];
    assert x in args;
    assert Delimited(s, x);
    Text(s, x)
  }

  lemma DelimitedIsWord(s: string, x: Span)
    requires Delimited(s, x)
    ensures x.hi <= x.lo <= |s| && Word(Text(s, x)) && SpanReads(s, x, Text(s, x))
  {
    var w := Text(s, x);
    forall i | 0 <= i < |w| ensures WordChar(w[i]) {
      assert w[i] == s[|s| - x.lo + i];
    }
  }

  lemma {:induction false} TreeOfReads(s: string, c: Cmd)
    requires Sound(s, c)
    ensures Good(TreeOf(s, c)) && Reads(s, c, TreeOf(s, c))
    decreases c
  {
    match c
    case Exec(args) =>
      forall i | 0 <= i < |args|
        ensures Word(TreeOf(s, c).words[i]) && SpanReads(s, args[i], TreeOf(s, c).words[i])
      {
        assert args[i] in args;
        DelimitedIsWord(s, args[i]);
      }
    case Redir(a, f, _) =>
      DelimitedIsWord(s, f);
      TreeOfReads(s, a);
    case Pipe(a, b) =>
      TreeOfReads(s, a);
      TreeOfReads(s, b);
    case List(a, b) =>
      TreeOfReads(s, a);
      TreeOfReads(s, b);
    case Back(a) => TreeOfReads(s, a);
  }

  /** Any line the parser takes is a good command, and its canonical text parses to the same command. */
  lemma CanonicalMeansTheSame(s: string) returns (t: Tree, d: Cmd)
    requires Parsecmd(s).Some?
    ensures Good(t) && Reads(s, Parsecmd(s).value, t)
    ensures Parsecmd(Print(t)) == Some(d) && Reads(Print(t), d, t)
  {
    ParsedIsSound(s);
    t := TreeOf(s, Parsecmd(s).value);
    TreeOfReads(s, Parsecmd(s).value);
    d := RoundTrip(t);
  }
}
