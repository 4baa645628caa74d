/** The shell's parser as it is written: a cursor that loops advance, and
    nulterminate writing into the line. */
module ShellCode {
  import opened ShellSyntax
  import opened ShellLexer

  lemma LexSkip(s: string, i: nat)
    requires i <= |s|
    ensures Skip(s, Skip(s, i)) == Skip(s, i) && Lex(s, Skip(s, i)) == Lex(s, i)
  {
  }

  /** The first character tells the kind of the first token. */
  lemma FirstChar(s: string, i: nat)
    requires i <= |s| && Skip(s, i) == i
    ensures Lex(s, i) == [] <==> i == |s|
    ensures i < |s| ==>
              && Lex(s, i)[0] == TokenAt(s, i).0 && Lex(s, i)[1..] == Lex(s, TokenAt(s, i).1)
              && var t := Lex(s, i)[0];
                 && (s[i] == '|' <==> t.Bar?) && (s[i] == '(' <==> t.Open?) && (s[i] == ')' <==> t.Close?)
                 && (s[i] == ';' <==> t.Semi?) && (s[i] == '&' <==> t.Amp?) && (s[i] == '<' <==> t.Less?)
                 && (s[i] == '>' <==> t.More? || t.Append?)
  {
  }

  class Parser {
    const line: string
    var pos: nat

    constructor (s: string)
      ensures line == s && pos == 0
    {
      line, pos := s, 0;
    }

    ghost predicate Valid()
      reads this
    {
      pos <= |line|
    }

    ghost function Toks(): seq<Token<Span>>
      requires Valid()
      reads this
    {
      Lex(line, pos)
    }

    method SkipBlanks()
      requires Valid()
      modifies this
      ensures Valid() && pos == Skip(line, old(pos)) && Toks() == old(Toks())
    {
      while pos < |line| && Blank(line[pos])
        invariant Valid() && Skip(line, pos) == Skip(line, old(pos))
        decreases |line| - pos
      {
        pos := pos + 1;
      }
      LexSkip(line, old(pos));
    }

    method SkipWord()
      requires Valid()
      modifies this
      ensures Valid() && pos == WordEnd(line, old(pos))
    {
      while pos < |line| && WordChar(line[pos])
        invariant Valid() && WordEnd(line, pos) == WordEnd(line, old(pos))
        decreases |line| - pos
      {
        pos := pos + 1;
      }
    }

    /** gettoken; found is false at the end of the line. */
    method Gettoken() returns (found: bool, tok: Token<Span>)
      requires Valid()
      modifies this
      ensures Valid() && pos >= old(pos) && (found <==> old(Toks()) != [])
      ensures found ==> tok == old(Toks())[0] && Toks() == old(Toks())[1..] && pos > old(pos)
      ensures !found ==> Toks() == []
    {
      hide Lex, TokenAt;
      SkipBlanks();
      LexSkip(line, old(pos));
      FirstChar(line, pos);
      if pos == |line| {
        return false, Bar;
      }
      tok := Step();
      SkipBlanks();
      found := true;
    }

    /** The switch in gettoken. */
    method Step() returns (tok: Token<Span>)
      requires Valid() && pos < |line| && !Blank(line[pos])
      modifies this
      ensures Valid() && (tok, pos) == TokenAt(line, old(pos))
    {
      var c, q := line[pos], pos;
      if !Symbol(c) {
        SkipWord();
        return Word(Span(q, pos));
      }
      pos := pos + 1;
      if c == '>' && pos < |line| && line[pos] == '>' {
        pos := pos + 1;
        return Append;
      }
      tok := match c
             case '|' => Bar
             case '(' => Open
             case ')' => Close
             case ';' => Semi
             case '&' => Amp
             case '<' => Less
             case _ => More;
    }

    /** peek: is the next character one of these? */
    method Peek(toks: string) returns (b: bool)
      requires Valid()
      modifies this
      ensures Valid() && Toks() == old(Toks()) && pos == Skip(line, pos) && pos >= old(pos)
      ensures b <==> pos < |line| && line[pos] in toks
    {
      SkipBlanks();
      LexSkip(line, old(pos));
      b := pos < |line| && line[pos] in toks;
    }

    method ParseRedirs(c: Cmd<Span>) returns (ok: bool, r: Cmd<Span>)
      requires Valid()
      modifies this
      ensures Valid() && pos >= old(pos)
      ensures var spec := ShellSyntax.ParseRedirs(c, old(Toks()));
              if ok then spec == Ok(r, Toks()) else spec == Fail
    {
      hide Lex, TokenAt;
      ghost var spec := ShellSyntax.ParseRedirs(c, Toks());
      r := c;
      var more := Peek("<>");
      FirstChar(line, pos);
      while more
        invariant Valid() && pos >= old(pos) && ShellSyntax.ParseRedirs(r, Toks()) == spec
        invariant more <==> Toks() != [] && IsRedir(Toks()[0])
        decreases |line| - pos
      {
        var found, tok := Gettoken();
        var named, file := Gettoken();
        if !named || !file.Word? {
          return false, r;
        }
        r := Redir(r, file.w, !tok.Less?);
        more := Peek("<>");
        FirstChar(line, pos);
      }
      ok := true;
    }

    method ParseExec() returns (ok: bool, r: Cmd<Span>)
      requires Valid()
      modifies this
      ensures Valid() && pos >= old(pos)
      ensures var spec := ShellSyntax.ParseExec(old(Toks()));
              if ok then spec == Ok(r, Toks()) else spec == Fail
      decreases |line| - pos, 1
    {
      hide Lex, TokenAt, ShellSyntax.ParseRedirs;
      var block := Peek("(");
      FirstChar(line, pos);
      if block {
        ok, r := ParseBlock();
        return;
      }
      ghost var ts := Toks();
      ok, r := ParseRedirs(Exec([]));
      if !ok {
        return;
      }
      ghost var spec := ParseArgs(r, 0, Toks());
      var argc := 0;
      var done := Peek("|)&;");
      FirstChar(line, pos);
      while !done
        invariant Valid() && pos >= old(pos) && argc < MAXARGS && ParseArgs(r, argc, Toks()) == spec
        invariant done ==> Ends(Toks())
        invariant !done ==> Toks() == [] || !Ends(Toks())
        decreases |line| - pos, !done
      {
        var found, tok := Gettoken();
        if !found {
          break;
        }
        if !tok.Word? {
          return false, r;
        }
        r := AddArg(r, tok.w);
        argc := argc + 1;
        if argc >= MAXARGS {
          return false, r;
        }
        ok, r := ParseRedirs(r);
        if !ok {
          return;
        }
        done := Peek("|)&;");
        FirstChar(line, pos);
      }
      ok := true;
    }

    method ParseBlock() returns (ok: bool, r: Cmd<Span>)
      requires Valid() && Toks() != [] && Toks()[0].Open?
      modifies this
      ensures Valid() && pos >= old(pos)
      ensures var spec := ShellSyntax.ParseBlock(old(Toks()));
              if ok then spec == Ok(r, Toks()) else spec == Fail
      decreases |line| - pos, 0
    {
      hide Lex, TokenAt, ShellSyntax.ParseRedirs, ShellSyntax.ParseLine;
      var found, tok := Gettoken();
      ok, r := ParseLine();
      if !ok {
        return;
      }
      var close := Peek(")");
      FirstChar(line, pos);
      if !close {
        return false, r;
      }
      found, tok := Gettoken();
      ok, r := ParseRedirs(r);
    }

    method ParsePipe() returns (ok: bool, r: Cmd<Span>)
      requires Valid()
      modifies this
      ensures Valid() && pos >= old(pos)
      ensures var spec := ShellSyntax.ParsePipe(old(Toks()));
              if ok then spec == Ok(r, Toks()) else spec == Fail
      decreases |line| - pos, 2
    {
      hide Lex, TokenAt, ShellSyntax.ParseExec;
      ok, r := ParseExec();
      if !ok {
        return;
      }
      var bar := Peek("|");
      FirstChar(line, pos);
      if bar {
        var found, tok := Gettoken();
        var right;
        ok, right := ParsePipe();
        r := Pipe(r, right);
      }
    }

    method ParseLine() returns (ok: bool, r: Cmd<Span>)
      requires Valid()
      modifies this
      ensures Valid() && pos >= old(pos)
      ensures var spec := ShellSyntax.ParseLine(old(Toks()));
              if ok then spec == Ok(r, Toks()) else spec == Fail
      decreases |line| - pos, 4
    {
      hide Lex, TokenAt, ShellSyntax.ParsePipe;
      ok, r := ParsePipe();
      if !ok {
        return;
      }
      ghost var spec := Amps(r, Toks());
      var amp := Peek("&");
      FirstChar(line, pos);
      while amp
        invariant Valid() && pos >= old(pos) && Amps(r, Toks()) == spec
        invariant amp <==> Toks() != [] && Toks()[0].Amp?
        decreases |line| - pos
      {
        var found, tok := Gettoken();
        r := Back(r);
        amp := Peek("&");
        FirstChar(line, pos);
      }
      var semi := Peek(";");
      FirstChar(line, pos);
      if semi {
        var found, tok := Gettoken();
        var right;
        ok, right := ParseLine();
        r := Seq(r, right);
      }
    }

    /** parsecmd without nulterminate. It ends on every line, and answers what the
        grammar says. */
    method ParseCmd() returns (ok: bool, r: Cmd<Span>)
      requires pos == 0
      modifies this
      ensures var spec := ShellSyntax.ParseCmd(Lex(line, 0));
              if ok then spec == Ok(r, []) && TreeLexed(line, r) else spec == Fail
    {
      hide Lex, TokenAt, ShellSyntax.ParseLine;
      ok, r := ParseLine();
      if !ok {
        return;
      }
      var more := Peek("");
      FirstChar(line, pos);
      if pos != |line| {
        return false, r;
      }
      LexLexes(line, 0);
      LineKeeps(line, Lex(line, 0));
    }
  }

  // nulterminate.

  /** The line with a NUL behind every word of the tree. */
  function Terminated(b: seq<char>, c: Cmd<Span>): (r: seq<char>)
    ensures |r| == |b|
    decreases c
  {
    match c
    case Exec(args) => TerminatedArgs(b, args)
    case Redir(d, f, _) => Put(Terminated(b, d), f.to)
    case Pipe(l, r) => Terminated(Terminated(b, l), r)
    case Seq(l, r) => Terminated(Terminated(b, l), r)
    case Back(d) => Terminated(b, d)
  }

  function TerminatedArgs(b: seq<char>, args: seq<Span>): (r: seq<char>)
    ensures |r| == |b|
  {
    if args == [] then b else Put(TerminatedArgs(b, args[..|args| - 1]), args[|args| - 1].to)
  }

  function Put(b: seq<char>, k: nat): (r: seq<char>)
    ensures |r| == |b|
  {
    if k < |b| then b[k := NUL] else b
  }

  predicate Within(c: Cmd<Span>, n: nat) {
    match c
    case Exec(args) => forall i :: 0 <= i < |args| ==> args[i].to < n
    case Redir(d, f, _) => Within(d, n) && f.to < n
    case Pipe(l, r) => Within(l, n) && Within(r, n)
    case Seq(l, r) => Within(l, n) && Within(r, n)
    case Back(d) => Within(d, n)
  }

  method Nulterminate(b: array<char>, c: Cmd<Span>)
    requires Within(c, b.Length)
    modifies b
    ensures b[..] == Terminated(old(b[..]), c)
  {
    match c
    case Exec(args) =>
      var i := 0;
      while i < |args|
        invariant 0 <= i <= |args| && b[..] == TerminatedArgs(old(b[..]), args[..i])
      {
        b[args[i].to] := NUL;
        assert args[..i + 1][..i] == args[..i];
        i := i + 1;
      }
      assert args[..i] == args;
    case Redir(d, f, _) =>
      Nulterminate(b, d);
      b[f.to] := NUL;
    case Pipe(l, r) =>
      Nulterminate(b, l);
      Nulterminate(b, r);
    case Seq(l, r) =>
      Nulterminate(b, l);
      Nulterminate(b, r);
    case Back(d) =>
      Nulterminate(b, d);
  }

  /** b begins with the line s, with some characters that are not of words made NUL. */
  ghost predicate Cut(s: string, b: seq<char>) {
    && |b| > |s| && b[|s|] == NUL
    && forall k :: 0 <= k < |s| ==> b[k] == s[k] || (b[k] == NUL && !WordChar(s[k]))
  }

  predicate Contains(c: Cmd<Span>, w: Span) {
    match c
    case Exec(args) => w in args
    case Redir(d, f, _) => Contains(d, w) || w == f
    case Pipe(l, r) => Contains(l, w) || Contains(r, w)
    case Seq(l, r) => Contains(l, w) || Contains(r, w)
    case Back(d) => Contains(d, w)
  }

  lemma {:induction false} ArgsCut(s: string, b: seq<char>, args: seq<Span>)
    requires Cut(s, b) && forall i :: 0 <= i < |args| ==> Lexed(s, args[i])
    ensures Cut(s, TerminatedArgs(b, args))
    ensures forall k :: 0 <= k <= |s| && b[k] == NUL ==> TerminatedArgs(b, args)[k] == NUL
    ensures forall k :: |s| < k < |b| ==> TerminatedArgs(b, args)[k] == b[k]
    ensures forall i :: 0 <= i < |args| ==> args[i].to < |b| && TerminatedArgs(b, args)[args[i].to] == NUL
  {
    if args != [] {
      ArgsCut(s, b, args[..|args| - 1]);
    }
  }

  lemma {:induction false} TerminatedCut(s: string, b: seq<char>, c: Cmd<Span>)
    requires Cut(s, b) && TreeLexed(s, c)
    ensures Cut(s, Terminated(b, c))
    ensures forall k :: 0 <= k <= |s| && b[k] == NUL ==> Terminated(b, c)[k] == NUL
    ensures forall k :: |s| < k < |b| ==> Terminated(b, c)[k] == b[k]
    ensures forall w :: Contains(c, w) ==> Lexed(s, w) && Terminated(b, c)[w.to] == NUL
    decreases c
  {
    match c
    case Exec(args) => ArgsCut(s, b, args);
    case Redir(d, f, _) => TerminatedCut(s, b, d);
    case Pipe(l, r) =>
      TerminatedCut(s, b, l);
      TerminatedCut(s, Terminated(b, l), r);
    case Seq(l, r) =>
      TerminatedCut(s, b, l);
      TerminatedCut(s, Terminated(b, l), r);
    case Back(d) => TerminatedCut(s, b, d);
  }

  /** The C string at p: up to the first NUL. */
  function CString(b: seq<char>, p: nat): string
    requires p < |b|
    decreases |b| - p
  {
    if b[p] == NUL || p + 1 == |b| then [] else [b[p]] + CString(b, p + 1)
  }

  lemma {:induction false} CStringIs(b: seq<char>, p: nat, q: nat)
    requires p <= q < |b| && b[q] == NUL && forall k :: p <= k < q ==> b[k] != NUL
    ensures CString(b, p) == b[p..q]
    decreases q - p
  {
    if p < q {
      CStringIs(b, p + 1, q);
      assert b[p..q] == [b[p]] + b[p + 1..q];
    }
  }

  /** After nulterminate every argument and file name reads as exactly its own token,
      also where the next symbol follows it without a blank. */
  lemma WordsReadBack(s: string, b: seq<char>, c: Cmd<Span>, w: Span)
    requires TreeLexed(s, c) && Contains(c, w) && (forall k :: 0 <= k < |s| ==> s[k] != NUL)
    requires |b| > |s| && b[..|s|] == s && b[|s|] == NUL
    ensures w.from < |s| && CString(Terminated(b, c), w.from) == Text(s, w)
  {
    assert forall k :: 0 <= k < |s| ==> b[k] == b[..|s|][k];
    TerminatedCut(s, b, c);
    var t := Terminated(b, c);
    CStringIs(t, w.from, w.to);
    assert t[w.from..w.to] == s[w.from..w.to];
  }

  lemma {:induction false} LexedWithin(s: string, c: Cmd<Span>)
    requires TreeLexed(s, c)
    ensures Within(c, |s| + 1)
  {
    match c
    case Exec(args) =>
    case Redir(d, f, _) => LexedWithin(s, d);
    case Pipe(l, r) =>
      LexedWithin(s, l);
      LexedWithin(s, r);
    case Seq(l, r) =>
      LexedWithin(s, l);
      LexedWithin(s, r);
    case Back(d) => LexedWithin(s, d);
  }

  lemma {:induction false} WithinMore(c: Cmd<Span>, n: nat, m: nat)
    requires Within(c, n) && n <= m
    ensures Within(c, m)
  {
    match c
    case Exec(args) =>
    case Redir(d, f, _) => WithinMore(d, n, m);
    case Pipe(l, r) =>
      WithinMore(l, n, m);
      WithinMore(r, n, m);
    case Seq(l, r) =>
      WithinMore(l, n, m);
      WithinMore(r, n, m);
    case Back(d) => WithinMore(d, n, m);
  }

  // The tree as runcmd reads it: each word is the C string at its first character.

  function ReadWord(b: seq<char>, w: Span): string {
    if w.from < |b| then CString(b, w.from) else []
  }

  function ReadWords(b: seq<char>, ws: seq<Span>): (r: seq<string>)
    ensures |r| == |ws| && forall i :: 0 <= i < |ws| ==> r[i] == ReadWord(b, ws[i])
  {
    if ws == [] then [] else [ReadWord(b, ws[0])] + ReadWords(b, ws[1..])
  }

  function ReadTree(b: seq<char>, c: Cmd<Span>): Cmd<string> {
    match c
    case Exec(args) => Exec(ReadWords(b, args))
    case Redir(d, f, out) => Redir(ReadTree(b, d), ReadWord(b, f), out)
    case Pipe(l, r) => Pipe(ReadTree(b, l), ReadTree(b, r))
    case Seq(l, r) => Seq(ReadTree(b, l), ReadTree(b, r))
    case Back(d) => Back(ReadTree(b, d))
  }

  lemma {:induction false} TreesAgree(s: string, b: seq<char>, c: Cmd<Span>)
    requires forall w :: Contains(c, w) ==> ReadWord(b, w) == Text(s, w)
    ensures ReadTree(b, c) == TreeOf(s, c)
  {
    match c
    case Exec(args) =>
      forall i | 0 <= i < |args|
        ensures ReadWord(b, args[i]) == Text(s, args[i])
      {
        assert Contains(c, args[i]);
      }
      assert ReadWords(b, args) == WordTexts(s, args);
    case Redir(d, f, _) =>
      assert forall w :: Contains(d, w) ==> Contains(c, w);
      assert Contains(c, f);
      TreesAgree(s, b, d);
    case Pipe(l, r) =>
      assert forall w :: Contains(l, w) || Contains(r, w) ==> Contains(c, w);
      TreesAgree(s, b, l);
      TreesAgree(s, b, r);
    case Seq(l, r) =>
      assert forall w :: Contains(l, w) || Contains(r, w) ==> Contains(c, w);
      TreesAgree(s, b, l);
      TreesAgree(s, b, r);
    case Back(d) =>
      assert forall w :: Contains(d, w) ==> Contains(c, w);
      TreesAgree(s, b, d);
  }

  /** The line in a buffer: up to the first NUL. */
  ghost predicate Holds(b: seq<char>, s: string) {
    |b| > |s| && b[..|s|] == s && b[|s|] == NUL && forall k :: 0 <= k < |s| ==> s[k] != NUL
  }

  method Strlen(b: array<char>) returns (n: nat)
    requires NUL in b[..]
    ensures n < b.Length && Holds(b[..], b[..n])
  {
    n := 0;
    while b[n] != NUL
      invariant n < b.Length && (forall k :: 0 <= k < n ==> b[k] != NUL) && NUL in b[n..]
      decreases b.Length - n
    {
      assert b[n..] == [b[n]] + b[n + 1..];
      n := n + 1;
    }
  }

  lemma ReadBack(s: string, b: seq<char>, c: Cmd<Span>)
    requires TreeLexed(s, c) && Holds(b, s)
    ensures ReadTree(Terminated(b, c), c) == TreeOf(s, c)
  {
    var t := Terminated(b, c);
    forall w | Contains(c, w)
      ensures ReadWord(t, w) == Text(s, w)
    {
      WordsReadBack(s, b, c, w);
    }
    TreesAgree(s, t, c);
  }

  /** parsecmd on a buffer. It answers what the grammar says of the line's words: the
      tree, read as runcmd reads it out of the buffer, is the parse of their texts.
      So a printed tree comes back whole. A line it refuses it leaves alone. */
  method ParseBuffer(b: array<char>) returns (ok: bool, r: Cmd<Span>, ghost s: string)
    requires NUL in b[..]
    modifies b
    ensures Holds(old(b[..]), s)
    ensures var spec := ShellSyntax.ParseCmd(Texts(s, Lex(s, 0)));
            if ok then spec == Ok(ReadTree(b[..], r), []) else spec == Fail && b[..] == old(b[..])
    ensures forall t :: WellFormed(t) && GoodTree(t) && s == Unlex(PrintLine(t)) ==> ok && ReadTree(b[..], r) == t
    ensures forall k :: |s| < k < b.Length ==> b[k] == old(b[k])
  {
    hide Lex, ShellSyntax.ParseLine, Unlex, PrintLine, ReadTree, TreeOf, Terminated;
    var n := Strlen(b);
    var p := new Parser(b[..n]);
    s := b[..n];
    LineTexts(s, Lex(s, 0));
    ok, r := p.ParseCmd();
    forall t | WellFormed(t) && GoodTree(t) && s == Unlex(PrintLine(t))
      ensures ok && TreeOf(s, r) == t
    {
      ShellRoundTrip(t);
    }
    if ok {
      LexedWithin(s, r);
      WithinMore(r, |s| + 1, b.Length);
      ReadBack(s, b[..], r);
      KeptBehind(s, b[..], r);
      Nulterminate(b, r);
    }
  }

  lemma KeptBehind(s: string, b: seq<char>, c: Cmd<Span>)
    requires TreeLexed(s, c) && Holds(b, s)
    ensures forall k :: |s| < k < |b| ==> Terminated(b, c)[k] == b[k]
  {
    assert forall k :: 0 <= k < |s| ==> b[k] == b[..|s|][k];
    TerminatedCut(s, b, c);
  }
}
