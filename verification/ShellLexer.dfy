/** From characters to tokens and back, and what the parser does with either. */
module ShellLexer {
  import opened ShellSyntax

  const NUL := '\0'

  predicate Blank(c: char) {
    c == ' ' || c == '\t' || c == '\r' || c == '\n' || c == '\U{B}'
  }

  predicate Symbol(c: char) {
    c == '<' || c == '|' || c == '>' || c == '&' || c == ';' || c == '(' || c == ')'
  }

  predicate WordChar(c: char) {
    !Blank(c) && !Symbol(c)
  }

  /** A word of the line, by its ends. */
  datatype Span = Span(from: nat, to: nat)

  function Skip(s: string, i: nat): (j: nat)
    requires i <= |s|
    ensures i <= j <= |s| && (j < |s| ==> !Blank(s[j])) && forall k :: i <= k < j ==> Blank(s[k])
    decreases |s| - i
  {
    if i < |s| && Blank(s[i]) then Skip(s, i + 1) else i
  }

  function WordEnd(s: string, i: nat): (j: nat)
    requires i <= |s|
    ensures i <= j <= |s| && (j < |s| ==> !WordChar(s[j])) && forall k :: i <= k < j ==> WordChar(s[k])
    decreases |s| - i
  {
    if i < |s| && WordChar(s[i]) then WordEnd(s, i + 1) else i
  }

  /** The token that starts at i, and where it ends. */
  function TokenAt(s: string, i: nat): (r: (Token<Span>, nat))
    requires i < |s| && !Blank(s[i])
    ensures i < r.1 <= |s|
  {
    match s[i]
    case '|' => (Bar, i + 1)
    case '(' => (Open, i + 1)
    case ')' => (Close, i + 1)
    case ';' => (Semi, i + 1)
    case '&' => (Amp, i + 1)
    case '<' => (Less, i + 1)
    case '>' => if i + 1 < |s| && s[i + 1] == '>' then (Append, i + 2) else (More, i + 1)
    case _ => (Word(Span(i, WordEnd(s, i))), WordEnd(s, i))
  }

  function Lex(s: string, i: nat): seq<Token<Span>>
    requires i <= |s|
    decreases |s| - i
  {
    var j := Skip(s, i);
    if j == |s| then [] else [TokenAt(s, j).0] + Lex(s, TokenAt(s, j).1)
  }

  // Words by their text.

  predicate Fits(s: string, w: Span) {
    w.from <= w.to <= |s|
  }

  function Text(s: string, w: Span): string {
    if Fits(s, w) then s[w.from..w.to] else []
  }

  function TextOf(s: string, t: Token<Span>): Token<string> {
    match t
    case Word(w) => Word(Text(s, w))
    case Bar => Bar
    case Open => Open
    case Close => Close
    case Semi => Semi
    case Amp => Amp
    case Less => Less
    case More => More
    case Append => Append
  }

  function Texts(s: string, ts: seq<Token<Span>>): (r: seq<Token<string>>)
    ensures |r| == |ts| && forall i :: 0 <= i < |ts| ==> r[i] == TextOf(s, ts[i])
  {
    if ts == [] then [] else [TextOf(s, ts[0])] + Texts(s, ts[1..])
  }

  function WordTexts(s: string, ws: seq<Span>): (r: seq<string>)
    ensures |r| == |ws| && forall i :: 0 <= i < |ws| ==> r[i] == Text(s, ws[i])
  {
    if ws == [] then [] else [Text(s, ws[0])] + WordTexts(s, ws[1..])
  }

  /** The tree with each word read out of the line. */
  function TreeOf(s: string, c: Cmd<Span>): Cmd<string> {
    match c
    case Exec(args) => Exec(WordTexts(s, args))
    case Redir(d, f, out) => Redir(TreeOf(s, d), Text(s, f), out)
    case Pipe(l, r) => Pipe(TreeOf(s, l), TreeOf(s, r))
    case Seq(l, r) => Seq(TreeOf(s, l), TreeOf(s, r))
    case Back(d) => Back(TreeOf(s, d))
  }

  function ResultOf(s: string, r: Result<Span>): Result<string> {
    match r
    case Fail => Fail
    case Ok(c, ts) => Ok(TreeOf(s, c), Texts(s, ts))
  }

  // The parser looks only at what kind of token it has.

  lemma TextsTail(s: string, ts: seq<Token<Span>>, k: nat)
    requires k <= |ts|
    ensures Texts(s, ts)[k..] == Texts(s, ts[k..])
  {
  }

  lemma RedirText(s: string, c: Cmd<Span>, f: Span, out: bool)
    ensures TreeOf(s, Redir(c, f, out)) == Redir(TreeOf(s, c), Text(s, f), out)
  {
  }

  lemma {:induction false} RedirsTexts(s: string, c: Cmd<Span>, ts: seq<Token<Span>>)
    ensures ParseRedirs(TreeOf(s, c), Texts(s, ts)) == ResultOf(s, ParseRedirs(c, ts))
    decreases |ts|
  {
    hide TreeOf;
    if ts != [] && IsRedir(ts[0]) && |ts| > 1 && ts[1].Word? {
      TextsTail(s, ts, 2);
      assert TreeOf(s, Redir(c, ts[1].w, !ts[0].Less?)) == Redir(TreeOf(s, c), Text(s, ts[1].w), !ts[0].Less?) by {
        RedirText(s, c, ts[1].w, !ts[0].Less?);
      }
      RedirsTexts(s, Redir(c, ts[1].w, !ts[0].Less?), ts[2..]);
    }
  }

  lemma {:induction false} AddArgTexts(s: string, c: Cmd<Span>, w: Span)
    ensures TreeOf(s, AddArg(c, w)) == AddArg(TreeOf(s, c), Text(s, w))
  {
    match c
    case Exec(args) => assert WordTexts(s, args + [w]) == WordTexts(s, args) + [Text(s, w)];
    case Redir(d, f, o) => AddArgTexts(s, d, w);
    case _ =>
  }

  lemma {:induction false} ArgsTexts(s: string, c: Cmd<Span>, argc: nat, ts: seq<Token<Span>>)
    ensures ParseArgs(TreeOf(s, c), argc, Texts(s, ts)) == ResultOf(s, ParseArgs(c, argc, ts))
    decreases |ts|
  {
    hide ParseRedirs, AddArg;
    if !Ends(ts) && ts[0].Word? && argc + 1 < MAXARGS {
      TextsTail(s, ts, 1);
      AddArgTexts(s, c, ts[0].w);
      RedirsTexts(s, AddArg(c, ts[0].w), ts[1..]);
      var r := ParseRedirs(AddArg(c, ts[0].w), ts[1..]);
      if r.Ok? {
        ArgsTexts(s, r.cmd, argc + 1, r.rest);
      }
    }
  }

  lemma {:induction false} ExecTexts(s: string, ts: seq<Token<Span>>)
    ensures ParseExec(Texts(s, ts)) == ResultOf(s, ParseExec(ts))
    decreases |ts|, 1
  {
    if ts != [] && ts[0].Open? {
      BlockTexts(s, ts);
    } else {
      assert TreeOf(s, Exec([])) == Exec([]);
      RedirsTexts(s, Exec([]), ts);
      var r := ParseRedirs(Exec([]), ts);
      if r.Ok? {
        ArgsTexts(s, r.cmd, 0, r.rest);
      }
    }
  }

  lemma {:induction false} BlockTexts(s: string, ts: seq<Token<Span>>)
    requires ts != [] && ts[0].Open?
    ensures ParseBlock(Texts(s, ts)) == ResultOf(s, ParseBlock(ts))
    decreases |ts|, 0
  {
    hide ParseLine, ParseRedirs;
    TextsTail(s, ts, 1);
    LineTexts(s, ts[1..]);
    var r := ParseLine(ts[1..]);
    if r.Ok? && r.rest != [] {
      TextsTail(s, r.rest, 1);
      RedirsTexts(s, r.cmd, r.rest[1..]);
    }
  }

  lemma {:induction false} PipeTexts(s: string, ts: seq<Token<Span>>)
    ensures ParsePipe(Texts(s, ts)) == ResultOf(s, ParsePipe(ts))
    decreases |ts|, 2
  {
    hide ParseExec;
    ExecTexts(s, ts);
    var l := ParseExec(ts);
    if l.Ok? && l.rest != [] && l.rest[0].Bar? {
      TextsTail(s, l.rest, 1);
      PipeTexts(s, l.rest[1..]);
    }
  }

  lemma {:induction false} AmpsTexts(s: string, c: Cmd<Span>, ts: seq<Token<Span>>)
    ensures Amps(TreeOf(s, c), Texts(s, ts)) == ResultOf(s, Amps(c, ts))
    decreases |ts|
  {
    if ts != [] && ts[0].Amp? {
      TextsTail(s, ts, 1);
      AmpsTexts(s, Back(c), ts[1..]);
    }
  }

  lemma {:induction false} BackTexts(s: string, ts: seq<Token<Span>>)
    ensures ParseBack(Texts(s, ts)) == ResultOf(s, ParseBack(ts))
    decreases |ts|, 3
  {
    hide ParsePipe, Amps;
    PipeTexts(s, ts);
    var p := ParsePipe(ts);
    if p.Ok? {
      AmpsTexts(s, p.cmd, p.rest);
    }
  }

  lemma {:induction false} LineTexts(s: string, ts: seq<Token<Span>>)
    ensures ParseLine(Texts(s, ts)) == ResultOf(s, ParseLine(ts))
    decreases |ts|, 4
  {
    hide ParseBack;
    BackTexts(s, ts);
    var l := ParseBack(ts);
    if l.Ok? && l.rest != [] && l.rest[0].Semi? {
      TextsTail(s, l.rest, 1);
      LineTexts(s, l.rest[1..]);
    }
  }

  // Printing characters.

  predicate GoodWord(w: string) {
    w != [] && forall k :: 0 <= k < |w| ==> WordChar(w[k])
  }

  predicate GoodTokens(ts: seq<Token<string>>) {
    forall i :: 0 <= i < |ts| && ts[i].Word? ==> GoodWord(ts[i].w)
  }

  function Spell(t: Token<string>): string {
    match t
    case Word(w) => w
    case Bar => "|"
    case Open => "("
    case Close => ")"
    case Semi => ";"
    case Amp => "&"
    case Less => "<"
    case More => ">"
    case Append => ">>"
  }

  /** Tokens spelled with a blank before each. */
  function Unlex(ts: seq<Token<string>>): string {
    if ts == [] then "" else [' '] + Spell(ts[0]) + Unlex(ts[1..])
  }

  /** A token spelled at i and followed by a blank or the end is the token there. */
  lemma TokenSpelled(s: string, i: nat, t: Token<string>)
    requires t.Word? ==> GoodWord(t.w)
    requires i + |Spell(t)| <= |s| && s[i..i + |Spell(t)|] == Spell(t)
    requires i + |Spell(t)| == |s| || s[i + |Spell(t)|] == ' '
    ensures i < |s| && !Blank(s[i]) && TokenAt(s, i).1 == i + |Spell(t)|
    ensures TextOf(s, TokenAt(s, i).0) == t
  {
    var w := Spell(t);
    assert forall k :: 0 <= k < |w| ==> s[i + k] == w[k];
    assert s[i] == w[0];
    if t.Word? {
      forall k | i <= k < i + |w|
        ensures WordChar(s[k])
      {
        assert s[k] == w[k - i];
      }
      assert WordEnd(s, i) == i + |w|;
    } else if t.Append? {
      assert s[i + 1] == w[1];
    }
  }

  lemma {:induction false} LexUndoesUnlex(s: string, i: nat, ts: seq<Token<string>>)
    requires i <= |s| && s[i..] == Unlex(ts) && GoodTokens(ts)
    ensures Texts(s, Lex(s, i)) == ts
    decreases |ts|
  {
    hide Spell, TokenAt, GoodWord, Unlex, Lex, Texts, TextOf, Blank;
    UnlexSplit(s, i, ts);
    if ts == [] {
      LexEnd(s);
    } else {
      TokenSpelled(s, i + 1, ts[0]);
      LexStep(s, i);
      LexUndoesUnlex(s, i + 1 + |Spell(ts[0])|, ts[1..]);
      HeadTail(ts);
    }
  }

  lemma HeadTail<T>(ts: seq<T>)
    requires ts != []
    ensures ts == [ts[0]] + ts[1..]
  {
  }

  lemma LexEnd(s: string)
    ensures Texts(s, Lex(s, |s|)) == []
  {
  }

  lemma LexStep(s: string, i: nat)
    requires i + 1 < |s| && s[i] == ' ' && !Blank(s[i + 1])
    ensures var r := TokenAt(s, i + 1);
            Texts(s, Lex(s, i)) == [TextOf(s, r.0)] + Texts(s, Lex(s, r.1))
  {
    assert Skip(s, i) == i + 1;
  }

  lemma Slices(s: string, i: nat, a: string, b: string)
    requires i <= |s| && s[i..] == a + b
    ensures i + |a| <= |s| && s[i..i + |a|] == a && s[i + |a|..] == b
  {
    assert s[i..i + |a|] == s[i..][..|a|];
    assert s[i + |a|..] == s[i..][|a|..];
  }

  lemma UnlexSplit(s: string, i: nat, ts: seq<Token<string>>)
    requires i <= |s| && s[i..] == Unlex(ts) && GoodTokens(ts)
    ensures ts == [] ==> i == |s|
    ensures ts != [] ==>
              var w := Spell(ts[0]);
              && w != [] && i + 1 + |w| <= |s| && s[i] == ' ' && s[i + 1..i + 1 + |w|] == w
              && s[i + 1 + |w|..] == Unlex(ts[1..]) && (i + 1 + |w| == |s| || s[i + 1 + |w|] == ' ')
  {
    if ts != [] {
      var w, more := Spell(ts[0]), Unlex(ts[1..]);
      Assoc([' '], w, more);
      Slices(s, i, [' '], w + more);
      assert s[i] == s[i..i + 1][0];
      Slices(s, i + 1, w, more);
      if i + 1 + |w| < |s| {
        assert s[i + 1 + |w|] == s[i + 1 + |w|..][0] == more[0];
        assert ts[1..] != [];
      }
    }
  }

  // Words of a tree.

  predicate GoodTree(t: Cmd<string>) {
    match t
    case Exec(args) => forall i :: 0 <= i < |args| ==> GoodWord(args[i])
    case Redir(c, f, _) => GoodTree(c) && GoodWord(f)
    case Pipe(l, r) => GoodTree(l) && GoodTree(r)
    case Seq(l, r) => GoodTree(l) && GoodTree(r)
    case Back(c) => GoodTree(c)
  }

  lemma {:induction false} PrintGood(t: Cmd<string>)
    requires GoodTree(t)
    ensures GoodTokens(PrintExec(t)) && GoodTokens(PrintPipe(t)) && GoodTokens(PrintBack(t)) && GoodTokens(PrintLine(t))
  {
    match t
    case Exec(args) =>
    case Redir(c, f, out) => PrintGood(c);
    case Pipe(l, r) =>
      PrintGood(l);
      PrintGood(r);
    case Seq(l, r) =>
      PrintGood(l);
      PrintGood(r);
    case Back(c) => PrintGood(c);
  }

  /** The shell's promise: a tree printed as a line of text, then lexed and parsed,
      is the same tree. */
  lemma ShellRoundTrip(t: Cmd<string>)
    requires WellFormed(t) && GoodTree(t)
    ensures var s := Unlex(PrintLine(t));
            var r := ParseCmd(Lex(s, 0));
            r.Ok? && r.rest == [] && TreeOf(s, r.cmd) == t
  {
    var s := Unlex(PrintLine(t));
    PrintGood(t);
    assert s[0..] == s;
    LexUndoesUnlex(s, 0, PrintLine(t));
    ParseUndoesPrint(t);
    LineTexts(s, Lex(s, 0));
  }

  // Terminating the words in place.

  /** A word that the lexer made: word characters, and none right behind it. */
  predicate Lexed(s: string, w: Span) {
    && w.from < w.to <= |s| && (forall k :: w.from <= k < w.to ==> WordChar(s[k]))
    && (w.to < |s| ==> !WordChar(s[w.to]))
  }

  predicate AllLexed(s: string, ts: seq<Token<Span>>) {
    forall i :: 0 <= i < |ts| && ts[i].Word? ==> Lexed(s, ts[i].w)
  }

  predicate TreeLexed(s: string, c: Cmd<Span>) {
    match c
    case Exec(args) => forall i :: 0 <= i < |args| ==> Lexed(s, args[i])
    case Redir(d, f, _) => TreeLexed(s, d) && Lexed(s, f)
    case Pipe(l, r) => TreeLexed(s, l) && TreeLexed(s, r)
    case Seq(l, r) => TreeLexed(s, l) && TreeLexed(s, r)
    case Back(d) => TreeLexed(s, d)
  }

  lemma {:induction false} LexLexes(s: string, i: nat)
    requires i <= |s|
    ensures AllLexed(s, Lex(s, i))
    decreases |s| - i
  {
    var j := Skip(s, i);
    if j < |s| {
      LexLexes(s, TokenAt(s, j).1);
    }
  }

  predicate Keeps(s: string, r: Result<Span>) {
    r.Ok? ==> TreeLexed(s, r.cmd) && AllLexed(s, r.rest)
  }

  lemma {:induction false} RedirsKeep(s: string, c: Cmd<Span>, ts: seq<Token<Span>>)
    requires TreeLexed(s, c) && AllLexed(s, ts)
    ensures Keeps(s, ParseRedirs(c, ts))
    decreases |ts|
  {
    if ts != [] && IsRedir(ts[0]) && |ts| > 1 && ts[1].Word? {
      RedirsKeep(s, Redir(c, ts[1].w, !ts[0].Less?), ts[2..]);
    }
  }

  lemma {:induction false} AddArgKeeps(s: string, c: Cmd<Span>, w: Span)
    requires TreeLexed(s, c) && Lexed(s, w)
    ensures TreeLexed(s, AddArg(c, w))
  {
    if c.Redir? {
      AddArgKeeps(s, c.cmd, w);
    }
  }

  lemma {:induction false} ArgsKeep(s: string, c: Cmd<Span>, argc: nat, ts: seq<Token<Span>>)
    requires TreeLexed(s, c) && AllLexed(s, ts)
    ensures Keeps(s, ParseArgs(c, argc, ts))
    decreases |ts|
  {
    if !Ends(ts) && ts[0].Word? && argc + 1 < MAXARGS {
      AddArgKeeps(s, c, ts[0].w);
      RedirsKeep(s, AddArg(c, ts[0].w), ts[1..]);
      var r := ParseRedirs(AddArg(c, ts[0].w), ts[1..]);
      if r.Ok? {
        ArgsKeep(s, r.cmd, argc + 1, r.rest);
      }
    }
  }

  lemma {:induction false} ExecKeeps(s: string, ts: seq<Token<Span>>)
    requires AllLexed(s, ts)
    ensures Keeps(s, ParseExec(ts))
    decreases |ts|, 1
  {
    if ts != [] && ts[0].Open? {
      LineKeeps(s, ts[1..]);
      var r := ParseLine(ts[1..]);
      if r.Ok? && r.rest != [] {
        RedirsKeep(s, r.cmd, r.rest[1..]);
      }
    } else {
      RedirsKeep(s, Exec([]), ts);
      var r := ParseRedirs(Exec([]), ts);
      if r.Ok? {
        ArgsKeep(s, r.cmd, 0, r.rest);
      }
    }
  }

  lemma {:induction false} PipeKeeps(s: string, ts: seq<Token<Span>>)
    requires AllLexed(s, ts)
    ensures Keeps(s, ParsePipe(ts))
    decreases |ts|, 2
  {
    ExecKeeps(s, ts);
    var l := ParseExec(ts);
    if l.Ok? && l.rest != [] && l.rest[0].Bar? {
      PipeKeeps(s, l.rest[1..]);
    }
  }

  lemma {:induction false} AmpsKeep(s: string, c: Cmd<Span>, ts: seq<Token<Span>>)
    requires TreeLexed(s, c) && AllLexed(s, ts)
    ensures Keeps(s, Amps(c, ts))
    decreases |ts|
  {
    if ts != [] && ts[0].Amp? {
      AmpsKeep(s, Back(c), ts[1..]);
    }
  }

  lemma {:induction false} LineKeeps(s: string, ts: seq<Token<Span>>)
    requires AllLexed(s, ts)
    ensures Keeps(s, ParseLine(ts))
    decreases |ts|, 4
  {
    PipeKeeps(s, ts);
    var p := ParsePipe(ts);
    if p.Ok? {
      AmpsKeep(s, p.cmd, p.rest);
    }
    var l := ParseBack(ts);
    if l.Ok? && l.rest != [] && l.rest[0].Semi? {
      LineKeeps(s, l.rest[1..]);
    }
  }
}
