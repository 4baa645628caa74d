/** The shell's grammar over tokens: the recursive-descent parser as functions, and
    a printer that it undoes. W is what stands for a word: its text, or where it is
    in the line. */
module ShellSyntax {

  const MAXARGS := 10

  /** The codes that gettoken returns: 'a' for a word, '+' for >>, else the symbol. */
  datatype Token<W> = Word(w: W) | Bar | Open | Close | Semi | Amp | Less | More | Append

  datatype Cmd<W> =
    | Exec(args: seq<W>)
    | Redir(cmd: Cmd<W>, file: W, out: bool)
    | Pipe(left: Cmd<W>, right: Cmd<W>)
    | Seq(left: Cmd<W>, right: Cmd<W>)
    | Back(cmd: Cmd<W>)

  /** Fail is one of the panics. */
  datatype Result<W> = Fail | Ok(cmd: Cmd<W>, rest: seq<Token<W>>)

  predicate Ends<W>(ts: seq<Token<W>>) {
    ts == [] || ts[0].Bar? || ts[0].Close? || ts[0].Amp? || ts[0].Semi?
  }

  predicate IsRedir<W>(t: Token<W>) {
    t.Less? || t.More? || t.Append?
  }

  // The parser.

  function ParseRedirs<W>(c: Cmd<W>, ts: seq<Token<W>>): (r: Result<W>)
    ensures r.Ok? ==> |r.rest| <= |ts| && (r.rest == [] || !IsRedir(r.rest[0]))
    decreases |ts|
  {
    if ts == [] || !IsRedir(ts[0]) then Ok(c, ts)
    else if |ts| == 1 || !ts[1].Word? then Fail
    else ParseRedirs(Redir(c, ts[1].w, !ts[0].Less?), ts[2..])
  }

  /** c with one more argument in its innermost command: parseexec fills that command
      while redirections wrap it. */
  function AddArg<W>(c: Cmd<W>, w: W): Cmd<W> {
    match c
    case Exec(args) => Exec(args + [w])
    case Redir(d, f, o) => Redir(AddArg(d, w), f, o)
    case _ => c
  }

  /** parseexec's loop; argc arguments so far. */
  function ParseArgs<W>(c: Cmd<W>, argc: nat, ts: seq<Token<W>>): (r: Result<W>)
    ensures r.Ok? ==> |r.rest| <= |ts|
    decreases |ts|
  {
    if Ends(ts) then Ok(c, ts)
    else if !ts[0].Word? || argc + 1 >= MAXARGS then Fail
    else
      var r := ParseRedirs(AddArg(c, ts[0].w), ts[1..]);
      if r.Fail? then Fail else ParseArgs(r.cmd, argc + 1, r.rest)
  }

  function ParseExec<W>(ts: seq<Token<W>>): (r: Result<W>)
    ensures r.Ok? ==> |r.rest| <= |ts|
    decreases |ts|, 1
  {
    if ts != [] && ts[0].Open? then ParseBlock(ts)
    else
      var r := ParseRedirs(Exec([]), ts);
      if r.Fail? then Fail else ParseArgs(r.cmd, 0, r.rest)
  }

  function ParseBlock<W>(ts: seq<Token<W>>): (r: Result<W>)
    requires ts != [] && ts[0].Open?
    ensures r.Ok? ==> |r.rest| <= |ts|
    decreases |ts|, 0
  {
    var r := ParseLine(ts[1..]);
    if r.Fail? || r.rest == [] || !r.rest[0].Close? then Fail else ParseRedirs(r.cmd, r.rest[1..])
  }

  function ParsePipe<W>(ts: seq<Token<W>>): (r: Result<W>)
    ensures r.Ok? ==> |r.rest| <= |ts|
    decreases |ts|, 2
  {
    var l := ParseExec(ts);
    if l.Fail? || l.rest == [] || !l.rest[0].Bar? then l
    else
      var r := ParsePipe(l.rest[1..]);
      if r.Fail? then Fail else Ok(Pipe(l.cmd, r.cmd), r.rest)
  }

  function Amps<W>(c: Cmd<W>, ts: seq<Token<W>>): (r: Result<W>)
    ensures r.Ok? && |r.rest| <= |ts| && (r.rest == [] || !r.rest[0].Amp?)
    decreases |ts|
  {
    if ts == [] || !ts[0].Amp? then Ok(c, ts) else Amps(Back(c), ts[1..])
  }

  /** parseline up to the semicolon. */
  function ParseBack<W>(ts: seq<Token<W>>): (r: Result<W>)
    ensures r.Ok? ==> |r.rest| <= |ts|
    decreases |ts|, 3
  {
    var r := ParsePipe(ts);
    if r.Fail? then Fail else Amps(r.cmd, r.rest)
  }

  function ParseLine<W>(ts: seq<Token<W>>): (r: Result<W>)
    ensures r.Ok? ==> |r.rest| <= |ts|
    decreases |ts|, 4
  {
    var l := ParseBack(ts);
    if l.Fail? || l.rest == [] || !l.rest[0].Semi? then l
    else
      var r := ParseLine(l.rest[1..]);
      if r.Fail? then Fail else Ok(Seq(l.cmd, r.cmd), r.rest)
  }

  /** parsecmd: the whole line, with nothing left over. */
  function ParseCmd<W>(ts: seq<Token<W>>): (r: Result<W>) {
    var r := ParseLine(ts);
    if r.Ok? && r.rest != [] then Fail else r
  }

  // The printer.

  predicate WellFormed<W>(t: Cmd<W>) {
    match t
    case Exec(args) => |args| < MAXARGS
    case Redir(c, _, _) => WellFormed(c)
    case Pipe(l, r) => WellFormed(l) && WellFormed(r)
    case Seq(l, r) => WellFormed(l) && WellFormed(r)
    case Back(c) => WellFormed(c)
  }

  function Words<W>(args: seq<W>): (ts: seq<Token<W>>)
    ensures |ts| == |args| && forall i :: 0 <= i < |ts| ==> ts[i] == Word(args[i])
  {
    if args == [] then [] else [Word(args[0])] + Words(args[1..])
  }

  /** A pipe, list or background command without parentheses around it. */
  function PrintBare<W>(t: Cmd<W>): seq<Token<W>>
    requires t.Pipe? || t.Seq? || t.Back?
    decreases t, 0
  {
    match t
    case Pipe(l, r) => PrintExec(l) + [Bar] + PrintPipe(r)
    case Seq(l, r) => PrintBack(l) + [Semi] + PrintLine(r)
    case Back(c) => PrintBack(c) + [Amp]
  }

  /** Where only a simple command or a block may stand. */
  function PrintExec<W>(t: Cmd<W>): seq<Token<W>>
    decreases t, 1
  {
    match t
    case Exec(args) => Words(args)
    case Redir(c, f, out) => PrintExec(c) + [if out then More else Less, Word(f)]
    case _ => [Open] + PrintBare(t) + [Close]
  }

  function PrintPipe<W>(t: Cmd<W>): seq<Token<W>>
    decreases t, 2
  {
    if t.Pipe? then PrintBare(t) else PrintExec(t)
  }

  function PrintBack<W>(t: Cmd<W>): seq<Token<W>>
    decreases t, 3
  {
    if t.Back? then PrintBare(t) else PrintPipe(t)
  }

  function PrintLine<W>(t: Cmd<W>): seq<Token<W>>
    decreases t, 4
  {
    if t.Seq? then PrintBare(t) else PrintBack(t)
  }

  // The round trip.

  /** The simple command inside the redirections, if that is what is inside. */
  function Core<W>(t: Cmd<W>): Cmd<W> {
    match t
    case Redir(c, _, _) => Core(c)
    case _ => t
  }

  /** What parseexec does behind an argument: redirections, then more arguments. */
  function ParseRest<W>(c: Cmd<W>, argc: nat, ts: seq<Token<W>>): Result<W> {
    var r := ParseRedirs(c, ts);
    if r.Fail? then Fail else ParseArgs(r.cmd, argc, r.rest)
  }

  lemma ArgStep<W>(c: Cmd<W>, argc: nat, w: W, ts: seq<Token<W>>)
    requires argc + 1 < MAXARGS
    ensures ParseRest(c, argc, [Word(w)] + ts) == ParseRest(AddArg(c, w), argc + 1, ts)
  {
    assert ([Word(w)] + ts)[1..] == ts;
  }

  /** Arguments are read one by one; the last hands over to parseredirs. */
  lemma {:induction false} ReadArgs<W>(done: seq<W>, args: seq<W>, rest: seq<Token<W>>)
    requires |done| + |args| < MAXARGS
    ensures ParseRest(Exec(done), |done|, Words(args) + rest) == ParseRest(Exec(done + args), |done| + |args|, rest)
    decreases |args|
  {
    hide ParseRest, Words;
    if args == [] {
      assert Words(args) + rest == rest && done + args == done;
    } else {
      ArgSplit(done, args, rest);
      ArgStep(Exec(done), |done|, args[0], Words(args[1..]) + rest);
      ReadArgs(done + [args[0]], args[1..], rest);
    }
  }

  lemma ArgSplit<W>(done: seq<W>, args: seq<W>, rest: seq<Token<W>>)
    requires args != []
    ensures Words(args) + rest == [Word(args[0])] + (Words(args[1..]) + rest)
    ensures done + [args[0]] + args[1..] == done + args
  {
    Assoc([Word(args[0])], Words(args[1..]), rest);
    Assoc(done, [args[0]], args[1..]);
    assert [args[0]] + args[1..] == args;
  }

  lemma Assoc<T>(a: seq<T>, b: seq<T>, c: seq<T>)
    ensures a + b + c == a + (b + c)
  {
  }

  /** The redirections of t around its core, as tokens. */
  function RedirToks<W>(t: Cmd<W>): seq<Token<W>> {
    match t
    case Redir(c, f, out) => RedirToks(c) + [if out then More else Less, Word(f)]
    case _ => []
  }

  lemma {:induction false} PrintSplits<W>(t: Cmd<W>)
    ensures PrintExec(t) == PrintExec(Core(t)) + RedirToks(t)
  {
    if t.Redir? {
      PrintSplits(t.cmd);
    }
  }

  /** parseredirs rebuilds the redirections around the core. */
  lemma {:induction false} ReadRedirs<W>(t: Cmd<W>, rest: seq<Token<W>>)
    ensures ParseRedirs(Core(t), RedirToks(t) + rest) == ParseRedirs(t, rest)
  {
    match t
    case Redir(c, f, out) =>
      var last := [if out then More else Less, Word(f)];
      assert RedirToks(t) + rest == RedirToks(c) + (last + rest);
      ReadRedirs(c, last + rest);
      assert (last + rest)[2..] == rest;
    case _ =>
      assert RedirToks(t) + rest == rest;
  }

  lemma ReadExec<W>(t: Cmd<W>, rest: seq<Token<W>>)
    requires WellFormed(t) && Ends(rest)
    ensures ParseExec(PrintExec(t) + rest) == Ok(t, rest)
    decreases t, 1
  {
    hide ParseExec, ParseBlock, ParseLine, PrintExec, PrintBare, RedirToks, Words, WellFormed;
    PrintSplits(t);
    CoreWellFormed(t);
    var core, redirs := Core(t), RedirToks(t);
    assert PrintExec(t) + rest == PrintExec(core) + (redirs + rest);
    ReadRedirs(t, rest);
    if core.Exec? {
      ReadSimple(t, core.args, redirs + rest, rest);
    } else {
      ReadLineBare(core, [Close] + (redirs + rest));
      ReadParens(core, t, redirs + rest, rest);
    }
  }

  lemma ReadSimple<W>(t: Cmd<W>, args: seq<W>, more: seq<Token<W>>, rest: seq<Token<W>>)
    requires |args| < MAXARGS && Ends(rest) && (more == [] || !more[0].Open?)
    requires ParseRedirs(Exec(args), more) == Ok(t, rest)
    ensures PrintExec(Exec(args)) == Words(args) && ParseExec(Words(args) + more) == Ok(t, rest)
  {
    hide ParseRedirs;
    ReadArgs([], args, more);
    assert [] + args == args;
  }

  lemma ReadParens<W>(core: Cmd<W>, t: Cmd<W>, more: seq<Token<W>>, rest: seq<Token<W>>)
    requires core.Pipe? || core.Seq? || core.Back?
    requires ParseLine(PrintBare(core) + ([Close] + more)) == Ok(core, [Close] + more)
    requires ParseRedirs(core, more) == Ok(t, rest)
    ensures ParseExec(PrintExec(core) + more) == Ok(t, rest)
  {
    hide ParseRedirs, ParseLine, PrintBare;
    var ts := PrintExec(core) + more;
    assert ts[0] == Open && ts[1..] == PrintBare(core) + ([Close] + more);
    assert ([Close] + more)[1..] == more;
  }

  lemma CoreWellFormed<W>(t: Cmd<W>)
    requires WellFormed(t)
    ensures WellFormed(Core(t)) && !Core(t).Redir?
    ensures Core(t) == t || Core(t) < t
    ensures Core(t).Exec? ==> |Core(t).args| < MAXARGS
    ensures RedirToks(t) == [] || IsRedir(RedirToks(t)[0])
  {
  }

  lemma JoinPipe<W>(l: Cmd<W>, r: Cmd<W>, a: seq<Token<W>>, b: seq<Token<W>>, rest: seq<Token<W>>)
    requires ParseExec(a + ([Bar] + b)) == Ok(l, [Bar] + b) && ParsePipe(b) == Ok(r, rest)
    ensures ParsePipe(a + ([Bar] + b)) == Ok(Pipe(l, r), rest)
  {
    hide ParseExec;
    assert ([Bar] + b)[1..] == b;
  }

  lemma JoinSeq<W>(l: Cmd<W>, r: Cmd<W>, a: seq<Token<W>>, b: seq<Token<W>>, rest: seq<Token<W>>)
    requires ParseBack(a + ([Semi] + b)) == Ok(l, [Semi] + b) && ParseLine(b) == Ok(r, rest)
    ensures ParseLine(a + ([Semi] + b)) == Ok(Seq(l, r), rest)
  {
    hide ParseBack;
    assert ([Semi] + b)[1..] == b;
  }

  lemma PipeIsLine<W>(t: Cmd<W>, ts: seq<Token<W>>, rest: seq<Token<W>>)
    requires ParsePipe(ts) == Ok(t, rest)
    ensures ParseBack(ts) == Amps(t, rest)
    ensures rest == [] || rest[0].Close? ==> ParseLine(ts) == Ok(t, rest)
  {
    hide ParsePipe;
  }

  lemma ReadPipe<W>(t: Cmd<W>, rest: seq<Token<W>>)
    requires WellFormed(t) && Ends(rest) && (rest == [] || !rest[0].Bar?)
    ensures ParsePipe(PrintPipe(t) + rest) == Ok(t, rest)
    decreases t, 2
  {
    hide ParseExec, PrintExec;
    if t.Pipe? {
      var more := PrintPipe(t.right) + rest;
      assert PrintPipe(t) + rest == PrintExec(t.left) + ([Bar] + more);
      ReadExec(t.left, [Bar] + more);
      ReadPipe(t.right, rest);
      JoinPipe(t.left, t.right, PrintExec(t.left), more, rest);
    } else {
      ReadExec(t, rest);
    }
  }

  lemma ReadBack<W>(t: Cmd<W>, rest: seq<Token<W>>)
    requires WellFormed(t) && Ends(rest) && (rest == [] || !rest[0].Bar?)
    ensures ParseBack(PrintBack(t) + rest) == Amps(t, rest)
    decreases t, 3
  {
    hide ParseBack, PrintPipe;
    if t.Back? {
      assert PrintBack(t) + rest == PrintBack(t.cmd) + ([Amp] + rest);
      ReadBack(t.cmd, [Amp] + rest);
      assert ([Amp] + rest)[1..] == rest;
    } else {
      ReadPipe(t, rest);
      PipeIsLine(t, PrintPipe(t) + rest, rest);
    }
  }

  lemma ReadLine<W>(t: Cmd<W>, rest: seq<Token<W>>)
    requires WellFormed(t) && (rest == [] || rest[0].Close?)
    ensures ParseLine(PrintLine(t) + rest) == Ok(t, rest)
    decreases t, 4
  {
    hide ParseBack, PrintBack, PrintBare;
    if t.Seq? {
      ReadLineBare(t, rest);
    } else {
      ReadBack(t, rest);
    }
  }

  lemma ReadLineBare<W>(t: Cmd<W>, rest: seq<Token<W>>)
    requires WellFormed(t) && (t.Pipe? || t.Seq? || t.Back?) && (rest == [] || rest[0].Close?)
    ensures ParseLine(PrintBare(t) + rest) == Ok(t, rest)
    decreases t, 0
  {
    hide ParseExec, ParsePipe, ParseBack, ParseLine, PrintExec, PrintPipe, PrintBack, PrintLine;
    match t
    case Pipe(l, r) =>
      var more := PrintPipe(r) + rest;
      assert PrintBare(t) + rest == PrintExec(l) + ([Bar] + more);
      ReadExec(l, [Bar] + more);
      ReadPipe(r, rest);
      JoinPipe(l, r, PrintExec(l), more, rest);
      PipeIsLine(t, PrintBare(t) + rest, rest);
    case Seq(l, r) =>
      var more := PrintLine(r) + rest;
      assert PrintBare(t) + rest == PrintBack(l) + ([Semi] + more);
      ReadBack(l, [Semi] + more);
      ReadLine(r, rest);
      JoinSeq(l, r, PrintBack(l), more, rest);
    case Back(c) =>
      assert PrintBare(t) + rest == PrintBack(c) + ([Amp] + rest);
      ReadBack(c, [Amp] + rest);
      assert ([Amp] + rest)[1..] == rest;
      BackIsLine(t, PrintBare(t) + rest, rest);
  }

  lemma BackIsLine<W>(t: Cmd<W>, ts: seq<Token<W>>, rest: seq<Token<W>>)
    requires ParseBack(ts) == Ok(t, rest) && (rest == [] || !rest[0].Semi?)
    ensures ParseLine(ts) == Ok(t, rest)
  {
    hide ParseBack;
  }

  /** Every tree with at most nine arguments per command survives printing and
      parsing. */
  lemma ParseUndoesPrint<W>(t: Cmd<W>)
    requires WellFormed(t)
    ensures ParseCmd(PrintLine(t)) == Ok(t, [])
  {
    ReadLine(t, []);
    assert PrintLine(t) + [] == PrintLine(t);
  }
}
