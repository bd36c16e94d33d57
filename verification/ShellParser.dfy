/** The shell's parser (user/sh.c): a cursor over one buffer, recursive descent, and the NULs
    that nulterminate writes into that buffer. */
module ShellParser {
  import opened ShellGrammar

  // ---- tokens of the buffer ----

  predicate IsWhite(c: char) { c == ' ' || c == '\t' || c == '\r' || c == '\n' || c == 11 as char }
  predicate IsSymbol(c: char) { c == '<' || c == '|' || c == '>' || c == '&' || c == ';' || c == '(' || c == ')' }
  predicate IsWordChar(c: char) { !IsWhite(c) && !IsSymbol(c) }

  // A C string of length es at the start of b.
  ghost predicate CString(b: seq<char>, es: nat) {
    es < |b| && b[es] == '\0' && forall i :: 0 <= i < es ==> b[i] != '\0'
  }

  ghost function Skip(b: seq<char>, s: nat, es: nat): (r: nat)
    requires s <= es < |b|
    ensures s <= r <= es && (r < es ==> !IsWhite(b[r]))
    decreases es - s
  {
    if s < es && IsWhite(b[s]) then Skip(b, s + 1, es) else s
  }

  ghost function WordEnd(b: seq<char>, s: nat, es: nat): (r: nat)
    requires s <= es < |b|
    ensures s <= r <= es && (r < es ==> !IsWordChar(b[r])) && forall i :: s <= i < r ==> IsWordChar(b[i])
    decreases es - s
  {
    if s < es && IsWordChar(b[s]) then WordEnd(b, s + 1, es) else s
  }

  // All tokens from s on.
  ghost function Toks(b: seq<char>, s: nat, es: nat): (r: Tokens)
    requires s <= es < |b|
    decreases es - s
  {
    var q := Skip(b, s, es);
    if q >= es then Nil
    else if b[q] == '>' && q + 1 < es && b[q + 1] == '>' then Sym('+', Toks(b, q + 2, es))
    else if IsSymbol(b[q]) then Sym(b[q], Toks(b, q + 1, es))
    else Word(Span(q, WordEnd(b, q, es)), Toks(b, WordEnd(b, q, es), es))
  }

  lemma {:induction false} SkipAgain(b: seq<char>, s: nat, es: nat)
    requires s <= es < |b|
    ensures Skip(b, Skip(b, s, es), es) == Skip(b, s, es) && Toks(b, Skip(b, s, es), es) == Toks(b, s, es)
  {
  }

  // ---- the command of a tree ----

  function ModeOf(op: char): (m: Mode) { if op == '<' then ReadOnly else if op == '>' then Truncate else Append }
  function FdOf(op: char): (n: nat) { if op == '<' then 0 else 1 }

  // One more word for the innermost command.
  function AddArg(c: Cmd, sp: Span): (cmd: Cmd) {
    match c
    case Exec(args) => Exec(args + [sp])
    case Redir(d, file, mode, fd) => Redir(AddArg(d, sp), file, mode, fd)
    case _ => c
  }

  ghost function Fill(c: Cmd, items: Items): (cmd: Cmd)
    decreases items
  {
    match items
    case End => c
    case Arg(sp, more) => Fill(AddArg(c, sp), more)
    case Red(op, sp, more) => Fill(Redir(c, sp, ModeOf(op), FdOf(op)), more)
  }

  ghost function Backs(n: nat, c: Cmd): (cmd: Cmd) {
    if n == 0 then c else Backs(n - 1, Back(c))
  }

  ghost function UnitCmd(u: Unit): (cmd: Cmd) {
    match u
    case Simple(items) => Fill(Exec([]), items)
    case Block(l, reds) => Fill(LineCmd(l), reds)
  }

  ghost function PipeCmd(p: Pipeline): (cmd: Cmd) {
    match p
    case One(u) => UnitCmd(u)
    case Bar(u, q) => Pipe(UnitCmd(u), PipeCmd(q))
  }

  ghost function LineCmd(l: Line): (cmd: Cmd) {
    match l
    case Last(p, n) => Backs(n, PipeCmd(p))
    case Then(p, n, next) => List(Backs(n, PipeCmd(p)), LineCmd(next))
  }

  // ---- the words of a command are those of the line ----

  ghost function WordsOf(ts: Tokens): (ws: multiset<Span>) {
    match ts
    case Nil => multiset{}
    case Word(sp, t) => multiset{sp} + WordsOf(t)
    case Sym(_, t) => WordsOf(t)
  }

  ghost function CmdWords(c: Cmd): (ws: multiset<Span>) {
    match c
    case Exec(args) => multiset(args)
    case Redir(d, file, _, _) => CmdWords(d) + multiset{file}
    case Pipe(l, r) => CmdWords(l) + CmdWords(r)
    case List(l, r) => CmdWords(l) + CmdWords(r)
    case Back(d) => CmdWords(d)
  }

  ghost predicate Fillable(c: Cmd) {
    c.Exec? || (c.Redir? && Fillable(c.cmd))
  }

  lemma {:induction false} AddArgWords(c: Cmd, sp: Span)
    requires Fillable(c)
    ensures Fillable(AddArg(c, sp)) && CmdWords(AddArg(c, sp)) == CmdWords(c) + multiset{sp}
  {
    if c.Redir? {
      AddArgWords(c.cmd, sp);
    } else {
      assert multiset(c.args + [sp]) == multiset(c.args) + multiset{sp};
    }
  }

  lemma {:induction false} FillWords(c: Cmd, items: Items, argc: nat, rest: Tokens)
    requires ItemsOk(items, argc) && (argc > 0 ==> Fillable(c))
    ensures CmdWords(Fill(c, items)) + WordsOf(rest) == CmdWords(c) + WordsOf(ItemYield(items, rest))
    decreases items
  {
    match items
    case End =>
    case Arg(sp, more) =>
      AddArgWords(c, sp);
      FillWords(AddArg(c, sp), more, argc - 1, rest);
    case Red(op, sp, more) =>
      FillWords(Redir(c, sp, ModeOf(op), FdOf(op)), more, argc, rest);
  }

  lemma {:induction false} BacksWords(n: nat, c: Cmd, rest: Tokens)
    ensures CmdWords(Backs(n, c)) == CmdWords(c) && WordsOf(Amps(n, rest)) == WordsOf(rest)
  {
    if n > 0 {
      BacksWords(n - 1, Back(c), rest);
    }
  }

  lemma {:induction false} UnitWords(u: Unit, rest: Tokens)
    requires UnitOk(u)
    ensures WordsOf(UnitYield(u, rest)) == CmdWords(UnitCmd(u)) + WordsOf(rest)
    decreases u, 0
  {
    match u
    case Simple(items) => FillWords(Exec([]), items, MAXARGS - 1, rest);
    case Block(l, reds) =>
      LineWords(l, Sym(')', ItemYield(reds, rest)));
      FillWords(LineCmd(l), reds, 0, rest);
  }

  lemma {:induction false} PipeWords(p: Pipeline, rest: Tokens)
    requires PipeOk(p)
    ensures WordsOf(PipeYield(p, rest)) == CmdWords(PipeCmd(p)) + WordsOf(rest)
    decreases p, 1
  {
    match p
    case One(u) => UnitWords(u, rest);
    case Bar(u, q) =>
      UnitWords(u, Sym('|', PipeYield(q, rest)));
      PipeWords(q, rest);
  }

  /** The words of the command are the words of the line, each once. */
  lemma {:induction false} LineWords(l: Line, rest: Tokens)
    requires LineOk(l)
    ensures WordsOf(LineYield(l, rest)) == CmdWords(LineCmd(l)) + WordsOf(rest)
    decreases l, 2
  {
    var more := if l.Then? then Sym(';', LineYield(l.next, rest)) else rest;
    PipeWords(l.p, Amps(l.backs, more));
    BacksWords(l.backs, PipeCmd(l.p), more);
    if l.Then? {
      LineWords(l.next, rest);
    }
  }

  // ---- what a filled command looks like ----

  ghost function Args(items: Items): (args: seq<Span>) {
    match items
    case End => []
    case Arg(sp, more) => [sp] + Args(more)
    case Red(_, _, more) => Args(more)
  }

  // c inside the redirections of items, the first innermost.
  ghost function Wrap(c: Cmd, items: Items): (cmd: Cmd)
    decreases items
  {
    match items
    case End => c
    case Arg(_, more) => Wrap(c, more)
    case Red(op, sp, more) => Wrap(Redir(c, sp, ModeOf(op), FdOf(op)), more)
  }

  ghost function AddAll(c: Cmd, args: seq<Span>): (cmd: Cmd)
    decreases args
  {
    if args == [] then c else AddAll(AddArg(c, args[0]), args[1..])
  }

  lemma {:induction false} AddAllInside(c: Cmd, args: seq<Span>, file: Span, mode: Mode, fd: nat)
    ensures AddAll(Redir(c, file, mode, fd), args) == Redir(AddAll(c, args), file, mode, fd)
    decreases args
  {
    if args != [] {
      AddAllInside(AddArg(c, args[0]), args[1..], file, mode, fd);
    }
  }

  lemma {:induction false} AddAllExec(before: seq<Span>, args: seq<Span>)
    ensures AddAll(Exec(before), args) == Exec(before + args)
    decreases args
  {
    if args != [] {
      AddAllExec(before + [args[0]], args[1..]);
      assert before + [args[0]] + args[1..] == before + args;
    } else {
      assert before + args == before;
    }
  }

  lemma {:induction false} FillParts(c: Cmd, items: Items)
    ensures Fill(c, items) == Wrap(AddAll(c, Args(items)), items)
    decreases items
  {
    match items
    case End =>
    case Arg(sp, more) =>
      FillParts(AddArg(c, sp), more);
      assert Args(items)[1..] == Args(more);
    case Red(op, sp, more) =>
      FillParts(Redir(c, sp, ModeOf(op), FdOf(op)), more);
      AddAllInside(c, Args(more), sp, ModeOf(op), FdOf(op));
  }

  /** A simple command is its words in order, inside its redirections in order, however they mix. */
  lemma SimpleIs(items: Items)
    ensures UnitCmd(Simple(items)) == Wrap(Exec(Args(items)), items)
  {
    FillParts(Exec([]), items);
    AddAllExec([], Args(items));
    assert [] + Args(items) == Args(items);
  }

  // ---- words in the buffer ----

  ghost predicate WordAt(b: seq<char>, es: nat, sp: Span) {
    sp.q < sp.eq <= es < |b| && (forall i :: sp.q <= i < sp.eq ==> IsWordChar(b[i])) && (sp.eq < es ==> !IsWordChar(b[sp.eq]))
  }

  lemma {:induction false} WordsAt(b: seq<char>, s: nat, es: nat, sp: Span)
    requires s <= es < |b| && sp in WordsOf(Toks(b, s, es))
    ensures WordAt(b, es, sp)
    decreases es - s
  {
    var q := Skip(b, s, es);
    if b[q] == '>' && q + 1 < es && b[q + 1] == '>' {
      WordsAt(b, q + 2, es, sp);
    } else if IsSymbol(b[q]) {
      WordsAt(b, q + 1, es, sp);
    } else {
      var e := WordEnd(b, q, es);
      if sp != Span(q, e) {
        WordsAt(b, e, es, sp);
      }
    }
  }

  // Where nulterminate writes.
  ghost function Ends(c: Cmd): (ends: set<nat>) {
    match c
    case Exec(args) => set sp | sp in args :: sp.eq
    case Redir(d, file, _, _) => Ends(d) + {file.eq}
    case Pipe(l, r) => Ends(l) + Ends(r)
    case List(l, r) => Ends(l) + Ends(r)
    case Back(d) => Ends(d)
  }

  lemma {:induction false} EndsAreWords(c: Cmd, e: nat)
    requires e in Ends(c)
    ensures exists sp :: sp in CmdWords(c) && sp.eq == e
  {
    match c
    case Exec(args) =>
      var sp :| sp in args && sp.eq == e;
      assert sp in CmdWords(c);
    case Redir(d, file, _, _) =>
      if e == file.eq {
        assert file in CmdWords(c);
      } else {
        EndsAreWords(d, e);
        var sp :| sp in CmdWords(d) && sp.eq == e;
        assert sp in CmdWords(c);
      }
    case Back(d) =>
      EndsAreWords(d, e);
    case _ =>
      var d := if e in Ends(c.left) then c.left else c.right;
      EndsAreWords(d, e);
      var sp :| sp in CmdWords(d) && sp.eq == e;
      assert sp in CmdWords(c);
  }

  lemma {:induction false} WordsHaveEnds(c: Cmd, sp: Span)
    requires sp in CmdWords(c)
    ensures sp.eq in Ends(c)
  {
    match c
    case Exec(args) =>
    case Redir(d, file, _, _) =>
      if sp != file {
        WordsHaveEnds(d, sp);
      }
    case Back(d) =>
      WordsHaveEnds(d, sp);
    case _ =>
      WordsHaveEnds(if sp in CmdWords(c.left) then c.left else c.right, sp);
  }

  // b with NULs written at the positions in ends.
  ghost predicate Nulled(b: seq<char>, b': seq<char>, ends: set<nat>) {
    |b'| == |b| && forall i :: 0 <= i < |b| ==> b'[i] == if i in ends then '\0' else b[i]
  }

  /** No terminator falls inside a word: read up to its first NUL, each word is what it was. */
  lemma WordsSurvive(b: seq<char>, b': seq<char>, es: nat, c: Cmd, sp: Span)
    requires CString(b, es) && CmdWords(c) == WordsOf(Toks(b, 0, es)) && Nulled(b, b', Ends(c)) && sp in CmdWords(c)
    ensures sp.q < sp.eq < |b'| && b'[sp.eq] == '\0' && b'[sp.q..sp.eq] == b[sp.q..sp.eq]
    ensures forall i :: sp.q <= i < sp.eq ==> b'[i] != '\0'
  {
    WordsAt(b, 0, es, sp);
    WordsHaveEnds(c, sp);
    forall i | sp.q <= i < sp.eq ensures i !in Ends(c) {
      if i in Ends(c) {
        EndsAreWords(c, i);
        var other :| other in CmdWords(c) && other.eq == i;
        WordsAt(b, 0, es, other);
      }
    }
  }

  // ---- the parser ----

  datatype Outcome = Done(cmd: Cmd) | Fail(error: Error)

  // What parseexec makes of the tokens ts, with c built so far and argc words still allowed.
  ghost function Filled(ts: Tokens, argc: nat, c: Cmd): (r: Result<Cmd>) {
    match ParseItems(ts, argc)
    case Ok(items, rest) => Ok(Fill(c, items), rest)
    case Err(e) => Err(e)
  }

  // What parseredirs makes of them.
  ghost function Redirected(ts: Tokens, c: Cmd): (r: Result<Cmd>) {
    match ParseReds(ts)
    case Ok(items, rest) => Ok(Fill(c, items), rest)
    case Err(e) => Err(e)
  }

  lemma {:induction false} RedsFirst(ts: Tokens, argc: nat, c: Cmd)
    ensures match Redirected(ts, c)
            case Ok(d, rest) => Filled(ts, argc, c) == Filled(rest, argc, d) && !AtRed(rest)
            case Err(e) => Filled(ts, argc, c) == Err(e)
  {
    if AtRed(ts) && ts.tail.Word? {
      RedsFirst(ts.tail.tail, argc, Redir(c, ts.tail.sp, ModeOf(ts.c), FdOf(ts.c)));
    }
  }

  lemma RedStep(ts: Tokens, c: Cmd)
    ensures !AtRed(ts) ==> Redirected(ts, c) == Ok(c, ts)
    ensures AtRed(ts) && !ts.tail.Word? ==> Redirected(ts, c) == Err(MissingFile)
    ensures AtRed(ts) && ts.tail.Word? ==> Redirected(ts, c) == Redirected(ts.tail.tail, Redir(c, ts.tail.sp, ModeOf(ts.c), FdOf(ts.c)))
  {
  }

  lemma ItemStep(ts: Tokens, argc: nat, c: Cmd)
    requires !AtRed(ts)
    ensures StopsUnit(ts) ==> Filled(ts, argc, c) == Ok(c, ts)
    ensures ts.Sym? && !StopsUnit(ts) ==> Filled(ts, argc, c) == Err(Syntax)
    ensures ts.Word? ==> Filled(ts, argc, c) == if argc == 0 then Err(TooManyArgs) else Filled(ts.tail, argc - 1, AddArg(c, ts.sp))
  {
  }

  class Parser {
    const buf: array<char>
    const es: nat
    var s: nat

    ghost predicate Valid()
      reads this, buf
    {
      s <= es && CString(buf[..], es)
    }

    ghost function Left(): (ts: Tokens)
      requires Valid()
      reads this, buf
    {
      Toks(buf[..], s, es)
    }

    // strlen.
    constructor (b: array<char>)
      requires exists n: nat :: CString(b[..], n)
      ensures Valid() && buf == b && s == 0
    {
      ghost var n: nat :| CString(b[..], n);
      var i := 0;
      while b[i] != '\0'
        invariant 0 <= i <= n && forall j :: 0 <= j < i ==> b[j] != '\0'
        decreases n - i
      {
        assert b[..][i] == b[i];
        i := i + 1;
      }
      buf, es, s := b, i, 0;
    }

    method SkipWhite()
      requires Valid()
      modifies this`s
      ensures Valid() && s == old(Skip(buf[..], s, es)) && s >= old(s) && Left() == old(Left())
      ensures Skip(buf[..], s, es) == s
    {
      ghost var b := buf[..];
      while s < es && IsWhite(buf[s])
        invariant old(s) <= s <= es && Skip(b, s, es) == old(Skip(buf[..], s, es))
        decreases es - s
      {
        s := s + 1;
      }
      SkipAgain(b, old(s), es);
    }

    method SkipWord()
      requires Valid()
      modifies this`s
      ensures Valid() && s == old(WordEnd(buf[..], s, es))
    {
      ghost var b := buf[..];
      while s < es && IsWordChar(buf[s])
        invariant old(s) <= s <= es && WordEnd(b, s, es) == old(WordEnd(buf[..], s, es))
        decreases es - s
      {
        s := s + 1;
      }
    }

    method Peek(toks: string) returns (found: bool)
      requires Valid() && forall i :: 0 <= i < |toks| ==> IsSymbol(toks[i])
      modifies this`s
      ensures Valid() && s >= old(s) && Left() == old(Left())
      ensures found <==> Left().Sym? && (if Left().c == '+' then '>' else Left().c) in toks
      ensures s == es <==> Left() == Nil
    {
      SkipWhite();
      found := buf[s] != '\0' && buf[s] in toks;
    }

    method GetToken() returns (tok: char, sp: Span)
      requires Valid()
      modifies this`s
      ensures Valid() && s >= old(s)
      ensures match old(Left())
              case Nil => tok == '\0' && Left() == Nil
              case Word(w, t) => tok == 'a' && sp == w && Left() == t && s > old(s)
              case Sym(c, t) => tok == c && Left() == t && s > old(s)
    {
      SkipWhite();
      var q := s;
      var c := buf[s];
      if c == '\0' {
        tok := c;
      } else if c == '>' {
        tok := c;
        s := s + 1;
        if buf[s] == '>' {
          tok := '+';
          s := s + 1;
        }
      } else if IsSymbol(c) {
        tok := c;
        s := s + 1;
      } else {
        tok := 'a';
        SkipWord();
      }
      sp := Span(q, s);
      SkipWhite();
    }

    // The method did to the tokens what the specification says.
    ghost predicate Does(r: Outcome, spec: Result<Cmd>)
      requires Valid()
      reads this, buf
    {
      match spec
      case Ok(c, rest) => r == Done(c) && Left() == rest
      case Err(e) => r == Fail(e)
    }

    method PeekRed() returns (found: bool)
      requires Valid()
      modifies this`s
      ensures Valid() && s >= old(s) && Left() == old(Left()) && (found <==> AtRed(Left()))
    {
      found := Peek("<>");
    }

    method PeekStop() returns (found: bool)
      requires Valid()
      modifies this`s
      ensures Valid() && s >= old(s) && Left() == old(Left()) && (found <==> StopsUnit(Left()) && Left() != Nil)
    {
      found := Peek("|)&;");
    }

    method Redirs(cmd: Cmd) returns (r: Outcome)
      requires Valid()
      modifies this`s
      ensures Valid() && s >= old(s) && Does(r, Redirected(old(Left()), cmd))
    {
      var c := cmd;
      var more := PeekRed();
      while more
        invariant Valid() && s >= old(s) && (more <==> AtRed(Left()))
        invariant Redirected(Left(), c) == Redirected(old(Left()), cmd)
        decreases es - s
      {
        RedStep(Left(), c);
        var op, _ := GetToken();
        var tok, sp := GetToken();
        if tok != 'a' {
          return Fail(MissingFile);
        }
        c := Redir(c, sp, ModeOf(op), FdOf(op));
        more := PeekRed();
      }
      RedStep(Left(), c);
      return Done(c);
    }

    // One more word, and the redirections after it.
    method Argument(sp: Span, cmd: Cmd, ghost argc: nat) returns (r: Outcome)
      requires Valid()
      modifies this`s
      ensures Valid() && s >= old(s)
      ensures match r
              case Done(d) => Filled(Left(), argc, d) == Filled(old(Left()), argc, AddArg(cmd, sp)) && !AtRed(Left())
              case Fail(e) => Filled(old(Left()), argc, AddArg(cmd, sp)) == Err(e)
    {
      RedsFirst(Left(), argc, AddArg(cmd, sp));
      r := Redirs(AddArg(cmd, sp));
    }

    // One round of parseexec's loop; go is false when the loop is over.
    method NextArgument(cmd: Cmd, argc: nat) returns (r: Outcome, go: bool)
      requires Valid() && !AtRed(Left()) && (StopsUnit(Left()) ==> Left() == Nil) && argc < MAXARGS
      modifies this`s
      ensures Valid() && s >= old(s)
      ensures go ==> && r.Done? && argc + 1 < MAXARGS && s > old(s) && !AtRed(Left())
                     && Filled(Left(), MAXARGS - 2 - argc, r.cmd) == Filled(old(Left()), MAXARGS - 1 - argc, cmd)
      ensures !go ==> Does(r, Filled(old(Left()), MAXARGS - 1 - argc, cmd))
    {
      go := false;
      ItemStep(Left(), MAXARGS - 1 - argc, cmd);
      var tok, sp := GetToken();
      if tok == '\0' {
        return Done(cmd), go;
      }
      if tok != 'a' {
        return Fail(Syntax), go;
      }
      if argc + 1 >= MAXARGS {
        return Fail(TooManyArgs), go;
      }
      r := Argument(sp, cmd, MAXARGS - 2 - argc);
      go := r.Done?;
    }

    // parseexec's loop.
    method Arguments(cmd: Cmd) returns (r: Outcome)
      requires Valid() && !AtRed(Left())
      modifies this`s
      ensures Valid() && s >= old(s) && Does(r, Filled(old(Left()), MAXARGS - 1, cmd))
    {
      r := Done(cmd);
      var argc := 0;
      var stop := PeekStop();
      while !stop
        invariant Valid() && s >= old(s) && r.Done? && argc < MAXARGS && !AtRed(Left())
        invariant stop <==> StopsUnit(Left()) && Left() != Nil
        invariant Filled(Left(), MAXARGS - 1 - argc, r.cmd) == Filled(old(Left()), MAXARGS - 1, cmd)
        decreases es - s, !stop
      {
        var go;
        r, go := NextArgument(r.cmd, argc);
        if !go {
          return;
        }
        argc := argc + 1;
        stop := PeekStop();
      }
      ItemStep(Left(), MAXARGS - 1 - argc, r.cmd);
    }

    // parseexec, for a command that does not start with a parenthesis.
    method SimpleCommand() returns (r: Outcome)
      requires Valid() && !Head(Left(), '(')
      modifies this`s
      ensures Valid() && s >= old(s) && Does(r, Filled(old(Left()), MAXARGS - 1, Exec([])))
    {
      RedsFirst(Left(), MAXARGS - 1, Exec([]));
      r := Redirs(Exec([]));
      if r.Done? {
        r := Arguments(r.cmd);
      }
    }

    method ParseExec() returns (r: Outcome)
      requires Valid()
      modifies this`s
      ensures Valid() && s >= old(s)
      ensures match ParseUnit(old(Left()))
              case Ok(u, rest) => r == Done(UnitCmd(u)) && Left() == rest
              case Err(e) => r == Fail(e)
      decreases es - s, 1
    {
      var paren := Peek("(");
      if paren {
        r := ParseBlock();
      } else {
        r := SimpleCommand();
      }
    }

    // Its first panic cannot happen: parseexec has seen the parenthesis.
    method ParseBlock() returns (r: Outcome)
      requires Valid() && Head(Left(), '(')
      modifies this`s
      ensures Valid() && s >= old(s)
      ensures match ParseUnit(old(Left()))
              case Ok(u, rest) => r == Done(UnitCmd(u)) && Left() == rest
              case Err(e) => r == Fail(e)
      decreases es - s, 0
    {
      var _, _ := GetToken();
      r := ParseLineOf();
      if r.Fail? {
        return;
      }
      var close := Peek(")");
      if !close {
        return Fail(MissingParen);
      }
      var _, _ := GetToken();
      r := Redirs(r.cmd);
    }

    method ParsePipeOf() returns (r: Outcome)
      requires Valid()
      modifies this`s
      ensures Valid() && s >= old(s)
      ensures match ParsePipe(old(Left()))
              case Ok(p, rest) => r == Done(PipeCmd(p)) && Left() == rest
              case Err(e) => r == Fail(e)
      decreases es - s, 2
    {
      r := ParseExec();
      if r.Fail? {
        return;
      }
      var bar := Peek("|");
      if bar {
        var left := r.cmd;
        var _, _ := GetToken();
        r := ParsePipeOf();
        if r.Done? {
          r := Done(Pipe(left, r.cmd));
        }
      }
    }

    method Ampersands(cmd: Cmd) returns (c: Cmd)
      requires Valid()
      modifies this`s
      ensures Valid() && s >= old(s)
      ensures c == Backs(LeadingAmps(old(Left())), cmd) && Left() == AfterAmps(old(Left()))
    {
      c := cmd;
      var amp := Peek("&");
      while amp
        invariant Valid() && s >= old(s) && (amp <==> Head(Left(), '&'))
        invariant Backs(LeadingAmps(Left()), c) == Backs(LeadingAmps(old(Left())), cmd)
        invariant AfterAmps(Left()) == AfterAmps(old(Left()))
        decreases es - s
      {
        var _, _ := GetToken();
        c := Back(c);
        amp := Peek("&");
      }
    }

    method ParseLineOf() returns (r: Outcome)
      requires Valid()
      modifies this`s
      ensures Valid() && s >= old(s)
      ensures match ParseLine(old(Left()))
              case Ok(l, rest) => r == Done(LineCmd(l)) && Left() == rest
              case Err(e) => r == Fail(e)
      decreases es - s, 3
    {
      r := ParsePipeOf();
      if r.Fail? {
        return;
      }
      var c := Ampersands(r.cmd);
      r := Done(c);
      var semi := Peek(";");
      if semi {
        var _, _ := GetToken();
        r := ParseLineOf();
        if r.Done? {
          r := Done(List(c, r.cmd));
        }
      }
    }
  }

  ghost predicate Below(c: Cmd, n: nat) {
    match c
    case Exec(args) => forall i :: 0 <= i < |args| ==> args[i].eq < n
    case Redir(d, file, _, _) => Below(d, n) && file.eq < n
    case Pipe(l, r) => Below(l, n) && Below(r, n)
    case List(l, r) => Below(l, n) && Below(r, n)
    case Back(d) => Below(d, n)
  }

  // nulterminate.
  method NulTerminate(a: array<char>, cmd: Cmd)
    requires Below(cmd, a.Length)
    modifies a
    ensures Nulled(old(a[..]), a[..], Ends(cmd))
    decreases cmd
  {
    match cmd
    case Exec(args) =>
      var i := 0;
      while i < |args|
        invariant 0 <= i <= |args|
        invariant Nulled(old(a[..]), a[..], set sp | sp in args[..i] :: sp.eq)
      {
        assert args[i] in args;
        a[args[i].eq] := '\0';
        i := i + 1;
        assert args[..i] == args[..i - 1] + [args[i - 1]];
      }
      assert args[..i] == args;
    case Redir(c, file, _, _) =>
      NulTerminate(a, c);
      a[file.eq] := '\0';
    case Pipe(l, r) =>
      NulTerminate(a, l);
      NulTerminate(a, r);
    case List(l, r) =>
      NulTerminate(a, l);
      NulTerminate(a, r);
    case Back(c) =>
      NulTerminate(a, c);
  }

  /** parsecmd: it succeeds exactly on the sentences of the grammar, with the sentence's command,
      and then each word of the line, read up to its first NUL, is the token the lexer recognised. */
  method ParseCmd(a: array<char>) returns (r: Outcome, ghost es: nat)
    requires exists n: nat :: CString(a[..], n)
    modifies a
    ensures CString(old(a[..]), es)
    ensures r.Done? <==> exists l :: LineOk(l) && LineYield(l, Nil) == Toks(old(a[..]), 0, es)
    ensures r.Done? ==> exists l :: LineOk(l) && LineYield(l, Nil) == Toks(old(a[..]), 0, es) && r.cmd == LineCmd(l)
    ensures r.Done? ==> CmdWords(r.cmd) == WordsOf(Toks(old(a[..]), 0, es))
    ensures r.Done? ==> forall sp :: sp in CmdWords(r.cmd) ==>
              && sp.q < sp.eq < a.Length && a[sp.eq] == '\0' && a[sp.q..sp.eq] == old(a[..])[sp.q..sp.eq]
              && forall i :: sp.q <= i < sp.eq ==> a[i] != '\0'
    ensures r.Fail? ==> a[..] == old(a[..])
  {
    r, es := ParseOnly(a);
    if r.Done? {
      Terminate(a, r.cmd, es);
    }
  }

  // parsecmd before nulterminate.
  method ParseOnly(a: array<char>) returns (r: Outcome, ghost es: nat)
    requires exists n: nat :: CString(a[..], n)
    ensures CString(a[..], es)
    ensures r.Done? <==> exists l :: LineOk(l) && LineYield(l, Nil) == Toks(a[..], 0, es)
    ensures r.Done? ==> exists l :: LineOk(l) && LineYield(l, Nil) == Toks(a[..], 0, es) && r.cmd == LineCmd(l)
    ensures r.Done? ==> CmdWords(r.cmd) == WordsOf(Toks(a[..], 0, es))
  {
    var p := new Parser(a);
    es := p.es;
    ghost var ts := Toks(a[..], 0, es);
    r := p.ParseLineOf();
    if r.Done? {
      var _ := p.Peek("");
      if p.s != p.es {
        r := Fail(Leftovers);
      }
    }
    ghost var parsed := ParseLine(ts);
    forall l ensures LineOk(l) && LineYield(l, Nil) == ts ==> parsed == Ok(l, Nil) {
      AcceptsExactly(ts, l);
    }
    if r.Done? {
      AcceptsExactly(ts, parsed.value);
      LineWords(parsed.value, Nil);
      assert WordsOf(Nil) == multiset{};
    }
  }

  // nulterminate of a command whose words are those of the line.
  method Terminate(a: array<char>, cmd: Cmd, ghost es: nat)
    requires CString(a[..], es) && CmdWords(cmd) == WordsOf(Toks(a[..], 0, es))
    modifies a
    ensures forall sp :: sp in CmdWords(cmd) ==>
              && sp.q < sp.eq < a.Length && a[sp.eq] == '\0' && a[sp.q..sp.eq] == old(a[..])[sp.q..sp.eq]
              && forall i :: sp.q <= i < sp.eq ==> a[i] != '\0'
  {
    ghost var b := a[..];
    forall sp | sp in CmdWords(cmd) ensures sp.eq < |b| {
      WordsAt(b, 0, es, sp);
    }
    EndsInside(cmd, |b|);
    NulTerminate(a, cmd);
    forall sp | sp in CmdWords(cmd)
      ensures sp.q < sp.eq < a.Length && a[sp.eq] == '\0' && a[sp.q..sp.eq] == b[sp.q..sp.eq] && forall i :: sp.q <= i < sp.eq ==> a[i] != '\0'
    {
      WordsSurvive(b, a[..], es, cmd, sp);
    }
  }

  lemma {:induction false} EndsInside(c: Cmd, n: nat)
    requires forall sp :: sp in CmdWords(c) ==> sp.eq < n
    ensures Below(c, n)
  {
    match c
    case Exec(args) =>
      forall i | 0 <= i < |args| ensures args[i].eq < n {
        assert args[i] in CmdWords(c);
      }
    case Redir(d, file, _, _) =>
      assert file in CmdWords(c);
      EndsInside(d, n);
    case Back(d) => EndsInside(d, n);
    case _ =>
      EndsInside(c.left, n);
      EndsInside(c.right, n);
  }
}
