/** The shell's command language (user/sh.c): its grammar as trees with a yield, and a
    one-token-lookahead parser on token lists that accepts exactly their yields. */
module ShellGrammar {

  const MAXARGS: nat := 10

  // A word of the line: characters q up to eq.
  datatype Span = Span(q: nat, eq: nat)

  // '+' stands for ">>".
  datatype Tokens = Nil | Word(sp: Span, tail: Tokens) | Sym(c: char, tail: Tokens)

  datatype Mode = ReadOnly | Truncate | Append
  datatype Cmd =
    | Exec(args: seq<Span>)
    | Redir(cmd: Cmd, file: Span, mode: Mode, fd: nat)
    | Pipe(left: Cmd, right: Cmd)
    | List(left: Cmd, right: Cmd)
    | Back(cmd: Cmd)

  datatype Error = MissingFile | MissingParen | Syntax | TooManyArgs | Leftovers
  datatype Result<T> = Ok(value: T, rest: Tokens) | Err(error: Error)

  // ---- grammar: trees, and the tokens of a tree followed by rest ----

  datatype Items = End | Arg(sp: Span, more: Items) | Red(op: char, sp: Span, more: Items)
  datatype Unit = Simple(items: Items) | Block(line: Line, reds: Items)
  datatype Pipeline = One(u: Unit) | Bar(u: Unit, p: Pipeline)
  datatype Line = Last(p: Pipeline, backs: nat) | Then(p: Pipeline, backs: nat, next: Line)

  ghost function ItemYield(items: Items, rest: Tokens): (ts: Tokens) {
    match items
    case End => rest
    case Arg(sp, more) => Word(sp, ItemYield(more, rest))
    case Red(op, sp, more) => Sym(op, Word(sp, ItemYield(more, rest)))
  }

  ghost function Amps(n: nat, rest: Tokens): (ts: Tokens) {
    if n == 0 then rest else Sym('&', Amps(n - 1, rest))
  }

  ghost function UnitYield(u: Unit, rest: Tokens): (ts: Tokens) {
    match u
    case Simple(items) => ItemYield(items, rest)
    case Block(l, reds) => Sym('(', LineYield(l, Sym(')', ItemYield(reds, rest))))
  }

  ghost function PipeYield(p: Pipeline, rest: Tokens): (ts: Tokens) {
    match p
    case One(u) => UnitYield(u, rest)
    case Bar(u, q) => UnitYield(u, Sym('|', PipeYield(q, rest)))
  }

  ghost function LineYield(l: Line, rest: Tokens): (ts: Tokens) {
    match l
    case Last(p, n) => PipeYield(p, Amps(n, rest))
    case Then(p, n, next) => PipeYield(p, Amps(n, Sym(';', LineYield(next, rest))))
  }

  predicate IsRedOp(c: char) { c == '<' || c == '>' || c == '+' }

  // argc words at most, and only where words are allowed.
  ghost predicate ItemsOk(items: Items, argc: nat) {
    match items
    case End => true
    case Arg(_, more) => argc > 0 && ItemsOk(more, argc - 1)
    case Red(op, _, more) => IsRedOp(op) && ItemsOk(more, argc)
  }

  ghost predicate UnitOk(u: Unit) {
    match u
    case Simple(items) => ItemsOk(items, MAXARGS - 1)
    case Block(l, reds) => LineOk(l) && ItemsOk(reds, 0)
  }

  ghost predicate PipeOk(p: Pipeline) {
    match p
    case One(u) => UnitOk(u)
    case Bar(u, q) => UnitOk(u) && PipeOk(q)
  }

  ghost predicate LineOk(l: Line) {
    match l
    case Last(p, _) => PipeOk(p)
    case Then(p, _, next) => PipeOk(p) && LineOk(next)
  }

  // ---- parser on tokens ----

  ghost function Len(ts: Tokens): (n: nat) {
    match ts
    case Nil => 0
    case Word(_, t) => 1 + Len(t)
    case Sym(_, t) => 1 + Len(t)
  }

  predicate Head(ts: Tokens, c: char) { ts.Sym? && ts.c == c }

  predicate StopsUnit(ts: Tokens) {
    ts.Nil? || Head(ts, '|') || Head(ts, ')') || Head(ts, '&') || Head(ts, ';')
  }

  predicate AtRed(ts: Tokens) { ts.Sym? && IsRedOp(ts.c) }

  // Redirections as long as the next token starts one.
  ghost function ParseReds(ts: Tokens): (r: Result<Items>)
    ensures r.Ok? ==> Len(r.rest) <= Len(ts)
  {
    if !AtRed(ts) then Ok(End, ts)
    else if !ts.tail.Word? then Err(MissingFile)
    else match ParseReds(ts.tail.tail)
         case Ok(items, rest) => Ok(Red(ts.c, ts.tail.sp, items), rest)
         case Err(e) => Err(e)
  }

  // The items of a simple command that may have argc more words.
  ghost function ParseItems(ts: Tokens, argc: nat): (r: Result<Items>)
    ensures r.Ok? ==> Len(r.rest) <= Len(ts)
  {
    if StopsUnit(ts) then Ok(End, ts)
    else if AtRed(ts) then
      if !ts.tail.Word? then Err(MissingFile)
      else match ParseItems(ts.tail.tail, argc)
           case Ok(items, rest) => Ok(Red(ts.c, ts.tail.sp, items), rest)
           case Err(e) => Err(e)
    else if !ts.Word? then Err(Syntax)
    else if argc == 0 then Err(TooManyArgs)
    else match ParseItems(ts.tail, argc - 1)
         case Ok(items, rest) => Ok(Arg(ts.sp, items), rest)
         case Err(e) => Err(e)
  }

  ghost function ParseUnit(ts: Tokens): (r: Result<Unit>)
    ensures r.Ok? ==> Len(r.rest) <= Len(ts)
    decreases Len(ts), 0
  {
    if Head(ts, '(') then
      match ParseLine(ts.tail)
      case Ok(l, rest) =>
        if !Head(rest, ')') then Err(MissingParen)
        else (match ParseReds(rest.tail)
              case Ok(reds, rest') => Ok(Block(l, reds), rest')
              case Err(e) => Err(e))
      case Err(e) => Err(e)
    else
      match ParseItems(ts, MAXARGS - 1)
      case Ok(items, rest) => Ok(Simple(items), rest)
      case Err(e) => Err(e)
  }

  ghost function ParsePipe(ts: Tokens): (r: Result<Pipeline>)
    ensures r.Ok? ==> Len(r.rest) <= Len(ts)
    decreases Len(ts), 1
  {
    match ParseUnit(ts)
    case Ok(u, rest) =>
      if !Head(rest, '|') then Ok(One(u), rest)
      else (match ParsePipe(rest.tail)
            case Ok(p, rest') => Ok(Bar(u, p), rest')
            case Err(e) => Err(e))
    case Err(e) => Err(e)
  }

  ghost function LeadingAmps(ts: Tokens): (n: nat) {
    if !Head(ts, '&') then 0 else LeadingAmps(ts.tail) + 1
  }

  ghost function AfterAmps(ts: Tokens): (r: Tokens)
    ensures Len(r) <= Len(ts)
  {
    if !Head(ts, '&') then ts else AfterAmps(ts.tail)
  }

  ghost function ParseLine(ts: Tokens): (r: Result<Line>)
    ensures r.Ok? ==> Len(r.rest) <= Len(ts)
    decreases Len(ts), 2
  {
    match ParsePipe(ts)
    case Ok(p, rest) =>
      var n, rest' := LeadingAmps(rest), AfterAmps(rest);
      if !Head(rest', ';') then Ok(Last(p, n), rest')
      else (match ParseLine(rest'.tail)
            case Ok(l, rest'') => Ok(Then(p, n, l), rest'')
            case Err(e) => Err(e))
    case Err(e) => Err(e)
  }

  // ---- what is accepted is a sentence ----

  lemma {:induction false} RedsSound(ts: Tokens)
    ensures var r := ParseReds(ts); r.Ok? ==> ts == ItemYield(r.value, r.rest) && ItemsOk(r.value, 0) && !AtRed(r.rest)
  {
    if AtRed(ts) && ts.tail.Word? {
      RedsSound(ts.tail.tail);
    }
  }

  lemma {:induction false} ItemsSound(ts: Tokens, argc: nat)
    ensures var r := ParseItems(ts, argc); r.Ok? ==> ts == ItemYield(r.value, r.rest) && ItemsOk(r.value, argc) && StopsUnit(r.rest)
  {
    if StopsUnit(ts) {
    } else if AtRed(ts) {
      if ts.tail.Word? {
        ItemsSound(ts.tail.tail, argc);
      }
    } else if ts.Word? && argc > 0 {
      ItemsSound(ts.tail, argc - 1);
    }
  }

  lemma {:induction false} UnitSound(ts: Tokens)
    ensures var r := ParseUnit(ts); r.Ok? ==> ts == UnitYield(r.value, r.rest) && UnitOk(r.value)
    decreases Len(ts), 0
  {
    if Head(ts, '(') {
      LineSound(ts.tail);
      var l := ParseLine(ts.tail);
      if l.Ok? && Head(l.rest, ')') {
        RedsSound(l.rest.tail);
      }
    } else {
      ItemsSound(ts, MAXARGS - 1);
    }
  }

  lemma {:induction false} PipeSound(ts: Tokens)
    ensures var r := ParsePipe(ts); r.Ok? ==> ts == PipeYield(r.value, r.rest) && PipeOk(r.value)
    decreases Len(ts), 1
  {
    UnitSound(ts);
    var u := ParseUnit(ts);
    if u.Ok? && Head(u.rest, '|') {
      PipeSound(u.rest.tail);
    }
  }

  lemma {:induction false} AmpsSound(ts: Tokens)
    ensures ts == Amps(LeadingAmps(ts), AfterAmps(ts)) && !Head(AfterAmps(ts), '&')
  {
    if Head(ts, '&') {
      AmpsSound(ts.tail);
    }
  }

  lemma {:induction false} LineSound(ts: Tokens)
    ensures var r := ParseLine(ts); r.Ok? ==> ts == LineYield(r.value, r.rest) && LineOk(r.value)
    decreases Len(ts), 2
  {
    PipeSound(ts);
    var p := ParsePipe(ts);
    if p.Ok? {
      AmpsSound(p.rest);
      if Head(AfterAmps(p.rest), ';') {
        LineSound(AfterAmps(p.rest).tail);
      }
    }
  }

  // ---- every sentence is accepted, and read back as itself ----

  lemma {:induction false} RedsComplete(items: Items, rest: Tokens)
    requires ItemsOk(items, 0) && !AtRed(rest)
    ensures ParseReds(ItemYield(items, rest)) == Ok(items, rest)
  {
    if items != End {
      RedsComplete(items.more, rest);
    }
  }

  lemma {:induction false} ItemsComplete(items: Items, argc: nat, rest: Tokens)
    requires ItemsOk(items, argc) && StopsUnit(rest)
    ensures ParseItems(ItemYield(items, rest), argc) == Ok(items, rest) && !Head(ItemYield(items, rest), '(')
  {
    match items
    case End =>
    case Arg(_, more) => ItemsComplete(more, argc - 1, rest);
    case Red(_, _, more) => ItemsComplete(more, argc, rest);
  }

  lemma {:induction false} UnitComplete(u: Unit, rest: Tokens)
    requires UnitOk(u) && StopsUnit(rest)
    ensures ParseUnit(UnitYield(u, rest)) == Ok(u, rest)
    decreases u, 0
  {
    match u
    case Simple(items) => ItemsComplete(items, MAXARGS - 1, rest);
    case Block(l, reds) =>
      LineComplete(l, Sym(')', ItemYield(reds, rest)));
      RedsComplete(reds, rest);
  }

  lemma {:induction false} PipeComplete(p: Pipeline, rest: Tokens)
    requires PipeOk(p) && StopsUnit(rest) && !Head(rest, '|')
    ensures ParsePipe(PipeYield(p, rest)) == Ok(p, rest)
    decreases p, 1
  {
    match p
    case One(u) => UnitComplete(u, rest);
    case Bar(u, q) =>
      UnitComplete(u, Sym('|', PipeYield(q, rest)));
      PipeComplete(q, rest);
  }

  lemma {:induction false} AmpsComplete(n: nat, rest: Tokens)
    requires !Head(rest, '&')
    ensures LeadingAmps(Amps(n, rest)) == n && AfterAmps(Amps(n, rest)) == rest
  {
    if n > 0 {
      AmpsComplete(n - 1, rest);
    }
  }

  lemma {:induction false} LineComplete(l: Line, rest: Tokens)
    requires LineOk(l) && (rest.Nil? || Head(rest, ')'))
    ensures ParseLine(LineYield(l, rest)) == Ok(l, rest)
    decreases l, 2
  {
    var more := if l.Then? then Sym(';', LineYield(l.next, rest)) else rest;
    AmpsComplete(l.backs, more);
    PipeComplete(l.p, Amps(l.backs, more));
    if l.Then? {
      LineComplete(l.next, rest);
    }
  }

  /** The parser accepts exactly the sentences of the grammar, and each has one tree. */
  lemma AcceptsExactly(ts: Tokens, l: Line)
    ensures ParseLine(ts) == Ok(l, Nil) <==> LineOk(l) && LineYield(l, Nil) == ts
  {
    LineSound(ts);
    if LineOk(l) {
      LineComplete(l, Nil);
    }
  }
}
