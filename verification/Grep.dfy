/** grep (user/grep.c): the backtracking matcher against the language of its patterns, and the
    line splitting of a stream that arrives in pieces of any size. Strings hold no NUL. */
module Grep {

  // ---- patterns and their language ----

  datatype Re = Empty | AtEnd | One(c: char, rest: Re) | Star(c: char, rest: Re)

  function Parse(re: string): (r: Re) {
    if re == [] then Empty
    else if |re| >= 2 && re[1] == '*' then Star(re[0], Parse(re[2..]))
    else if re == "$" then AtEnd
    else One(re[0], Parse(re[1..]))
  }

  // '.' stands for any character.
  predicate Fits(c: char, t: char) { c == '.' || c == t }

  // The word w is in the language of r; last says whether the text ends after it.
  ghost predicate InLang(r: Re, w: string, last: bool)
    decreases r
  {
    match r
    case Empty => w == []
    case AtEnd => w == [] && last
    case One(c, rest) => w != [] && Fits(c, w[0]) && InLang(rest, w[1..], last)
    case Star(c, rest) => exists k :: 0 <= k <= |w| && (forall i :: 0 <= i < k ==> Fits(c, w[i])) && InLang(rest, w[k..], last)
  }

  // Some prefix of text is in the language.
  ghost predicate Here(r: Re, text: string) {
    exists n :: 0 <= n <= |text| && InLang(r, text[..n], n == |text|)
  }

  ghost predicate Matches(re: string, text: string) {
    if re != [] && re[0] == '^' then Here(Parse(re[1..]), text)
    else exists i :: 0 <= i <= |text| && Here(Parse(re), text[i..])
  }

  lemma HereEmpty(text: string)
    ensures Here(Empty, text)
  {
    assert InLang(Empty, text[..0], 0 == |text|);
  }

  lemma HereAtEnd(text: string)
    ensures Here(AtEnd, text) <==> text == []
  {
    if text == [] {
      assert InLang(AtEnd, text[..0], 0 == |text|);
    }
  }

  lemma HereOne(c: char, rest: Re, text: string)
    ensures Here(One(c, rest), text) <==> text != [] && Fits(c, text[0]) && Here(rest, text[1..])
  {
    if Here(One(c, rest), text) {
      var n :| 0 <= n <= |text| && InLang(One(c, rest), text[..n], n == |text|);
      assert text[..n][1..] == text[1..][..n - 1];
    }
    if text != [] && Fits(c, text[0]) && Here(rest, text[1..]) {
      var n :| 0 <= n <= |text[1..]| && InLang(rest, text[1..][..n], n == |text[1..]|);
      assert text[..n + 1][1..] == text[1..][..n];
      assert InLang(One(c, rest), text[..n + 1], n + 1 == |text|);
    }
  }

  // c* and then rest: any number of characters that fit, and rest after them.
  lemma HereStar(c: char, rest: Re, text: string)
    ensures Here(Star(c, rest), text) <==> exists k :: 0 <= k <= |text| && AllFit(c, text, k) && Here(rest, text[k..])
  {
    if Here(Star(c, rest), text) {
      var n :| 0 <= n <= |text| && InLang(Star(c, rest), text[..n], n == |text|);
      var w := text[..n];
      var k :| 0 <= k <= |w| && (forall i :: 0 <= i < k ==> Fits(c, w[i])) && InLang(rest, w[k..], n == |text|);
      assert w[k..] == text[k..][..n - k];
      assert Here(rest, text[k..]);
      assert AllFit(c, text, k) by {
        assert forall i :: 0 <= i < k ==> w[i] == text[i];
      }
    }
    if k :| 0 <= k <= |text| && AllFit(c, text, k) && Here(rest, text[k..]) {
      var n :| 0 <= n <= |text[k..]| && InLang(rest, text[k..][..n], n == |text[k..]|);
      var w := text[..k + n];
      assert w[k..] == text[k..][..n];
      assert forall i :: 0 <= i < k ==> Fits(c, w[i]);
      assert InLang(Star(c, rest), w, k + n == |text|);
    }
  }

  ghost predicate AllFit(c: char, text: string, k: int)
    requires 0 <= k <= |text|
  {
    forall i :: 0 <= i < k ==> Fits(c, text[i])
  }

  // ---- the matcher ----

  method MatchHere(re: string, text: string) returns (b: bool)
    ensures b <==> Here(Parse(re), text)
    decreases |re|, 1
  {
    if re == [] {
      HereEmpty(text);
      return true;
    }
    if |re| >= 2 && re[1] == '*' {
      b := MatchStar(re[0], re[2..], text);
      return;
    }
    if re == "$" {
      HereAtEnd(text);
      return text == [];
    }
    HereOne(re[0], Parse(re[1..]), text);
    if text != [] && Fits(re[0], text[0]) {
      b := MatchHere(re[1..], text[1..]);
      return;
    }
    return false;
  }

  method MatchStar(c: char, re: string, text: string) returns (b: bool)
    ensures b <==> Here(Star(c, Parse(re)), text)
    decreases |re| + 1, 0
  {
    HereStar(c, Parse(re), text);
    var k := 0;
    while true
      invariant 0 <= k <= |text| && AllFit(c, text, k)
      invariant forall j :: 0 <= j < k ==> !Here(Parse(re), text[j..])
      decreases |text| - k
    {
      b := MatchHere(re, text[k..]);
      if b {
        return;
      }
      if k == |text| || !Fits(c, text[k]) {
        return false;
      }
      k := k + 1;
    }
  }

  method Match(re: string, text: string) returns (b: bool)
    ensures b <==> Matches(re, text)
  {
    if re != [] && re[0] == '^' {
      b := MatchHere(re[1..], text);
      return;
    }
    var i := 0;
    while true
      invariant 0 <= i <= |text|
      invariant forall j :: 0 <= j < i ==> !Here(Parse(re), text[j..])
      decreases |text| - i
    {
      b := MatchHere(re, text[i..]);
      if b {
        return;
      }
      if i == |text| {
        return false;
      }
      i := i + 1;
    }
  }

  // ---- lines ----

  const SIZE: nat := 1024

  // Where the first newline of s at or after i is, or |s|.
  ghost function Newline(s: string, i: nat): (k: nat)
    requires i <= |s|
    ensures i <= k <= |s| && (k < |s| ==> s[k] == '\n')
    decreases |s| - i
  {
    if i == |s| || s[i] == '\n' then i else Newline(s, i + 1)
  }

  lemma {:induction false} NewlineIs(s: string, i: nat, k: nat)
    requires i <= k <= |s| && (forall j :: i <= j < k ==> s[j] != '\n')
    ensures Newline(s, i) == Newline(s, k)
    decreases k - i
  {
    if i < k {
      NewlineIs(s, i + 1, k);
    }
  }

  lemma {:induction false} BeforeNewline(s: string, i: nat, j: nat)
    requires i <= |s| && i <= j < Newline(s, i)
    ensures s[j] != '\n'
    decreases j - i
  {
    if i < j {
      BeforeNewline(s, i + 1, j);
    }
  }

  ghost predicate Asked(keep: string -> bool, line: string) {
    keep(line)
  }

  // keep is the set of lines that match re.
  ghost predicate Decides(keep: string -> bool, re: string) {
    forall line {:trigger Asked(keep, line)} :: Asked(keep, line) <==> Matches(re, line)
  }

  ghost function Chosen(keep: string -> bool, line: string): (out: string) {
    if keep(line) then line + "\n" else []
  }

  // The matching newline-ended lines of s from i on.
  ghost function Wanted(keep: string -> bool, s: string, i: nat): (out: string)
    requires i <= |s|
    decreases |s| - i
  {
    var k := Newline(s, i);
    if k == |s| then [] else Chosen(keep, s[i..k]) + Wanted(keep, s, k + 1)
  }

  // Those before the first line that does not fit the buffer with its newline.
  ghost function Printed(keep: string -> bool, s: string, i: nat): (out: string)
    requires i <= |s|
    decreases |s| - i
  {
    var k := Newline(s, i);
    if k == |s| || k - i + 1 >= SIZE then [] else Chosen(keep, s[i..k]) + Printed(keep, s, k + 1)
  }

  // Where that line starts, or the end.
  ghost function Stop(s: string, i: nat): (r: nat)
    requires i <= |s|
    ensures i <= r <= |s|
    decreases |s| - i
  {
    var k := Newline(s, i);
    if k == |s| then |s| else if k - i + 1 >= SIZE then i else Stop(s, k + 1)
  }

  lemma Glue(all: string, out: string, rest: string, line: string, more: string)
    requires all == out + rest && rest == line + more
    ensures all == (out + line) + more
  {
  }

  lemma WantedStep(keep: string -> bool, s: string, i: nat)
    requires i <= |s|
    ensures var k := Newline(s, i); Wanted(keep, s, i) == if k == |s| then [] else Chosen(keep, s[i..k]) + Wanted(keep, s, k + 1)
  {
  }

  lemma PrintedStep(keep: string -> bool, s: string, i: nat)
    requires i <= |s|
    ensures var k := Newline(s, i);
            Printed(keep, s, i) == if k == |s| || k - i + 1 >= SIZE then [] else Chosen(keep, s[i..k]) + Printed(keep, s, k + 1)
  {
  }

  lemma AllGlue(line: string, more: string, tail: string, all: string, out: string, rest: string)
    requires rest == more + tail && all == line + rest && out == line + more
    ensures all == out + tail
  {
  }

  lemma PrefixGrows(keep: string -> bool, s: string, i: nat)
    requires i <= |s| && Newline(s, i) < |s| && Newline(s, i) - i + 1 < SIZE
    requires var k := Newline(s, i) + 1; Wanted(keep, s, k) == Printed(keep, s, k) + Wanted(keep, s, Stop(s, k))
    ensures Wanted(keep, s, i) == Printed(keep, s, i) + Wanted(keep, s, Stop(s, i))
  {
    var k := Newline(s, i);
    var more, tail := Printed(keep, s, k + 1), Wanted(keep, s, Stop(s, i));
    assert Stop(s, i) == Stop(s, k + 1);
    WantedStep(keep, s, i);
    PrintedStep(keep, s, i);
    AllGlue(Chosen(keep, s[i..k]), more, tail, Wanted(keep, s, i), Printed(keep, s, i), Wanted(keep, s, k + 1));
  }

  lemma PrefixStops(keep: string -> bool, s: string, i: nat)
    requires i <= |s| && (Newline(s, i) == |s| || Newline(s, i) - i + 1 >= SIZE)
    ensures Wanted(keep, s, i) == Printed(keep, s, i) + Wanted(keep, s, Stop(s, i))
  {
    PrintedStep(keep, s, i);
    if Newline(s, i) == |s| {
      WantedStep(keep, s, i);
      assert Newline(s, |s|) == |s|;
    }
  }

  /** What is printed is a prefix of what is wanted; what is missing is what the unread part wanted. */
  lemma {:induction false} PrintedIsPrefix(keep: string -> bool, s: string, i: nat)
    requires i <= |s|
    ensures Wanted(keep, s, i) == Printed(keep, s, i) + Wanted(keep, s, Stop(s, i))
    decreases |s| - i
  {
    var k := Newline(s, i);
    if k < |s| && k - i + 1 < SIZE {
      PrintedIsPrefix(keep, s, k + 1);
      PrefixGrows(keep, s, i);
    } else {
      PrefixStops(keep, s, i);
    }
  }

  /** Everything wanted is printed exactly when no wanted line comes at or after an overlong one. */
  lemma PrintsAll(keep: string -> bool, s: string)
    ensures Printed(keep, s, 0) == Wanted(keep, s, 0) <==> Wanted(keep, s, Stop(s, 0)) == []
  {
    PrintedIsPrefix(keep, s, 0);
    var all, out, rest := Wanted(keep, s, 0), Printed(keep, s, 0), Wanted(keep, s, Stop(s, 0));
    assert rest == [] ==> out + rest == out;
    assert rest != [] ==> |all| > |out|;
  }

  // The characters i to j are a newline-ended line.
  ghost predicate IsLine(s: string, i: int, j: int) {
    0 <= i <= j < |s| && s[j] == '\n' && forall k :: i <= k < j ==> s[k] != '\n'
  }

  lemma FirstLine(s: string, i: nat)
    requires i <= |s| && Newline(s, i) < |s|
    ensures IsLine(s, i, Newline(s, i))
  {
    forall j | i <= j < Newline(s, i) ensures s[j] != '\n' {
      BeforeNewline(s, i, j);
    }
  }

  /** A line of 1024 bytes with its newline hides the line after it. */
  lemma LongLineHides(keep: string -> bool)
    requires keep("a")
    ensures var s := seq(1023, _ => 'x') + "\na\n";
            Printed(keep, s, 0) == [] && Wanted(keep, s, 0) != []
  {
    var s := seq(1023, _ => 'x') + "\na\n";
    NewlineIs(s, 0, 1023);
    NewlineIs(s, 1024, 1025);
    assert s[1024..1025] == "a";
    assert Wanted(keep, s, 1024) == Chosen(keep, "a") + Wanted(keep, s, 1026);
    assert Wanted(keep, s, 0) == Chosen(keep, s[0..1023]) + Wanted(keep, s, 1024);
  }

  /** In particular when every newline-ended line has at most 1023 bytes. */
  lemma {:induction false} ShortLines(keep: string -> bool, s: string, i: nat)
    requires i <= |s| && forall i, j :: IsLine(s, i, j) ==> j - i + 1 < SIZE
    ensures Printed(keep, s, i) == Wanted(keep, s, i)
    decreases |s| - i
  {
    var k := Newline(s, i);
    if k < |s| {
      FirstLine(s, i);
      ShortLines(keep, s, k + 1);
    }
  }

  // ---- the stream ----

  // From p to m the buffer holds the input from base + p on.
  ghost predicate Mirrors(buf: array<char>, input: string, base: nat, p: nat, m: nat)
    reads buf
  {
    p <= m < buf.Length && base + m <= |input| && buf[m] == '\0' && forall i :: p <= i < m ==> buf[i] == input[base + i] != '\0'
  }

  ghost predicate NoNewline(input: string, lo: nat, hi: nat)
    requires hi <= |input|
  {
    forall i :: lo <= i < hi ==> input[i] != '\n'
  }

  // strchr's answer q for the buffer from p on: the first newline, or -1.
  ghost predicate LineAt(buf: array<char>, input: string, base: nat, p: nat, q: int, m: nat)
    reads buf
  {
    && Mirrors(buf, input, base, p, m)
    && (q == -1 ==> NoNewline(input, base + p, base + m))
    && (q != -1 ==> p <= q < m && buf[q] == '\n' && NoNewline(input, base + p, base + q))
  }

  method Strchr(buf: array<char>, p: nat, ghost m: nat, ghost input: string, ghost base: nat) returns (q: int)
    requires Mirrors(buf, input, base, p, m)
    ensures LineAt(buf, input, base, p, q, m)
  {
    q := p;
    while buf[q] != '\0'
      invariant p <= q <= m && forall i :: p <= i < q ==> buf[i] != '\n'
      decreases m - q
    {
      if buf[q] == '\n' {
        SameBytes(buf, input, base, p, q);
        return;
      }
      q := q + 1;
    }
    SameBytes(buf, input, base, p, m);
    q := -1;
  }

  lemma SameBytes(buf: array<char>, input: string, base: nat, p: nat, q: nat)
    requires p <= q <= buf.Length && base + q <= |input| && forall i :: p <= i < q ==> buf[i] == input[base + i] && buf[i] != '\n'
    ensures NoNewline(input, base + p, base + q)
  {
    forall j | base + p <= j < base + q ensures input[j] != '\n' {
      assert buf[j - base] == input[base + (j - base)];
    }
  }

  method Memmove(buf: array<char>, p: nat, m: nat)
    requires p + m <= buf.Length
    modifies buf
    ensures forall j :: 0 <= j < m ==> buf[j] == old(buf[p + j])
  {
    var i := 0;
    while i < m
      invariant 0 <= i <= m
      invariant forall j :: 0 <= j < i ==> buf[j] == old(buf[p + j])
      invariant forall x :: p + i <= x < p + m ==> buf[x] == old(buf[x])
    {
      buf[i] := buf[p + i];
      i := i + 1;
    }
  }

  // One line of the buffer: terminated for match, and printed with its newline put back.
  method TryLine(re: string, buf: array<char>, p: nat, q: nat, ghost line: string, ghost keep: string -> bool) returns (out: string)
    requires p <= q < buf.Length && buf[q] == '\n' && buf[p..q] == line && Decides(keep, re)
    modifies buf
    ensures out == Chosen(keep, line) && forall i :: q < i < buf.Length ==> buf[i] == old(buf[i])
  {
    buf[q] := '\0';
    assert buf[p..q] == line;
    var b := Match(re, buf[p..q]);
    assert b <==> Asked(keep, line);
    if b {
      buf[q] := '\n';
      assert buf[p..q + 1] == line + "\n";
      return buf[p..q + 1];
    }
    return [];
  }

  datatype Unit = Unit

  ghost predicate SofarAt(keep: string -> bool, input: string, out: string, i: nat, u: Unit) {
    i <= |input| && Printed(keep, input, 0) == out + Printed(keep, input, i)
  }

  // out is what is printed of the input up to i. Opened by the lemmas below only.
  ghost predicate Sofar(keep: string -> bool, input: string, out: string, i: nat) {
    forall u {:trigger SofarAt(keep, input, out, i, u)} :: SofarAt(keep, input, out, i, u)
  }

  lemma SofarIs(keep: string -> bool, input: string, out: string, i: nat)
    ensures Sofar(keep, input, out, i) <==> i <= |input| && Printed(keep, input, 0) == out + Printed(keep, input, i)
  {
    assert SofarAt(keep, input, out, i, Unit) <==> i <= |input| && Printed(keep, input, 0) == out + Printed(keep, input, i);
  }

  lemma PrintedFirst(keep: string -> bool, s: string, i: nat, k: nat)
    requires i <= k < |s| && s[k] == '\n' && k - i + 1 < SIZE && NoNewline(s, i, k)
    ensures Printed(keep, s, i) == Chosen(keep, s[i..k]) + Printed(keep, s, k + 1)
  {
    NewlineIs(s, i, k);
  }

  lemma SofarLine(keep: string -> bool, input: string, out: string, i: nat, k: nat, piece: string)
    requires Sofar(keep, input, out, i) && i <= k < |input| && input[k] == '\n' && k - i + 1 < SIZE && NoNewline(input, i, k)
    requires piece == Chosen(keep, input[i..k])
    ensures Sofar(keep, input, out + piece, k + 1)
  {
    SofarIs(keep, input, out, i);
    PrintedFirst(keep, input, i, k);
    Glue(Printed(keep, input, 0), out, Printed(keep, input, i), piece, Printed(keep, input, k + 1));
    SofarIs(keep, input, out + piece, k + 1);
  }

  lemma SofarEnd(keep: string -> bool, input: string, out: string, i: nat, m: nat)
    requires i + m <= |input| && Sofar(keep, input, out, i) && NoNewline(input, i, i + m) && (m == SIZE - 1 || i + m == |input|)
    ensures out == Printed(keep, input, 0)
  {
    SofarIs(keep, input, out, i);
    NewlineIs(input, i, i + m);
    assert Printed(keep, input, i) == [];
  }

  // The line from p to the newline at q.
  method TakeLine(re: string, buf: array<char>, p: nat, q: nat, ghost m: nat, ghost input: string, ghost base: nat,
                  ghost sofar: string, ghost keep: string -> bool) returns (piece: string)
    requires Decides(keep, re) && m < SIZE && LineAt(buf, input, base, p, q, m) && Sofar(keep, input, sofar, base + p)
    modifies buf
    ensures Mirrors(buf, input, base, q + 1, m) && Sofar(keep, input, sofar + piece, base + q + 1)
  {
    ghost var line := input[base + p..base + q];
    assert buf[p..q] == line;
    piece := TryLine(re, buf, p, q, line, keep);
    SofarLine(keep, input, sofar, base + p, base + q, piece);
  }

  // The complete lines in the buffer: print the matching ones, return where the rest starts.
  method Split(re: string, buf: array<char>, m: nat, ghost input: string, ghost base: nat, ghost before: string,
               ghost keep: string -> bool) returns (out: string, p: nat)
    requires Decides(keep, re) && m < SIZE && Mirrors(buf, input, base, 0, m) && Sofar(keep, input, before, base)
    modifies buf
    ensures Mirrors(buf, input, base, p, m) && NoNewline(input, base + p, base + m) && Sofar(keep, input, before + out, base + p)
  {
    out, p := [], 0;
    ghost var sofar := before;
    assert before + out == before;
    var q := Strchr(buf, p, m, input, base);
    while q != -1
      invariant LineAt(buf, input, base, p, q, m) && Sofar(keep, input, sofar, base + p) && sofar == before + out
      decreases m - p
    {
      var piece := TakeLine(re, buf, p, q, m, input, base, sofar, keep);
      out, sofar, p := out + piece, sofar + piece, q + 1;
      q := Strchr(buf, p, m, input, base);
    }
  }

  // How much read delivers: what it likes, but something, unless nothing is left or nothing fits.
  function Delivered(size: nat, want: nat, left: nat): (n: nat)
    ensures n <= want && n <= left && (n == 0 <==> want == 0 || left == 0)
  {
    var most := if want < left then want else left;
    if most == 0 then 0 else if size == 0 then 1 else if size < most then size else most
  }

  ghost predicate BetweenAt(keep: string -> bool, input: string, buf: array<char>, m: nat, pos: nat, out: string, u: Unit)
    reads buf
  {
    && buf.Length == SIZE && m < SIZE && m <= pos <= |input|
    && (forall i :: 0 <= i < m ==> buf[i] == input[pos - m + i])
    && NoNewline(input, pos - m, pos)
    && Sofar(keep, input, out, pos - m)
  }

  // What the buffer and the output are between reads.
  ghost predicate Between(keep: string -> bool, input: string, buf: array<char>, m: nat, pos: nat, out: string)
    reads buf
  {
    forall u {:trigger BetweenAt(keep, input, buf, m, pos, out, u)} :: BetweenAt(keep, input, buf, m, pos, out, u)
  }

  // read of n bytes into the buffer, and a NUL after them.
  method Append(buf: array<char>, m: nat, input: string, pos: nat, n: nat)
    requires m + n < buf.Length && m <= pos && pos + n <= |input| && (forall i :: 0 <= i < m ==> buf[i] == input[pos - m + i])
    requires forall i :: 0 <= i < |input| ==> input[i] != '\0'
    modifies buf
    ensures Mirrors(buf, input, pos - m, 0, m + n)
  {
    var i := 0;
    while i < n
      invariant 0 <= i <= n && forall j :: 0 <= j < m + i ==> buf[j] == input[pos - m + j]
    {
      buf[m + i] := input[pos + i];
      i := i + 1;
    }
    buf[m + n] := '\0';
  }

  // One round of grep's loop.
  method Round(re: string, buf: array<char>, m: nat, input: string, pos: nat, n: nat, ghost before: string,
               ghost keep: string -> bool) returns (out: string, left: nat)
    requires Decides(keep, re) && Between(keep, input, buf, m, pos, before) && 0 < n && m + n < SIZE && pos + n <= |input|
    requires forall i :: 0 <= i < |input| ==> input[i] != '\0'
    modifies buf
    ensures Between(keep, input, buf, left, pos + n, before + out) && left < SIZE
  {
    assert BetweenAt(keep, input, buf, m, pos, before, Unit);
    Append(buf, m, input, pos, n);
    var p;
    out, p := Split(re, buf, m + n, input, pos - m, before, keep);
    left := m + n - p;
    Memmove(buf, p, left);
  }

  /** grep prints the same lines however the input is cut into pieces. */
  method Grep(re: string, input: string, sizes: nat -> nat, ghost keep: string -> bool) returns (out: string)
    requires Decides(keep, re) && forall i :: 0 <= i < |input| ==> input[i] != '\0'
    ensures out == Printed(keep, input, 0)
  {
    var buf := new char[1024];
    var m: nat, pos: nat, round := 0, 0, 0;
    out := [];
    SofarIs(keep, input, out, 0);
    assert BetweenAt(keep, input, buf, m, pos, out, Unit);
    var n := Delivered(sizes(0), SIZE - m - 1, |input|);
    while n > 0
      invariant buf.Length == SIZE && m < SIZE && Between(keep, input, buf, m, pos, out)
      invariant 0 <= n <= SIZE - m - 1 && pos + n <= |input|
      invariant n == 0 ==> m == SIZE - 1 || pos == |input|
      decreases |input| - pos, n
    {
      var piece;
      piece, m := Round(re, buf, m, input, pos, n, out, keep);
      out, pos, round := out + piece, pos + n, round + 1;
      n := Delivered(sizes(round), SIZE - m - 1, |input| - pos);
    }
    assert BetweenAt(keep, input, buf, m, pos, out, Unit);
    SofarEnd(keep, input, out, pos - m, m);
  }
}
