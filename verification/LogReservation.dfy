/** Exactly when a run can reach log_write's "too big a transaction" panic in an
    operation that keeps to its budget: kernel/log.c:220 against mkfs/mkfs.c:25. */
module LogReservation {
  import opened LogFormat
  import opened LogProtocol
  import opened LogTheorems

  ghost predicate Reachable(P: Params, c: Config) {
    exists run :: IsRun(P, run) && run[|run| - 1] == c
  }

  lemma Extend(P: Params, run: seq<Config>, c: Config)
    requires IsRun(P, run) && Next(P, run[|run| - 1], c)
    ensures IsRun(P, run + [c])
  {
    var run' := run + [c];
    forall i | 0 <= i < |run'| ensures RunAt(P, run', i) {
      if i < |run| {
        assert RunAt(P, run, i);
      }
    }
  }

  lemma ReachStep(P: Params, c: Config, step: Step) returns (c': Config)
    requires Reachable(P, c) && Enabled(P, c.s, step)
    ensures Reachable(P, c') && c'.s == Do(P, c.s, step)
  {
    var run :| IsRun(P, run) && run[|run| - 1] == c;
    RunInv(P, run, |run| - 1);
    c' := Config(Do(P, c.s, step), AbsDo(P, c.s, c.a, step));
    assert Takes(P, c, step, c');
    Extend(P, run, c');
  }

  /** An operation with budget left is about to append a block and log_write panics. */
  ghost predicate AppendPanic(P: Params, c: Config, p: nat, b: int) {
    && p in c.s.ops && c.s.ops[p] < P.maxop
    && Holds(c.s, Proc(p), b) && b !in c.s.lh && P.l.IsHome(b)
    && TooBig(P, c.s)
  }

  /** An operation is about to log a block that is in the log already and log_write panics. */
  ghost predicate AbsorbPanic(P: Params, c: Config, p: nat, b: int) {
    && p in c.s.ops && c.s.ops[p] <= P.maxop
    && Holds(c.s, Proc(p), b) && b in c.s.lh
    && TooBig(P, c.s)
  }

  // The number of blocks outside the log region, and the m-th of them.
  function Homes(P: Params): (n: int) {
    P.l.nblocks - P.l.size
  }

  function HomeBlock(P: Params, m: nat): (b: int) {
    if m < P.l.start then m else P.l.size + m
  }

  function Logged(P: Params, m: nat): (lh: seq<int>) {
    seq(m, i requires 0 <= i => HomeBlock(P, i))
  }

  lemma LoggedFacts(P: Params, m: nat)
    ensures Logged(P, m + 1) == Logged(P, m) + [HomeBlock(P, m)]
    ensures HomeBlock(P, m) !in Logged(P, m)
    ensures P.Valid() && m < Homes(P) ==> P.l.IsHome(HomeBlock(P, m))
  {
  }

  ghost predicate IdleBuf(buf: Buf, refs: int) {
    buf.valid && buf.refcnt == refs && buf.lock.Unlocked? && buf.waiters == 0
  }

  // Nobody uses a buffer; the logged blocks and no others are cached, once there are any.
  ghost predicate IdleCache(P: Params, cache: map<int, Buf>, lh: seq<int>) {
    && (lh == [] ==> cache.Keys == {P.l.start} && IdleBuf(cache[P.l.start], 0))
    && (lh != [] ==> |cache| == |lh| && (forall b :: b in cache <==> b in lh)
                     && forall b :: b in lh ==> IdleBuf(cache[b], 1))
  }

  // Process 1 has an operation open that has appended y blocks; process 0 one that has
  // appended x, or none if x is -1.
  function OpsOf(x: int, y: nat): (ops: map<nat, nat>) {
    if x < 0 then map[1 := y] else map[0 := x, 1 := y]
  }

  datatype LevelPart = Calm | Admits | Records | Idles

  ghost predicate LevelPartOk(P: Params, s: State, x: int, y: nat, m: nat, part: LevelPart) {
    match part
    case Calm =>
      && P.Valid() && P.nbuf >= 1
      && s.phase.Running? && !s.committing && |s.disk| == P.l.nblocks && s.dirty == {}
    case Admits => s.ops == OpsOf(x, y)
    case Records => s.lh == Logged(P, m)
    case Idles => IdleCache(P, s.cache, s.lh)
  }

  // The log holds the first m home blocks.
  ghost predicate Level(P: Params, s: State, x: int, y: nat, m: nat) {
    forall part {:trigger LevelPartOk(P, s, x, y, m, part)} :: LevelPartOk(P, s, x, y, m, part)
  }

  lemma LevelMeans(P: Params, s: State, x: int, y: nat, m: nat)
    ensures Level(P, s, x, y, m) <==>
      && P.Valid() && P.nbuf >= 1
      && s.phase.Running? && !s.committing && |s.disk| == P.l.nblocks && s.dirty == {}
      && s.ops == OpsOf(x, y) && s.lh == Logged(P, m) && IdleCache(P, s.cache, s.lh)
  {
    if Level(P, s, x, y, m) {
      assert LevelPartOk(P, s, x, y, m, Calm) && LevelPartOk(P, s, x, y, m, Admits);
      assert LevelPartOk(P, s, x, y, m, Records) && LevelPartOk(P, s, x, y, m, Idles);
    }
  }

  // Boot a freshly made file system and recover: the states and steps on the way.
  function BootState(P: Params, disk: Disk, i: nat): (s: State)
    requires P.l.start < |disk|
  {
    var h, head := P.l.start, PutHeader(Blank(), []);
    if i == 0 then State(disk, map[], [], map[], false, RecRead, {})
    else if i == 1 then State(disk, map[h := Buf(false, Blank(), 1, Unlocked, 1)], [], map[], false, RecRead, {})
    else if i == 2 then State(disk, map[h := Buf(true, Blank(), 1, LockedBy(Kernel), 0)], [], map[], false, RecRead, {})
    else if i == 3 then State(disk, map[h := Buf(true, Blank(), 0, Unlocked, 0)], [], map[], false, RecInstall(0), {})
    else if i == 4 then State(disk, map[h := Buf(true, Blank(), 1, Unlocked, 1)], [], map[], false, RecInstall(0), {})
    else if i == 5 then State(disk, map[h := Buf(true, Blank(), 1, LockedBy(Kernel), 0)], [], map[], false, RecInstall(0), {})
    else State(disk[h := head], map[h := Buf(true, head, 0, Unlocked, 0)], [], map[], false, Running, {})
  }

  function BootStep(P: Params, i: nat): (step: Step) {
    if i == 0 then Miss(P.l.start)
    else if i == 1 || i == 4 then Acquire(Kernel, P.l.start)
    else if i == 2 then ReadHeader
    else if i == 3 then Hit(P.l.start)
    else RecEraseHeader
  }

  lemma BootReads(P: Params, disk: Disk, i: nat)
    requires P.Valid() && P.nbuf >= 1 && i < 3 && disk == seq(P.l.nblocks, _ => Blank())
    ensures Enabled(P, BootState(P, disk, i), BootStep(P, i))
    ensures Do(P, BootState(P, disk, i), BootStep(P, i)) == BootState(P, disk, i + 1)
  {
    assert GetHeader(Blank()) == [];
  }

  lemma BootErases(P: Params, disk: Disk, i: nat)
    requires P.Valid() && P.nbuf >= 1 && 3 <= i < 6 && disk == seq(P.l.nblocks, _ => Blank())
    ensures Enabled(P, BootState(P, disk, i), BootStep(P, i))
    ensures Do(P, BootState(P, disk, i), BootStep(P, i)) == BootState(P, disk, i + 1)
  {
  }

  lemma {:induction false} ReachBoot(P: Params, disk: Disk, i: nat) returns (c: Config)
    requires P.Valid() && P.nbuf >= 1 && i <= 6 && disk == seq(P.l.nblocks, _ => Blank())
    ensures Reachable(P, c) && c.s == BootState(P, disk, i)
    decreases i
  {
    if i == 0 {
      assert GetHeader(Blank()) == [];
      var r := Recovered(P.l, disk);
      c := Config(BootState(P, disk, 0), Abs([r], r));
      assert IsRun(P, [c]);
    } else {
      var c0 := ReachBoot(P, disk, i - 1);
      if i <= 3 {
        BootReads(P, disk, i - 1);
      } else {
        BootErases(P, disk, i - 1);
      }
      c := ReachStep(P, c0, BootStep(P, i - 1));
    }
  }

  lemma BeginPath(P: Params, s: State, y: nat, m: nat)
    requires Level(P, s, -1, y, m) && m + 2 * P.maxop <= P.logsize
    ensures Enabled(P, s, BeginOp(0)) && Level(P, Do(P, s, BeginOp(0)), 0, y, m)
  {
    LevelMeans(P, s, -1, y, m);
    LevelMeans(P, Do(P, s, BeginOp(0)), 0, y, m);
  }

  lemma EndPath(P: Params, s: State, x: nat, y: nat, m: nat)
    requires Level(P, s, x, y, m)
    ensures Enabled(P, s, EndOp(0)) && Level(P, Do(P, s, EndOp(0)), -1, y, m)
  {
    LevelMeans(P, s, x, y, m);
    assert s.ops - {0} == OpsOf(-1, y);
    LevelMeans(P, Do(P, s, EndOp(0)), -1, y, m);
  }

  // bget's choice for the m-th block: the first one recycles the header's buffer.
  function FetchStep(P: Params, m: nat): (step: Step) {
    if m == 0 then Recycle(HomeBlock(P, m), P.l.start) else Miss(HomeBlock(P, m))
  }

  // Process p holds the m-th block, everything else is as after m appends.
  ghost predicate Fetched(P: Params, s: State, t: State, m: nat, p: nat) {
    var b := HomeBlock(P, m);
    && t == s.(cache := t.cache)
    && Holds(t, Proc(p), b) && t.cache[b].refcnt == 1 && t.cache[b].waiters == 0
    && (forall x :: x in t.cache <==> x in s.lh || x == b)
    && |t.cache| == m + 1
    && forall x :: x in s.lh ==> x in s.cache && t.cache[x] == s.cache[x]
  }

  lemma FetchFirst(P: Params, s: State, p: nat)
    requires P.Valid() && s.lh == [] && IdleCache(P, s.cache, s.lh) && |s.disk| == P.l.nblocks && 0 < Homes(P)
    ensures Enabled(P, s, FetchStep(P, 0))
    ensures var t := Do(P, s, FetchStep(P, 0));
            && Enabled(P, t, Acquire(Proc(p), HomeBlock(P, 0)))
            && Fetched(P, s, Do(P, t, Acquire(Proc(p), HomeBlock(P, 0))), 0, p)
  {
    assert P.l.start in s.cache.Keys;
    assert s.cache - {P.l.start} == map[];
  }

  lemma FetchNext(P: Params, s: State, m: nat, p: nat)
    requires P.Valid() && s.lh == Logged(P, m) && IdleCache(P, s.cache, s.lh) && |s.disk| == P.l.nblocks
    requires 1 <= m < P.nbuf && m < Homes(P)
    ensures Enabled(P, s, FetchStep(P, m))
    ensures var t := Do(P, s, FetchStep(P, m));
            && Enabled(P, t, Acquire(Proc(p), HomeBlock(P, m)))
            && Fetched(P, s, Do(P, t, Acquire(Proc(p), HomeBlock(P, m))), m, p)
  {
    LoggedFacts(P, m);
  }

  lemma FetchPath(P: Params, s: State, x: int, y: nat, m: nat, p: nat)
    requires Level(P, s, x, y, m) && m < P.nbuf && m < Homes(P)
    ensures Enabled(P, s, FetchStep(P, m))
    ensures var t := Do(P, s, FetchStep(P, m));
            && Enabled(P, t, Acquire(Proc(p), HomeBlock(P, m)))
            && Fetched(P, s, Do(P, t, Acquire(Proc(p), HomeBlock(P, m))), m, p)
  {
    LevelMeans(P, s, x, y, m);
    if m == 0 {
      FetchFirst(P, s, p);
    } else {
      FetchNext(P, s, m, p);
    }
  }

  // The m-th block is logged by p and released.
  ghost predicate Appended(P: Params, s: State, t: State, m: nat, p: nat)
    requires p in s.ops
  {
    && t == s.(cache := t.cache, lh := Logged(P, m + 1), ops := s.ops[p := s.ops[p] + 1])
    && IdleCache(P, t.cache, t.lh)
  }

  lemma WritePath(P: Params, s: State, t: State, m: nat, p: nat)
    requires P.Valid() && s.phase.Running? && s.dirty == {} && s.lh == Logged(P, m) && IdleCache(P, s.cache, s.lh)
    requires p in s.ops && s.ops[p] < P.maxop && m < Room(P) && Fetched(P, s, t, m, p)
    ensures var b := HomeBlock(P, m);
            && Enabled(P, t, LogWrite(p, b))
            && Do(P, t, LogWrite(p, b)) == s.(cache := t.cache[b := t.cache[b].(refcnt := 2)],
                                              lh := Logged(P, m + 1), ops := s.ops[p := s.ops[p] + 1])
  {
    LoggedFacts(P, m);
  }

  lemma ReleasePath(P: Params, s: State, t: State, u: State, m: nat, p: nat)
    requires P.Valid() && s.phase.Running? && s.dirty == {} && s.lh == Logged(P, m) && IdleCache(P, s.cache, s.lh)
    requires p in s.ops && m < Room(P) && Fetched(P, s, t, m, p)
    requires var b := HomeBlock(P, m);
             u == s.(cache := t.cache[b := t.cache[b].(refcnt := 2)], lh := Logged(P, m + 1), ops := s.ops[p := s.ops[p] + 1])
    ensures Enabled(P, u, Brelse(p, HomeBlock(P, m)))
    ensures Appended(P, s, Do(P, u, Brelse(p, HomeBlock(P, m))), m, p)
  {
    LoggedFacts(P, m);
  }

  lemma AppendPath(P: Params, s: State, t: State, m: nat, p: nat)
    requires P.Valid() && s.phase.Running? && s.dirty == {} && s.lh == Logged(P, m) && IdleCache(P, s.cache, s.lh)
    requires p in s.ops && s.ops[p] < P.maxop && m < Room(P) && Fetched(P, s, t, m, p)
    ensures Enabled(P, t, LogWrite(p, HomeBlock(P, m)))
    ensures var u := Do(P, t, LogWrite(p, HomeBlock(P, m)));
            && Enabled(P, u, Brelse(p, HomeBlock(P, m)))
            && Appended(P, s, Do(P, u, Brelse(p, HomeBlock(P, m))), m, p)
  {
    WritePath(P, s, t, m, p);
    ReleasePath(P, s, t, Do(P, t, LogWrite(p, HomeBlock(P, m))), m, p);
  }

  // Two steps that are known to be possible.
  lemma ReachTwo(P: Params, c: Config, step: Step, step': Step) returns (c': Config)
    requires Reachable(P, c) && Enabled(P, c.s, step) && Enabled(P, Do(P, c.s, step), step')
    ensures Reachable(P, c') && c'.s == Do(P, Do(P, c.s, step), step')
  {
    var d := ReachStep(P, c, step);
    c' := ReachStep(P, d, step');
  }

  lemma ReachAppend(P: Params, c: Config, x: int, y: nat, m: nat, p: nat) returns (c': Config)
    requires Reachable(P, c) && Level(P, c.s, x, y, m) && m < Room(P) && m < P.nbuf && m < Homes(P)
    requires p in c.s.ops && c.s.ops[p] < P.maxop
    ensures Reachable(P, c') && Appended(P, c.s, c'.s, m, p)
  {
    var b := HomeBlock(P, m);
    FetchPath(P, c.s, x, y, m, p);
    var d := ReachTwo(P, c, FetchStep(P, m), Acquire(Proc(p), b));
    LevelMeans(P, c.s, x, y, m);
    AppendPath(P, c.s, d.s, m, p);
    c' := ReachTwo(P, d, LogWrite(p, b), Brelse(p, b));
  }

  lemma AppendX(P: Params, c: Config, x: nat, y: nat, m: nat) returns (c': Config)
    requires Reachable(P, c) && Level(P, c.s, x, y, m) && x < P.maxop
    requires m < Room(P) && m < P.nbuf && m < Homes(P)
    ensures Reachable(P, c') && Level(P, c'.s, x + 1, y, m + 1)
  {
    LevelMeans(P, c.s, x, y, m);
    c' := ReachAppend(P, c, x, y, m, 0);
    assert OpsOf(x, y)[0 := x + 1] == OpsOf(x + 1, y);
    LevelMeans(P, c'.s, x + 1, y, m + 1);
  }

  lemma AppendY(P: Params, c: Config, x: int, y: nat, m: nat) returns (c': Config)
    requires Reachable(P, c) && Level(P, c.s, x, y, m) && y < P.maxop
    requires m < Room(P) && m < P.nbuf && m < Homes(P)
    ensures Reachable(P, c') && Level(P, c'.s, x, y + 1, m + 1)
  {
    LevelMeans(P, c.s, x, y, m);
    c' := ReachAppend(P, c, x, y, m, 1);
    assert OpsOf(x, y)[1 := y + 1] == OpsOf(x, y + 1);
    LevelMeans(P, c'.s, x, y + 1, m + 1);
  }

  // Process 0 appends r blocks.
  lemma {:induction false} ReachX(P: Params, c: Config, m: nat, r: nat) returns (c': Config)
    requires Reachable(P, c) && Level(P, c.s, 0, 0, m)
    requires r <= P.maxop && m + r <= Room(P) && m + r <= P.nbuf && m + r <= Homes(P)
    ensures Reachable(P, c') && Level(P, c'.s, r, 0, m + r)
    decreases r
  {
    if r == 0 {
      c' := c;
    } else {
      var d := ReachX(P, c, m, r - 1);
      c' := AppendX(P, d, r - 1, 0, m + (r - 1));
    }
  }

  // Process 1 appends r blocks.
  lemma {:induction false} ReachY(P: Params, c: Config, x: int, m: nat, r: nat) returns (c': Config)
    requires Reachable(P, c) && Level(P, c.s, x, 0, m)
    requires r <= P.maxop && m + r <= Room(P) && m + r <= P.nbuf && m + r <= Homes(P)
    ensures Reachable(P, c') && Level(P, c'.s, x, r, m + r)
    decreases r
  {
    if r == 0 {
      c' := c;
    } else {
      var d := ReachY(P, c, x, m, r - 1);
      c' := AppendY(P, d, x, r - 1, m + (r - 1));
    }
  }

  lemma ReachBegin(P: Params, c: Config, m: nat) returns (c': Config)
    requires Reachable(P, c) && Level(P, c.s, -1, 0, m) && m + 2 * P.maxop <= P.logsize
    ensures Reachable(P, c') && Level(P, c'.s, 0, 0, m)
  {
    BeginPath(P, c.s, 0, m);
    c' := ReachStep(P, c, BeginOp(0));
  }

  lemma ReachEnd(P: Params, c: Config, m: nat) returns (c': Config)
    requires Reachable(P, c) && Level(P, c.s, 1, 0, m)
    ensures Reachable(P, c') && Level(P, c'.s, -1, 0, m)
  {
    EndPath(P, c.s, 1, 0, m);
    c' := ReachStep(P, c, EndOp(0));
  }

  // Boot, then the operation of process 1.
  lemma ReachOpened(P: Params) returns (c: Config)
    requires P.Valid() && P.nbuf >= 1 && P.maxop <= P.logsize
    ensures Reachable(P, c) && Level(P, c.s, -1, 0, 0)
  {
    c := ReachBoot(P, seq(P.l.nblocks, _ => Blank()), 6);
    c := ReachStep(P, c, BeginOp(1));
    LevelMeans(P, c.s, -1, 0, 0);
  }

  // Beside it an operation of process 0 begins, appends a block and ends.
  lemma ReachRound(P: Params, c: Config, m: nat) returns (c': Config)
    requires Reachable(P, c) && Level(P, c.s, -1, 0, m) && P.maxop >= 1
    requires m + 2 * P.maxop <= P.logsize && m < Room(P) && m < P.nbuf && m < Homes(P)
    ensures Reachable(P, c') && Level(P, c'.s, -1, 0, m + 1)
  {
    c' := ReachBegin(P, c, m);
    c' := AppendX(P, c', 0, 0, m);
    c' := ReachEnd(P, c', m + 1);
  }

  // As long as the log leaves room to admit it, such rounds fill the log.
  lemma {:induction false} ReachRounds(P: Params, m: nat) returns (c: Config)
    requires P.Valid() && P.nbuf >= 1 && P.maxop >= 1
    requires m + 2 * P.maxop <= P.logsize && m <= Room(P) && m <= P.nbuf && m <= Homes(P)
    ensures Reachable(P, c) && Level(P, c.s, -1, 0, m)
    decreases m
  {
    if m == 0 {
      c := ReachOpened(P);
    } else {
      var d := ReachRounds(P, m - 1);
      c := ReachRound(P, d, m - 1);
    }
  }

  // The last two budgets, x of process 0 and y of process 1, on top.
  lemma ReachTop(P: Params, m: nat, x: nat, y: nat) returns (c: Config)
    requires P.Valid() && P.nbuf >= 1 && 1 <= P.maxop && x <= P.maxop && y <= P.maxop
    requires m + 2 * P.maxop <= P.logsize
    requires m + x + y <= Room(P) && m + x + y <= P.nbuf && m + x + y <= Homes(P)
    ensures Reachable(P, c) && Level(P, c.s, x, y, m + x + y)
  {
    c := ReachRounds(P, m);
    c := ReachBegin(P, c, m);
    c := ReachX(P, c, m, x);
    c := ReachY(P, c, x, m + x, y);
  }

  // The fill levels that are reached while an operation is open.
  ghost predicate CanFill(P: Params, n: int) {
    && 1 <= P.maxop <= P.logsize
    && 0 <= n <= Room(P) && n <= P.nbuf && n <= Homes(P)
    && (2 * P.maxop <= P.logsize || n <= P.maxop)
  }

  /** A log of n blocks with an operation open, and one with budget left whenever the
      reservation allows it. */
  lemma ReachLevel(P: Params, n: nat) returns (c: Config, x: int, y: nat)
    requires P.Valid() && P.nbuf >= 1 && CanFill(P, n)
    ensures Reachable(P, c) && Level(P, c.s, x, y, n) && y <= P.maxop
    ensures n < (if 2 * P.maxop <= P.logsize then P.logsize else P.maxop) ==> y < P.maxop
  {
    if P.logsize < 2 * P.maxop {
      x, y := -1, n;
      c := ReachOpened(P);
      c := ReachY(P, c, -1, 0, n);
    } else if n <= P.logsize - 2 * P.maxop {
      x, y := -1, 0;
      c := ReachRounds(P, n);
    } else {
      var m := P.logsize - 2 * P.maxop;
      x := if n - m <= P.maxop then n - m else P.maxop;
      y := n - m - x;
      c := ReachTop(P, m, x, y);
    }
  }

  // ----- what no run can do -----

  // Only admitted operations are in progress, an idle log is empty, and when LOGSIZE has
  // room for one budget only, the log is what the one operation has appended.
  ghost predicate Admitted(P: Params, s: State) {
    && (s.ops != map[] ==> P.maxop <= P.logsize)
    && (s.phase.Running? && s.ops == map[] ==> s.lh == [])
    && (s.phase.Running? && s.lh != [] ==> P.maxop >= 1)
    && (P.logsize < 2 * P.maxop ==> |s.ops| <= 1 && forall p :: p in s.ops ==> |s.lh| <= s.ops[p])
  }

  lemma Budgets(n: nat, d: nat)
    ensures n >= 1 ==> (n + 1) * d >= 2 * d
    ensures (n + 1) * d >= d
  {
    if n >= 1 {
      assert (n + 1) * d == (n - 1) * d + 2 * d;
      assert (n - 1) * d >= 0;
    }
    assert (n + 1) * d == n * d + d;
  }

  lemma BeginAdmitted(P: Params, s: State, p: nat)
    requires Admitted(P, s) && s.phase.Running? && p !in s.ops
    requires P.maxop <= P.logsize && (|s.ops| >= 1 ==> 2 * P.maxop <= P.logsize)
    ensures Admitted(P, s.(ops := s.ops[p := 0]))
  {
  }

  lemma EndAdmitted(P: Params, s: State, p: nat)
    requires Admitted(P, s) && Enabled(P, s, EndOp(p))
    ensures Admitted(P, Do(P, s, EndOp(p)))
  {
    assert |s.ops - {p}| == |s.ops| - 1;
  }

  lemma OneKey(ops: map<nat, nat>, p: nat)
    requires p in ops && |ops| <= 1
    ensures forall q :: q in ops ==> q == p
  {
    forall q | q in ops ensures q == p {
      SubsetCount({p, q}, ops.Keys);
    }
  }

  lemma WriteAdmitted(P: Params, s: State, p: nat, b: int)
    requires Admitted(P, s) && Enabled(P, s, LogWrite(p, b))
    ensures Admitted(P, Do(P, s, LogWrite(p, b)))
  {
    var ops := s.ops[p := s.ops[p] + 1];
    assert ops.Keys == s.ops.Keys;
    assert |ops| == |ops.Keys| && |s.ops| == |s.ops.Keys|;
    if P.logsize < 2 * P.maxop {
      OneKey(s.ops, p);
    }
  }

  lemma KernelAdmitted(P: Params, s: State, a: Abs, step: Step)
    requires ShapeOk(P, s, a) && Enabled(P, s, step) && KernelStep(step)
    ensures Admitted(P, Do(P, s, step))
  {
    assert Do(P, s, step).ops == map[];
  }

  lemma KeepAdmitted(P: Params, s: State, a: Abs, step: Step)
    requires ShapeOk(P, s, a) && Admitted(P, s) && Enabled(P, s, step)
    ensures Admitted(P, Do(P, s, step))
  {
    if step.BeginOp? {
      Budgets(|s.ops|, P.maxop);
      BeginAdmitted(P, s, step.p);
    } else if step.EndOp? {
      EndAdmitted(P, s, step.p);
    } else if step.LogWrite? {
      WriteAdmitted(P, s, step.p, step.b);
    } else if KernelStep(step) {
      KernelAdmitted(P, s, a, step);
    }
  }

  lemma {:induction false} RunAdmitted(P: Params, run: seq<Config>, i: nat)
    requires IsRun(P, run) && i < |run|
    ensures Admitted(P, run[i].s)
  {
    assert RunAt(P, run, i);
    if i > 0 {
      RunAdmitted(P, run, i - 1);
      RunInv(P, run, i - 1);
      var step :| Takes(P, run[i - 1], step, run[i]);
      ShapePart(P, run[i - 1].s, run[i - 1].a);
      KeepAdmitted(P, run[i - 1].s, run[i - 1].a, step);
    }
  }

  lemma Member<T>(s: set<T>) returns (x: T)
    requires s != {}
    ensures x in s
  {
    x :| x in s;
  }

  lemma {:induction false} Within(bs: set<int>, lo: int, hi: int)
    requires lo <= hi && forall b :: b in bs ==> lo <= b < hi
    ensures |bs| <= hi - lo
    decreases hi - lo
  {
    if lo < hi {
      assert |bs - {hi - 1}| >= |bs| - 1;
      Within(bs - {hi - 1}, lo, hi - 1);
    } else if bs != {} {
      var _ := Member(bs);
    }
  }

  lemma HomesBound(P: Params, bs: set<int>)
    requires P.Valid() && forall b :: b in bs ==> P.l.IsHome(b)
    ensures |bs| <= Homes(P)
  {
    var low := set b | b in bs && b < P.l.start;
    Within(low, 0, P.l.start);
    Within(bs - low, P.l.start + P.l.size, P.l.nblocks);
    assert bs == low + (bs - low);
  }

  // The logged blocks and a home block held are cached and lie outside the log region.
  lemma Spread(P: Params, s: State, a: Abs, b: int)
    requires ShapeOk(P, s, a) && RefsOk(P, s) && s.phase.Running? && b in s.cache && P.l.IsHome(b)
    ensures b in s.lh ==> |s.lh| <= P.nbuf && |s.lh| <= Homes(P)
    ensures b !in s.lh ==> |s.lh| < P.nbuf && |s.lh| < Homes(P)
  {
    var bs := set x | x in s.lh;
    DistinctCount(s.lh);
    SubsetCount(bs + {b}, s.cache.Keys);
    HomesBound(P, bs + {b});
    assert b in s.lh ==> bs + {b} == bs;
  }

  // What a state of a run must satisfy for an operation to be open over a log of its size.
  lemma FillBound(P: Params, c: Config, p: nat, b: int)
    requires Reachable(P, c) && p in c.s.ops && Holds(c.s, Proc(p), b)
    ensures c.s.phase.Running? && P.Valid() && P.l.IsHome(b)
    ensures 1 <= |c.s.lh| ==> CanFill(P, |c.s.lh|)
    ensures c.s.ops[p] < P.maxop ==> CanFill(P, |c.s.lh|) && |c.s.lh| < P.logsize
    ensures c.s.ops[p] < P.maxop && P.logsize < 2 * P.maxop ==> |c.s.lh| < P.maxop
    ensures b !in c.s.lh ==> |c.s.lh| < P.nbuf && |c.s.lh| < Homes(P)
  {
    var run :| IsRun(P, run) && run[|run| - 1] == c;
    var i := |run| - 1;
    RunInv(P, run, i);
    RunAdmitted(P, run, i);
    assert PartOk(P, c.s, c.a, Shape) && PartOk(P, c.s, c.a, Refs) && PartOk(P, c.s, c.a, Reserve);
    assert BufOk(P, Pins(c.s.phase, c.s.lh), Want(P, c.s.phase, c.s.lh), b, c.s.cache[b]);
    Spread(P, c.s, c.a, b);
    UnspentBounds(c.s.ops, P.maxop);
    if c.s.ops[p] < P.maxop {
      ReservationHolds(P, run, i, p);
    }
  }

  // ----- the two panics -----

  // Both exact conditions: the level `Room` at which log_write panics can be filled,
  // with an operation open; to append a block the operation needs budget, and the block
  // a buffer and a home of its own.
  ghost predicate AppendCond(P: Params) {
    && 1 <= P.maxop <= P.logsize
    && P.l.size <= (if P.logsize < 2 * P.maxop then P.maxop else P.logsize)
    && P.l.size <= P.nbuf
    && 2 * P.l.size <= P.l.nblocks
  }

  ghost predicate AbsorbCond(P: Params) {
    && 1 <= P.maxop <= P.logsize
    && P.l.size >= 2
    && (P.logsize < 2 * P.maxop ==> Room(P) <= P.maxop)
    && Room(P) <= P.nbuf
    && P.l.size + Room(P) <= P.l.nblocks
  }

  lemma ReachAppendPanic(P: Params) returns (c: Config, b: int)
    requires P.Valid() && AppendCond(P)
    ensures Reachable(P, c) && AppendPanic(P, c, 1, b)
  {
    var n := P.l.size - 1;
    var x, y;
    c, x, y := ReachLevel(P, n);
    b := HomeBlock(P, n);
    LevelMeans(P, c.s, x, y, n);
    FetchPath(P, c.s, x, y, n, 1);
    LoggedFacts(P, n);
    c := ReachTwo(P, c, FetchStep(P, n), Acquire(Proc(1), b));
  }

  // A logged block is cached and idle: it can be had again.
  lemma RefetchPath(P: Params, s: State, x: int, y: nat, m: nat, p: nat)
    requires Level(P, s, x, y, m) && 1 <= m <= Homes(P)
    ensures Enabled(P, s, Hit(HomeBlock(P, 0)))
    ensures var t := Do(P, s, Hit(HomeBlock(P, 0)));
            && Enabled(P, t, Acquire(Proc(p), HomeBlock(P, 0)))
            && var u := Do(P, t, Acquire(Proc(p), HomeBlock(P, 0)));
               Holds(u, Proc(p), HomeBlock(P, 0)) && u == s.(cache := u.cache)
  {
    LevelMeans(P, s, x, y, m);
    LoggedFacts(P, 0);
    assert s.lh[0] == HomeBlock(P, 0);
  }

  lemma ReachAbsorbPanic(P: Params) returns (c: Config, b: int)
    requires P.Valid() && AbsorbCond(P)
    ensures Reachable(P, c) && AbsorbPanic(P, c, 1, b)
  {
    var n := Room(P);
    var x, y;
    c, x, y := ReachLevel(P, n);
    b := HomeBlock(P, 0);
    LevelMeans(P, c.s, x, y, n);
    assert c.s.lh[0] == b;
    RefetchPath(P, c.s, x, y, n, 1);
    c := ReachTwo(P, c, Hit(b), Acquire(Proc(1), b));
  }

  /** An operation with budget left can meet the panic when it appends a block if and
      only if one budget fits LOGSIZE, log.size is at most LOGSIZE, or MAXOPBLOCKS if
      LOGSIZE has no room for two budgets, and there are log.size buffers and log.size
      blocks outside the log. */
  lemma AppendPanicIff(P: Params)
    requires P.Valid()
    ensures (exists c, p, b :: Reachable(P, c) && AppendPanic(P, c, p, b)) <==> AppendCond(P)
  {
    if AppendCond(P) {
      var c, b := ReachAppendPanic(P);
    }
    forall c, p, b | Reachable(P, c) && AppendPanic(P, c, p, b) ensures AppendCond(P) {
      FillBound(P, c, p, b);
    }
  }

  /** An operation can meet the panic when it logs a block again if and only if one
      budget fits LOGSIZE, the log holds any block at all, the smaller of LOGSIZE and
      log.size - 1 is at most MAXOPBLOCKS if LOGSIZE has no room for two budgets, and
      there are that many buffers and blocks outside the log. A larger log.size does
      not remove it. */
  lemma AbsorbPanicIff(P: Params)
    requires P.Valid()
    ensures (exists c, p, b :: Reachable(P, c) && AbsorbPanic(P, c, p, b)) <==> AbsorbCond(P)
  {
    if AbsorbCond(P) {
      var c, b := ReachAbsorbPanic(P);
    }
    forall c, p, b | Reachable(P, c) && AbsorbPanic(P, c, p, b) ensures AbsorbCond(P) {
      FillBound(P, c, p, b);
    }
  }

  /** The values of kernel/param.h and mkfs/mkfs.c, LOGSIZE = NBUF = nlog = 30 and
      MAXOPBLOCKS = 10 on a 2000-block disk whose log starts at block 2, meet both
      conditions; one more block for the log removes the first panic and not the second. */
  lemma ShippedSizes()
    ensures var P := Params(Layout(2, 30, 2000), 30, 10, 30);
            && (exists c, p, b :: Reachable(P, c) && AppendPanic(P, c, p, b))
            && (exists c, p, b :: Reachable(P, c) && AbsorbPanic(P, c, p, b))
    ensures var P := Params(Layout(2, 31, 2000), 30, 10, 31);
            && !(exists c, p, b :: Reachable(P, c) && AppendPanic(P, c, p, b))
            && (exists c, p, b :: Reachable(P, c) && AbsorbPanic(P, c, p, b))
  {
    AppendPanicIff(Params(Layout(2, 30, 2000), 30, 10, 30));
    AbsorbPanicIff(Params(Layout(2, 30, 2000), 30, 10, 30));
    AppendPanicIff(Params(Layout(2, 31, 2000), 30, 10, 31));
    AbsorbPanicIff(Params(Layout(2, 31, 2000), 30, 10, 31));
  }
}
