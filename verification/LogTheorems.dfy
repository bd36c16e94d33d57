/** What every run of the log protocol guarantees: crash atomicity, isolation,
    cache coherence, pin accounting and log space (kernel/log.c, kernel/bio.c). */
module LogTheorems {
  import opened Common
  import opened LogFormat
  import opened LogProtocol

  datatype Config = Config(s: State, a: Abs)

  /** The machine boots on any disk whose header is well formed, for example one
      left by a crash of an earlier run; its contents are what recovery makes of it. */
  ghost predicate Boot(P: Params, c: Config) {
    && P.Valid()
    && HeaderOk(P.l, c.s.disk)
    && c.s == State(c.s.disk, map[], [], map[], false, RecRead, {})
    && c.a == Abs([Recovered(P.l, c.s.disk)], Recovered(P.l, c.s.disk))
  }

  ghost predicate Takes(P: Params, c: Config, step: Step, c': Config) {
    && Enabled(P, c.s, step)
    && c.a.groups != []
    && c' == Config(Do(P, c.s, step), AbsDo(P, c.s, c.a, step))
  }

  ghost predicate Next(P: Params, c: Config, c': Config) {
    exists step :: Takes(P, c, step, c')
  }

  // The first configuration is one after boot, every other one follows the one before it.
  ghost predicate RunAt(P: Params, run: seq<Config>, i: nat)
    requires i < |run|
  {
    if i == 0 then Boot(P, run[0]) else Next(P, run[i - 1], run[i])
  }

  ghost predicate IsRun(P: Params, run: seq<Config>) {
    run != [] && forall i {:trigger RunAt(P, run, i)} :: 0 <= i < |run| ==> RunAt(P, run, i)
  }

  lemma BootInv(P: Params, c: Config)
    requires Boot(P, c)
    ensures Inv(P, c.s, c.a)
  {
    RecoveryYields(P.l, c.s.disk, Recovered(P.l, c.s.disk));
    Whole(P, c.s, c.a);
  }

  // The steps of commit, recovery and crash.
  predicate KernelStep(step: Step) {
    step.CopyToLog? || step.WriteHeader? || step.CopyHome? || step.EraseHeader? || step.EndCommit?
    || step.Crash? || step.ReadHeader? || step.RecCopyHome? || step.RecEraseHeader?
  }

  lemma KernelStepInv(P: Params, s: State, a: Abs, step: Step)
    requires Inv(P, s, a) && Enabled(P, s, step) && KernelStep(step)
    ensures Inv(P, Do(P, s, step), AbsDo(P, s, a, step))
  {
    match step
    case CopyToLog => KeepCopyToLog(P, s, a, step);
    case WriteHeader => KeepWriteHeader(P, s, a, step);
    case CopyHome => KeepCopyHome(P, s, a, step);
    case EraseHeader => KeepErase(P, s, a, step);
    case EndCommit => KeepEndCommit(P, s, a, step);
    case Crash => KeepCrash(P, s, a, step);
    case ReadHeader => KeepReadHeader(P, s, a, step);
    case RecCopyHome => KeepCopyHome(P, s, a, step);
    case RecEraseHeader => KeepErase(P, s, a, step);
  }

  lemma ProcessStepInv(P: Params, s: State, a: Abs, step: Step)
    requires Inv(P, s, a) && Enabled(P, s, step) && !KernelStep(step)
    ensures Inv(P, Do(P, s, step), AbsDo(P, s, a, step))
  {
    match step
    case BeginOp(_) => KeepBeginOp(P, s, a, step);
    case EndOp(_) => KeepEndOp(P, s, a, step);
    case Hit(_) => KeepBget(P, s, a, step);
    case Miss(_) => KeepBget(P, s, a, step);
    case Recycle(_, _) => KeepBget(P, s, a, step);
    case Acquire(_, _) => KeepAcquire(P, s, a, step);
    case Modify(_, _, _) => KeepModify(P, s, a, step);
    case LogWrite(_, _) => KeepLogWrite(P, s, a, step);
    case Brelse(_, _) => KeepBrelse(P, s, a, step);
  }

  lemma StepInv(P: Params, c: Config, step: Step, c': Config)
    requires Inv(P, c.s, c.a) && Takes(P, c, step, c')
    ensures Inv(P, c'.s, c'.a)
  {
    if KernelStep(step) {
      KernelStepInv(P, c.s, c.a, step);
    } else {
      ProcessStepInv(P, c.s, c.a, step);
    }
  }

  lemma {:induction false} RunInv(P: Params, run: seq<Config>, i: nat)
    requires IsRun(P, run) && i < |run|
    ensures Inv(P, run[i].s, run[i].a)
  {
    assert RunAt(P, run, i);
    if i == 0 {
      BootInv(P, run[0]);
    } else {
      RunInv(P, run, i - 1);
      var step :| Takes(P, run[i - 1], step, run[i]);
      StepInv(P, run[i - 1], step, run[i]);
    }
  }

  /** Crash atomicity. Stop any run anywhere, between any two block writes of
      commit or of recovery: recover_from_log yields the home blocks as the last
      committed group left them, and the committed groups only ever grow. */
  lemma CrashAtomicity(P: Params, run: seq<Config>, i: nat, j: nat)
    requires IsRun(P, run) && i <= j < |run|
    ensures HeaderOk(P.l, run[j].s.disk) && run[j].a.groups != []
    ensures SameHome(P.l, Recovered(P.l, run[j].s.disk), Base(run[j].a))
    ensures run[i].a.groups <= run[j].a.groups
  {
    RunInv(P, run, j);
    Parts(P, run[j].s, run[j].a);
    RecoveryYields(P.l, run[j].s.disk, Base(run[j].a));
    GroupsGrow(P, run, i, j);
  }

  lemma {:induction false} GroupsGrow(P: Params, run: seq<Config>, i: nat, j: nat)
    requires IsRun(P, run) && i <= j < |run|
    ensures run[i].a.groups <= run[j].a.groups
    decreases j
  {
    if i < j {
      GroupsGrow(P, run, i, j - 1);
      assert RunAt(P, run, j);
    }
  }

  /** The commit point. A group becomes part of what recovery yields in exactly one
      step, the write of its non-empty header, and then all of it does. */
  lemma CommitPoint(P: Params, run: seq<Config>, i: nat, step: Step)
    requires IsRun(P, run) && i + 1 < |run| && Takes(P, run[i], step, run[i + 1])
    ensures var c, c' := run[i], run[i + 1];
            && HeaderOk(P.l, c.s.disk) && HeaderOk(P.l, c'.s.disk)
            && (step.WriteHeader? <==> Header(P.l, c.s.disk) == [] && Header(P.l, c'.s.disk) != [])
            && (step.WriteHeader? ==> SameHome(P.l, Recovered(P.l, c'.s.disk), c.a.cur))
            && (!step.WriteHeader? ==> SameHome(P.l, Recovered(P.l, c'.s.disk), Recovered(P.l, c.s.disk)))
  {
    var c, c' := run[i], run[i + 1];
    CrashAtomicity(P, run, i, i);
    CrashAtomicity(P, run, i + 1, i + 1);
    HeaderChange(P, run, i, step);
  }

  // Only the two header writes change the header block.
  lemma HeaderKept(P: Params, s: State, a: Abs, step: Step)
    requires ShapeOk(P, s, a) && Enabled(P, s, step)
    requires !step.WriteHeader? && !step.EraseHeader? && !step.RecEraseHeader?
    ensures |Do(P, s, step).disk| == |s.disk| && Do(P, s, step).disk[P.l.start] == s.disk[P.l.start]
  {
    if step.CopyHome? || step.RecCopyHome? {
      assert P.l.IsHome(s.lh[Tail(s)]);
    }
  }

  lemma HeaderSet(P: Params, s: State, a: Abs)
    requires Inv(P, s, a) && Enabled(P, s, WriteHeader)
    ensures HeaderOk(P.l, s.disk) && Header(P.l, s.disk) == [] && s.lh != []
  {
    Parts(P, s, a);
  }

  lemma HeaderChange(P: Params, run: seq<Config>, i: nat, step: Step)
    requires IsRun(P, run) && i + 1 < |run| && Takes(P, run[i], step, run[i + 1])
    requires HeaderOk(P.l, run[i].s.disk) && HeaderOk(P.l, run[i + 1].s.disk)
    ensures step.WriteHeader? <==> Header(P.l, run[i].s.disk) == [] && Header(P.l, run[i + 1].s.disk) != []
  {
    RunInv(P, run, i);
    if step.WriteHeader? {
      HeaderSet(P, run[i].s, run[i].a);
    } else if !step.EraseHeader? && !step.RecEraseHeader? {
      ShapePart(P, run[i].s, run[i].a);
      HeaderKept(P, run[i].s, run[i].a, step);
    }
  }

  /** Isolation. Until the header write, and after recovery, no home block on disk
      holds data of an uncommitted operation. */
  lemma Isolation(P: Params, run: seq<Config>, i: nat)
    requires IsRun(P, run) && i < |run|
    requires !Recovering(run[i].s) && !run[i].s.phase.Install?
    ensures run[i].a.groups != [] && SameHome(P.l, run[i].s.disk, Base(run[i].a))
  {
    RunInv(P, run, i);
    Parts(P, run[i].s, run[i].a);
  }

  /** Coherence. Whatever was evicted in between, a process that obtains a home
      block sees every log_write made so far. */
  lemma ReadsSeeWrites(P: Params, run: seq<Config>, i: nat, p: nat, b: int)
    requires IsRun(P, run) && i + 1 < |run| && !Recovering(run[i].s)
    requires Takes(P, run[i], Acquire(Proc(p), b), run[i + 1])
    ensures 0 <= b < |run[i].a.cur|
    ensures run[i + 1].s.cache[b].data == run[i].a.cur[b]
  {
    RunInv(P, run, i);
    ShapePart(P, run[i].s, run[i].a);
    AcquireReadsCurrent(P, run[i].s, run[i].a, Acquire(Proc(p), b));
  }

  /** Pins. A buffer's refcnt is its users plus one exactly for each block log_write
      has recorded and install_trans has not yet installed; none is left after commit,
      and bget never recycles a pinned buffer. */
  lemma PinsBalance(P: Params, run: seq<Config>, i: nat, b: int)
    requires IsRun(P, run) && i < |run| && b in run[i].s.cache
    ensures var s := run[i].s;
            var users := s.cache[b].waiters + (if s.cache[b].lock.Unlocked? then 0 else 1);
            && s.cache[b].refcnt == users + (if b in Pins(s.phase, s.lh) then 1 else 0)
            && (s.phase.Running? || s.phase.WriteLog? ==> (b in Pins(s.phase, s.lh) <==> b in s.lh))
            && (s.phase.Finish? ==> s.cache[b].refcnt == users)
            && (s.cache[b].refcnt == 0 && !Recovering(s) ==> b !in Pins(s.phase, s.lh))
  {
    RunInv(P, run, i);
    var s := run[i].s;
    Parts(P, s, run[i].a);
    assert BufOk(P, Pins(s.phase, s.lh), Want(P, s.phase, s.lh), b, s.cache[b]);
  }

  /** Log space. An operation that still has budget never finds the log full, so its
      log_write of a new block can only fail on the log.size test, and not even there
      when the log region has room for LOGSIZE blocks and a header. */
  lemma ReservationHolds(P: Params, run: seq<Config>, i: nat, p: nat)
    requires IsRun(P, run) && i < |run| && p in run[i].s.ops && run[i].s.ops[p] < P.maxop
    ensures |run[i].s.lh| + Unspent(run[i].s.ops, P.maxop) <= P.logsize
    ensures |run[i].s.lh| < P.logsize
    ensures P.l.size > P.logsize ==> !TooBig(P, run[i].s)
  {
    RunInv(P, run, i);
    assert PartOk(P, run[i].s, run[i].a, Shape) && PartOk(P, run[i].s, run[i].a, Reserve);
    var ops := run[i].s.ops;
    UnspentRemove(ops, P.maxop, p);
    UnspentBounds(ops - {p}, P.maxop);
  }

  // The number of blocks at which log_write panics.
  function Room(P: Params): (n: int) {
    if P.logsize <= P.l.size - 1 then P.logsize else P.l.size - 1
  }

  /** A log_write of a block that is already in the log needs no space, yet it is let
      through exactly while the log is short of the smaller of LOGSIZE and log.size - 1,
      a level the log never passes; spent budgets do not help. In a log region with
      room for LOGSIZE blocks that level means that every operation in progress has
      spent its whole budget. */
  lemma AbsorbSafeIff(P: Params, run: seq<Config>, i: nat, p: nat, b: int)
    requires IsRun(P, run) && i < |run| && p in run[i].s.ops
    requires Holds(run[i].s, Proc(p), b) && b in run[i].s.lh
    ensures |run[i].s.lh| <= Room(P)
    ensures Enabled(P, run[i].s, LogWrite(p, b)) <==> |run[i].s.lh| < Room(P)
    ensures P.l.size > P.logsize && |run[i].s.lh| == Room(P) ==>
              forall q :: q in run[i].s.ops ==> run[i].s.ops[q] == P.maxop
  {
    RunInv(P, run, i);
    var s := run[i].s;
    assert PartOk(P, s, run[i].a, Shape) && PartOk(P, s, run[i].a, Reserve);
    UnspentBounds(s.ops, P.maxop);
    forall q | q in s.ops && |s.lh| == P.logsize ensures s.ops[q] == P.maxop {
      UnspentRemove(s.ops, P.maxop, q);
      UnspentBounds(s.ops - {q}, P.maxop);
    }
  }

  predicate CanGet(P: Params, s: State, b: int) {
    Enabled(P, s, Hit(b)) || Enabled(P, s, Miss(b)) || exists v | v in s.cache :: Enabled(P, s, Recycle(b, v))
  }

  // The buffers somebody has locked or waits for.
  ghost function InUse(s: State): (bs: set<int>) {
    set b | b in s.cache && (s.cache[b].waiters > 0 || s.cache[b].lock.LockedBy?)
  }

  lemma UnreferencedIff(P: Params, s: State)
    requires RefsOk(P, s)
    ensures Pins(s.phase, s.lh) + InUse(s) <= s.cache.Keys
    ensures forall v :: v in s.cache ==> (s.cache[v].refcnt == 0 <==> v !in Pins(s.phase, s.lh) + InUse(s))
  {
    forall v | v in s.cache ensures s.cache[v].refcnt == 0 <==> v !in Pins(s.phase, s.lh) + InUse(s) {
      assert BufOk(P, Pins(s.phase, s.lh), Want(P, s.phase, s.lh), v, s.cache[v]);
    }
  }

  lemma Spare<T>(busy: set<T>, keys: set<T>) returns (v: T)
    requires busy <= keys && |busy| < |keys|
    ensures v in keys && v !in busy
  {
    assert keys == busy + (keys - busy);
    assert |keys - busy| > 0;
    v :| v in keys - busy;
  }

  // bget of a block that is not cached, with `busy` the referenced buffers.
  lemma CanGetIff(P: Params, s: State, b: int, busy: set<int>)
    requires 0 <= b < P.l.nblocks && b !in s.cache && |s.cache| <= P.nbuf
    requires busy <= s.cache.Keys && forall v :: v in s.cache ==> (s.cache[v].refcnt == 0 <==> v !in busy)
    ensures CanGet(P, s, b) <==> |busy| < P.nbuf
  {
    SubsetCount(busy, s.cache.Keys);
    if |busy| < P.nbuf {
      if |s.cache| == P.nbuf {
        var v := Spare(busy, s.cache.Keys);
        assert Enabled(P, s, Recycle(b, v));
      } else {
        assert Enabled(P, s, Miss(b));
      }
    } else {
      assert |s.cache.Keys| <= |busy|;
      assert s.cache.Keys == busy;
    }
  }

  lemma SpareBuffer(P: Params, s: State, a: Abs, b: int)
    requires Inv(P, s, a) && s.phase.WriteLog? && b in Want(P, s.phase, s.lh) && b !in s.cache
    ensures CanGet(P, s, b) <==> |(set x | x in s.lh) + InUse(s)| < P.nbuf
  {
    assert PartOk(P, s, a, Shape) && PartOk(P, s, a, Refs);
    UnreferencedIff(P, s);
    CanGetIff(P, s, b, Pins(s.phase, s.lh) + InUse(s));
  }

  /** The spare buffer. Whatever else runs, write_log's bget of a log block that is not
      cached succeeds exactly when pinned blocks and buffers in use leave one buffer over;
      if nobody uses a buffer, when the group does. */
  lemma CommitNeedsSpareBuffer(P: Params, run: seq<Config>, i: nat, b: int)
    requires IsRun(P, run) && i < |run|
    requires run[i].s.phase.WriteLog? && b in Want(P, run[i].s.phase, run[i].s.lh) && b !in run[i].s.cache
    ensures var s := run[i].s;
            && (CanGet(P, s, b) <==> |(set x | x in s.lh) + InUse(s)| < P.nbuf)
            && (InUse(s) == {} ==> (CanGet(P, s, b) <==> |s.lh| < P.nbuf))
            && (InUse(s) == {} && P.l.size <= P.nbuf ==> CanGet(P, s, b))
  {
    RunInv(P, run, i);
    var s := run[i].s;
    SpareBuffer(P, s, run[i].a, b);
    assert PartOk(P, s, run[i].a, Shape);
    DistinctCount(s.lh);
    assert InUse(s) == {} ==> (set x | x in s.lh) + InUse(s) == (set x | x in s.lh);
  }

  lemma {:induction false} DistinctCount(s: seq<int>)
    requires Distinct(s)
    ensures |set b | b in s| == |s|
  {
    if s != [] {
      var r := s[..|s| - 1];
      DistinctCount(r);
      assert s == r + [s[|s| - 1]];
      assert (set b | b in s) == (set b | b in r) + {s[|s| - 1]};
    }
  }

  lemma SubsetCount<T>(a: set<T>, b: set<T>)
    requires a <= b
    ensures |a| <= |b| && (|a| == |b| ==> a == b)
  {
    assert b == a + (b - a);
    assert a !! (b - a);
    assert |b| == |a| + |b - a|;
    assert |b - a| == 0 ==> b - a == {};
  }
}
