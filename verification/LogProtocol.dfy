/** begin_op, log_write, end_op, commit and recovery over the buffer cache, run
    by any number of processes with a crash possible between any two steps
    (kernel/log.c, kernel/bio.c). A bwrite and the brelse and bunpin calls right
    after it are one step; a bget that finds its buffer locked waits. */
module LogProtocol {
  import opened Common
  import opened LogFormat

  // LOGSIZE, MAXOPBLOCKS and NBUF.
  datatype Params = Params(l: Layout, logsize: nat, maxop: nat, nbuf: nat) {
    // initlog panics when the header does not fit a block.
    ghost predicate Valid() {
      l.Valid() && logsize + 1 < BWORDS
    }
  }

  // Kernel is the one process inside commit() or recover_from_log().
  datatype Owner = Proc(pid: nat) | Kernel
  datatype Lock = Unlocked | LockedBy(o: Owner)

  // waiters counts the processes between refcnt++ and acquiresleep's return in bget.
  datatype Buf = Buf(valid: bool, data: Block, refcnt: int, lock: Lock, waiters: nat)

  datatype Phase =
    | Running
    | WriteLog(tail: nat)
    | Install(tail: nat)
    | Finish
    | RecRead
    | RecInstall(tail: nat)

  // ops maps each process inside begin_op/end_op to the number of blocks it has
  // appended; log.outstanding is its size. dirty holds the blocks whose buffer was
  // changed since its last log_write.
  datatype State = State(
    disk: Disk,
    cache: map<int, Buf>,
    lh: seq<int>,
    ops: map<nat, nat>,
    committing: bool,
    phase: Phase,
    dirty: set<int>)

  datatype Step =
    | BeginOp(p: nat)
    | EndOp(p: nat)
    | Hit(b: int)
    | Miss(b: int)
    | Recycle(b: int, victim: int)
    | Acquire(o: Owner, b: int)
    | Modify(p: nat, b: int, data: Block)
    | LogWrite(p: nat, b: int)
    | Brelse(p: nat, b: int)
    | CopyToLog
    | WriteHeader
    | CopyHome
    | EraseHeader
    | EndCommit
    | Crash
    | ReadHeader
    | RecCopyHome
    | RecEraseHeader

  predicate Holds(s: State, o: Owner, b: int) {
    b in s.cache && s.cache[b].lock == LockedBy(o) && s.cache[b].valid
  }

  predicate Recovering(s: State) {
    s.phase.RecRead? || s.phase.RecInstall?
  }

  function PhaseTail(phase: Phase): (t: nat) {
    if phase.WriteLog? || phase.Install? || phase.RecInstall? then phase.tail else 0
  }

  function Tail(s: State): (t: nat) {
    PhaseTail(s.phase)
  }

  // The blocks commit() or recovery reads next.
  function Want(P: Params, phase: Phase, lh: seq<int>): (w: set<int>) {
    if phase.Running? || phase.Finish? then {}
    else if phase.RecRead? || PhaseTail(phase) >= |lh| then {P.l.start}
    else {P.l.start + 1 + PhaseTail(phase), lh[PhaseTail(phase)]}
  }

  // log_write's "too big a transaction".
  predicate TooBig(P: Params, s: State) {
    |s.lh| >= P.logsize || |s.lh| >= P.l.size - 1
  }

  predicate HoldsCopyPair(P: Params, s: State) {
    && Tail(s) < |s.lh|
    && Holds(s, Kernel, P.l.start + 1 + Tail(s))
    && Holds(s, Kernel, s.lh[Tail(s)])
    && P.l.start + 1 + Tail(s) < |s.disk|
    && 0 <= s.lh[Tail(s)] < |s.disk|
  }

  predicate HoldsHeader(P: Params, s: State) {
    && Tail(s) == |s.lh| < BWORDS
    && Holds(s, Kernel, P.l.start)
    && P.l.start < |s.disk|
  }

  // The processes follow log.c's discipline: a buffer is changed only inside an
  // operation and while locked, it is log_written before it is released, an
  // operation appends at most MAXOPBLOCKS blocks, and logged blocks are home blocks.
  predicate Enabled(P: Params, s: State, step: Step) {
    match step
    case BeginOp(p) =>
      s.phase.Running? && !s.committing && p !in s.ops
      && |s.lh| + (|s.ops| + 1) * P.maxop <= P.logsize
    case EndOp(p) =>
      s.phase.Running? && p in s.ops
      && forall b :: b in s.dirty && b in s.cache ==> s.cache[b].lock != LockedBy(Proc(p))
    case Hit(b) =>
      b in s.cache
    case Miss(b) =>
      0 <= b < P.l.nblocks && b !in s.cache && |s.cache| < P.nbuf
    case Recycle(b, victim) =>
      0 <= b < P.l.nblocks && b !in s.cache && victim in s.cache && s.cache[victim].refcnt == 0
    case Acquire(o, b) =>
      b in s.cache && s.cache[b].waiters > 0 && s.cache[b].lock.Unlocked? && 0 <= b < |s.disk|
      && (if o.Kernel? then b in Want(P, s.phase, s.lh) else P.l.IsHome(b))
    case Modify(p, b, data) =>
      s.phase.Running? && p in s.ops && Holds(s, Proc(p), b)
    case LogWrite(p, b) =>
      s.phase.Running? && p in s.ops && Holds(s, Proc(p), b) && !TooBig(P, s)
      && (b in s.lh || s.ops[p] < P.maxop)
    case Brelse(p, b) =>
      Holds(s, Proc(p), b) && b !in s.dirty
    case CopyToLog => s.phase.WriteLog? && HoldsCopyPair(P, s)
    case WriteHeader => s.phase.WriteLog? && HoldsHeader(P, s)
    case CopyHome => s.phase.Install? && HoldsCopyPair(P, s)
    case EraseHeader => s.phase.Install? && HoldsHeader(P, s)
    case EndCommit => s.phase.Finish?
    case Crash => true
    case ReadHeader => s.phase.RecRead? && Holds(s, Kernel, P.l.start) && HeaderFits(s.cache[P.l.start].data)
    case RecCopyHome => s.phase.RecInstall? && HoldsCopyPair(P, s)
    case RecEraseHeader => s.phase.RecInstall? && HoldsHeader(P, s)
  }

  function Put(buf: Buf): (r: Buf) {
    buf.(lock := Unlocked, refcnt := buf.refcnt - 1)
  }

  // write_head with the in-memory header lh, then the next phase.
  function DoWriteHead(P: Params, s: State, lh: seq<int>, phase: Phase): (t: State)
    requires HoldsHeader(P, s) && |lh| < BWORDS
  {
    var h := PutHeader(s.cache[P.l.start].data, lh);
    s.(disk := s.disk[P.l.start := h],
       cache := s.cache[P.l.start := Put(s.cache[P.l.start].(data := h))],
       lh := lh,
       phase := phase)
  }

  // One round of install_trans.
  function DoCopyHome(P: Params, s: State, unpin: int, phase: Phase): (t: State)
    requires HoldsCopyPair(P, s)
  {
    var lb, db := P.l.start + 1 + Tail(s), s.lh[Tail(s)];
    var data := s.cache[lb].data;
    var dbuf := s.cache[db].(data := data, refcnt := s.cache[db].refcnt - unpin);
    s.(disk := s.disk[db := data],
       cache := s.cache[lb := Put(s.cache[lb])][db := Put(dbuf)],
       phase := phase)
  }

  function Do(P: Params, s: State, step: Step): (t: State)
    requires Enabled(P, s, step)
  {
    match step
    case BeginOp(p) => s.(ops := s.ops[p := 0])
    case EndOp(p) =>
      var ops := s.ops - {p};
      if |ops| > 0 then s.(ops := ops)
      else s.(ops := ops, committing := true, phase := if |s.lh| > 0 then WriteLog(0) else Finish)
    case Hit(b) =>
      var buf := s.cache[b];
      s.(cache := s.cache[b := buf.(refcnt := buf.refcnt + 1, waiters := buf.waiters + 1)])
    case Miss(b) =>
      s.(cache := s.cache[b := Buf(false, Blank(), 1, Unlocked, 1)])
    case Recycle(b, victim) =>
      s.(cache := (s.cache - {victim})[b := Buf(false, s.cache[victim].data, 1, Unlocked, 1)])
    case Acquire(o, b) =>
      var buf := s.cache[b];
      s.(cache := s.cache[b := Buf(true, if buf.valid then buf.data else s.disk[b],
                                   buf.refcnt, LockedBy(o), buf.waiters - 1)])
    case Modify(p, b, data) =>
      s.(cache := s.cache[b := s.cache[b].(data := data)], dirty := s.dirty + {b})
    case LogWrite(p, b) =>
      if b in s.lh then s.(dirty := s.dirty - {b})
      else s.(lh := s.lh + [b],
              cache := s.cache[b := s.cache[b].(refcnt := s.cache[b].refcnt + 1)],
              ops := s.ops[p := s.ops[p] + 1],
              dirty := s.dirty - {b})
    case Brelse(p, b) => s.(cache := s.cache[b := Put(s.cache[b])])
    case CopyToLog =>
      var to, from := P.l.start + 1 + Tail(s), s.lh[Tail(s)];
      var data := s.cache[from].data;
      s.(disk := s.disk[to := data],
         cache := s.cache[from := Put(s.cache[from])][to := Put(s.cache[to].(data := data))],
         phase := WriteLog(Tail(s) + 1))
    case WriteHeader => DoWriteHead(P, s, s.lh, Install(0))
    case CopyHome => DoCopyHome(P, s, 1, Install(Tail(s) + 1))
    case EraseHeader => DoWriteHead(P, s, [], Finish)
    case EndCommit => s.(committing := false, phase := Running)
    case Crash => State(s.disk, map[], [], map[], false, RecRead, {})
    case ReadHeader =>
      s.(lh := GetHeader(s.cache[P.l.start].data),
         cache := s.cache[P.l.start := Put(s.cache[P.l.start])],
         phase := RecInstall(0))
    case RecCopyHome => DoCopyHome(P, s, 0, RecInstall(Tail(s) + 1))
    case RecEraseHeader => DoWriteHead(P, s, [], Running)
  }

  function Blank(): (b: Block) {
    seq(BWORDS, _ => 0)
  }

  // ----- the specification: an atomic disk -----

  // The contents after each committed group, and the contents that include the
  // log_writes of operations not yet committed.
  datatype Abs = Abs(groups: seq<Disk>, cur: Disk)

  ghost function Base(a: Abs): (d: Disk)
    requires a.groups != []
  {
    a.groups[|a.groups| - 1]
  }

  /** What each step does to the atomic disk. */
  ghost function AbsDo(P: Params, s: State, a: Abs, step: Step): (t: Abs)
    requires Enabled(P, s, step) && a.groups != []
  {
    match step
    case LogWrite(p, b) =>
      if 0 <= b < |a.cur| then a.(cur := a.cur[b := s.cache[b].data]) else a
    case WriteHeader => a.(groups := a.groups + [a.cur])
    case Crash => a.(cur := Base(a))
    case _ => a
  }

  // ----- the invariant -----

  // The blocks whose buffer log_write has pinned and install_trans not yet unpinned.
  ghost function Pins(phase: Phase, lh: seq<int>): (pins: set<int>) {
    if phase.RecRead? || phase.RecInstall? then {}
    else if phase.Install? && phase.tail <= |lh| then set b | b in lh[phase.tail..]
    else set b | b in lh
  }

  ghost predicate ShapeOk(P: Params, s: State, a: Abs) {
    && P.Valid()
    && HeaderOk(P.l, s.disk)
    && LoggableBlocks(P.l, s.lh)
    && a.groups != [] && |Base(a)| == |a.cur| == P.l.nblocks
    && Tail(s) <= |s.lh|
    && (!s.phase.Running? ==> s.ops == map[] && s.dirty == {})
    && (s.committing <==> s.phase.WriteLog? || s.phase.Install? || s.phase.Finish?)
    && (s.phase.WriteLog? || s.phase.Install? ==> s.lh != [])
    && (s.phase.Finish? || s.phase.RecRead? ==> s.lh == [])
  }

  ghost predicate BufOk(P: Params, pins: set<int>, want: set<int>, b: int, buf: Buf) {
    && 0 <= b < P.l.nblocks
    && buf.refcnt == buf.waiters + (if buf.lock.Unlocked? then 0 else 1) + (if b in pins then 1 else 0)
    && (b in pins || buf.lock.LockedBy? ==> buf.valid)
    && (buf.lock == LockedBy(Kernel) ==> b in want)
    && (buf.lock.LockedBy? && buf.lock.o.Proc? ==> P.l.IsHome(b))
  }

  ghost predicate RefsOk(P: Params, s: State) {
    var pins, want := Pins(s.phase, s.lh), Want(P, s.phase, s.lh);
    && |s.cache| <= P.nbuf
    && pins <= s.cache.Keys
    && (forall b :: b in s.cache ==> BufOk(P, pins, want, b, s.cache[b]))
  }

  // A changed buffer is locked by an operation in progress.
  ghost predicate DirtyOk(s: State) {
    forall b :: b in s.dirty ==>
      && b in s.cache && s.cache[b].lock.LockedBy? && s.cache[b].lock.o.Proc?
      && s.cache[b].lock.o.pid in s.ops
  }

  // What a valid, unmodified buffer for block b must hold.
  ghost function View(P: Params, s: State, a: Abs, b: int): (data: Block)
    requires 0 <= b < |s.disk| == |a.cur|
  {
    if Recovering(s) || !P.l.IsHome(b) then s.disk[b] else a.cur[b]
  }

  ghost predicate CacheOk(P: Params, s: State, a: Abs)
    requires |s.disk| == |a.cur|
  {
    forall b :: b in s.cache && s.cache[b].valid && b !in s.dirty && 0 <= b < |s.disk| ==>
      s.cache[b].data == View(P, s, a, b)
  }

  ghost predicate DiskOk(P: Params, s: State, a: Abs)
    requires ShapeOk(P, s, a)
  {
    var base := Base(a);
    StandsFor(P.l, s.disk, base) &&
    match s.phase
    case RecRead => SameHome(P.l, a.cur, base)
    case Install(t) => Installing(P, s, a)
    case RecInstall(t) => Installing(P, s, a)
    case Finish => Uncommitted(P, s, a)
    case Running => Uncommitted(P, s, a)
    case WriteLog(t) =>
      && Uncommitted(P, s, a)
      && (forall i :: 0 <= i < t ==> s.disk[P.l.start + 1 + i] == a.cur[s.lh[i]])
  }

  ghost predicate Uncommitted(P: Params, s: State, a: Abs)
    requires ShapeOk(P, s, a)
  {
    && Header(P.l, s.disk) == []
    && (forall b :: 0 <= b < P.l.nblocks && P.l.IsHome(b) && b !in s.lh ==> a.cur[b] == Base(a)[b])
  }

  ghost predicate Installing(P: Params, s: State, a: Abs)
    requires ShapeOk(P, s, a) && StandsFor(P.l, s.disk, Base(a))
  {
    && Header(P.l, s.disk) == s.lh
    && SameHome(P.l, a.cur, Base(a))
    && InstalledUpTo(P.l, s.disk, Base(a), Tail(s))
  }

  // The log space not yet used by the operations in progress.
  ghost function Unspent(ops: map<nat, nat>, maxop: nat): (u: int)
  {
    if ops == map[] then 0
    else
      var p :| p in ops;
      maxop - ops[p] + Unspent(ops - {p}, maxop)
  }

  ghost predicate ReserveOk(P: Params, s: State) {
    && (forall p :: p in s.ops ==> s.ops[p] <= P.maxop)
    && (!Recovering(s) ==> |s.lh| + Unspent(s.ops, P.maxop) <= P.logsize)
  }

  datatype Part = Shape | Refs | Dirty | Cached | OnDisk | Reserve

  ghost predicate PartOk(P: Params, s: State, a: Abs, part: Part) {
    match part
    case Shape => ShapeOk(P, s, a)
    case Refs => RefsOk(P, s)
    case Dirty => DirtyOk(s)
    case Cached => ShapeOk(P, s, a) && CacheOk(P, s, a)
    case OnDisk => ShapeOk(P, s, a) && DiskOk(P, s, a)
    case Reserve => ReserveOk(P, s)
  }

  ghost predicate Inv(P: Params, s: State, a: Abs) {
    a.groups != [] && forall part {:trigger PartOk(P, s, a, part)} :: PartOk(P, s, a, part)
  }

  lemma Parts(P: Params, s: State, a: Abs)
    requires Inv(P, s, a)
    ensures ShapeOk(P, s, a) && RefsOk(P, s) && DirtyOk(s) && ReserveOk(P, s)
    ensures CacheOk(P, s, a) && DiskOk(P, s, a)
  {
    assert PartOk(P, s, a, Shape) && PartOk(P, s, a, Refs) && PartOk(P, s, a, Dirty);
    assert PartOk(P, s, a, Cached) && PartOk(P, s, a, OnDisk) && PartOk(P, s, a, Reserve);
  }

  lemma ShapePart(P: Params, s: State, a: Abs)
    requires Inv(P, s, a)
    ensures ShapeOk(P, s, a)
  {
    assert PartOk(P, s, a, Shape);
  }

  lemma Whole(P: Params, s: State, a: Abs)
    requires ShapeOk(P, s, a) && RefsOk(P, s) && DirtyOk(s) && ReserveOk(P, s)
    requires CacheOk(P, s, a) && DiskOk(P, s, a)
    ensures Inv(P, s, a)
  {
  }

  // ----- reservation arithmetic -----

  lemma {:induction false} UnspentRemove(ops: map<nat, nat>, maxop: nat, p: nat)
    requires p in ops
    ensures Unspent(ops, maxop) == maxop - ops[p] + Unspent(ops - {p}, maxop)
    decreases |ops|
  {
    var q :| q in ops && Unspent(ops, maxop) == maxop - ops[q] + Unspent(ops - {q}, maxop);
    if q != p {
      UnspentRemove(ops - {q}, maxop, p);
      UnspentRemove(ops - {p}, maxop, q);
      assert ops - {q} - {p} == ops - {p} - {q};
    }
  }

  lemma {:induction false} UnspentBounds(ops: map<nat, nat>, maxop: nat)
    requires forall p :: p in ops ==> ops[p] <= maxop
    ensures 0 <= Unspent(ops, maxop) <= |ops| * maxop
    decreases |ops|
  {
    if ops != map[] {
      var p :| p in ops;
      UnspentRemove(ops, maxop, p);
      UnspentBounds(ops - {p}, maxop);
      assert |ops - {p}| == |ops| - 1;
      Multiple(|ops|, maxop);
    }
  }

  lemma Multiple(n: nat, m: nat)
    requires n >= 1
    ensures n * m == (n - 1) * m + m
  {
  }

  lemma UnspentUpdate(ops: map<nat, nat>, maxop: nat, p: nat, v: nat)
    ensures Unspent(ops[p := v], maxop) == maxop - v + Unspent(ops - {p}, maxop)
  {
    UnspentRemove(ops[p := v], maxop, p);
    assert ops[p := v] - {p} == ops - {p};
  }

  // ----- every step keeps the invariant -----

  lemma KeepBeginOp(P: Params, s: State, a: Abs, step: Step)
    requires Inv(P, s, a) && Enabled(P, s, step) && step.BeginOp?
    ensures Inv(P, Do(P, s, step), a)
  {
    var t := Do(P, s, step);
    Parts(P, s, a);
    UnspentBounds(t.ops, P.maxop);
    assert |t.ops| == |s.ops| + 1;
    Whole(P, t, a);
  }

  lemma EndOpReserve(P: Params, s: State, step: Step)
    requires ReserveOk(P, s) && Enabled(P, s, step) && step.EndOp?
    ensures ReserveOk(P, Do(P, s, step))
  {
    UnspentRemove(s.ops, P.maxop, step.p);
  }

  lemma EndOpDirty(P: Params, s: State, a: Abs, step: Step)
    requires ShapeOk(P, s, a) && DirtyOk(s) && Enabled(P, s, step) && step.EndOp?
    ensures ShapeOk(P, Do(P, s, step), a) && DirtyOk(Do(P, s, step))
  {
    var t := Do(P, s, step);
    assert forall b :: b in s.dirty ==> s.cache[b].lock.o.pid in t.ops;
    assert |t.ops| == 0 ==> t.ops == map[];
  }

  lemma EndOpRest(P: Params, s: State, a: Abs, step: Step)
    requires ShapeOk(P, s, a) && RefsOk(P, s) && CacheOk(P, s, a) && DiskOk(P, s, a)
    requires Enabled(P, s, step) && step.EndOp? && ShapeOk(P, Do(P, s, step), a)
    ensures var t := Do(P, s, step); RefsOk(P, t) && CacheOk(P, t, a) && DiskOk(P, t, a)
  {
  }

  lemma KeepEndOp(P: Params, s: State, a: Abs, step: Step)
    requires Inv(P, s, a) && Enabled(P, s, step) && step.EndOp?
    ensures Inv(P, Do(P, s, step), a)
  {
    Parts(P, s, a);
    EndOpReserve(P, s, step);
    EndOpDirty(P, s, a, step);
    EndOpRest(P, s, a, step);
    Whole(P, Do(P, s, step), a);
  }

  // Steps that touch nothing but the cache leave the disk part alone.
  lemma CacheOnly(P: Params, s: State, t: State, a: Abs)
    requires ShapeOk(P, s, a) && DiskOk(P, s, a) && ReserveOk(P, s)
    requires t == s.(cache := t.cache)
    ensures ShapeOk(P, t, a) && DiskOk(P, t, a) && ReserveOk(P, t)
  {
  }

  lemma HitRefs(P: Params, s: State, b: int)
    requires RefsOk(P, s) && b in s.cache
    ensures RefsOk(P, Do(P, s, Hit(b)))
  {
    assert BufOk(P, Pins(s.phase, s.lh), Want(P, s.phase, s.lh), b, s.cache[b]);
  }

  lemma MissRefs(P: Params, s: State, b: int)
    requires RefsOk(P, s) && Enabled(P, s, Miss(b))
    ensures RefsOk(P, Do(P, s, Miss(b)))
  {
  }

  lemma RecycleRefs(P: Params, s: State, b: int, victim: int)
    requires RefsOk(P, s) && Enabled(P, s, Recycle(b, victim))
    ensures RefsOk(P, Do(P, s, Recycle(b, victim)))
  {
    assert |s.cache - {victim}| == |s.cache| - 1;
    assert BufOk(P, Pins(s.phase, s.lh), Want(P, s.phase, s.lh), victim, s.cache[victim]);
  }

  lemma BgetCache(P: Params, s: State, a: Abs, step: Step)
    requires ShapeOk(P, s, a) && RefsOk(P, s) && DirtyOk(s) && CacheOk(P, s, a)
    requires Enabled(P, s, step) && (step.Hit? || step.Miss? || step.Recycle?)
    ensures DirtyOk(Do(P, s, step)) && CacheOk(P, Do(P, s, step), a)
  {
    if step.Recycle? {
      assert BufOk(P, Pins(s.phase, s.lh), Want(P, s.phase, s.lh), step.victim, s.cache[step.victim]);
    }
  }

  lemma KeepBget(P: Params, s: State, a: Abs, step: Step)
    requires Inv(P, s, a) && Enabled(P, s, step) && (step.Hit? || step.Miss? || step.Recycle?)
    ensures Inv(P, Do(P, s, step), a)
  {
    Parts(P, s, a);
    match step {
      case Hit(b) => HitRefs(P, s, b);
      case Miss(b) => MissRefs(P, s, b);
      case Recycle(b, victim) => RecycleRefs(P, s, b, victim);
    }
    BgetCache(P, s, a, step);
    CacheOnly(P, s, Do(P, s, step), a);
    Whole(P, Do(P, s, step), a);
  }

  /** Coherence: bread hands out the latest log_written contents, or during
      recovery what the disk holds. */
  lemma AcquireReadsCurrent(P: Params, s: State, a: Abs, step: Step)
    requires Inv(P, s, a) && Enabled(P, s, step) && step.Acquire?
    ensures |s.disk| == |a.cur|
    ensures Do(P, s, step).cache[step.b].data == View(P, s, a, step.b)
  {
    Parts(P, s, a);
    var b := step.b;
    assert BufOk(P, Pins(s.phase, s.lh), Want(P, s.phase, s.lh), b, s.cache[b]);
    assert b !in s.dirty;
    if !s.cache[b].valid && !Recovering(s) && P.l.IsHome(b) {
      assert b !in Pins(s.phase, s.lh);
      if s.phase.Install? {
        assert b !in s.lh[Tail(s)..];
      } else {
        assert b !in s.lh;
      }
      assert s.disk[b] == a.cur[b];
    }
  }

  lemma AcquireRefs(P: Params, s: State, step: Step)
    requires RefsOk(P, s) && DirtyOk(s) && Enabled(P, s, step) && step.Acquire?
    ensures RefsOk(P, Do(P, s, step)) && DirtyOk(Do(P, s, step))
  {
    assert BufOk(P, Pins(s.phase, s.lh), Want(P, s.phase, s.lh), step.b, s.cache[step.b]);
  }

  lemma KeepAcquire(P: Params, s: State, a: Abs, step: Step)
    requires Inv(P, s, a) && Enabled(P, s, step) && step.Acquire?
    ensures Inv(P, Do(P, s, step), a)
  {
    var t := Do(P, s, step);
    Parts(P, s, a);
    AcquireReadsCurrent(P, s, a, step);
    AcquireRefs(P, s, step);
    CacheOnly(P, s, t, a);
    Whole(P, t, a);
  }

  lemma ModifyCache(P: Params, s: State, a: Abs, step: Step)
    requires ShapeOk(P, s, a) && RefsOk(P, s) && DirtyOk(s) && CacheOk(P, s, a)
    requires Enabled(P, s, step) && step.Modify?
    ensures var t := Do(P, s, step); RefsOk(P, t) && DirtyOk(t) && CacheOk(P, t, a)
  {
    assert BufOk(P, Pins(s.phase, s.lh), Want(P, s.phase, s.lh), step.b, s.cache[step.b]);
  }

  lemma KeepModify(P: Params, s: State, a: Abs, step: Step)
    requires Inv(P, s, a) && Enabled(P, s, step) && step.Modify?
    ensures Inv(P, Do(P, s, step), a)
  {
    Parts(P, s, a);
    ModifyCache(P, s, a, step);
    CacheOnly(P, s, Do(P, s, step).(dirty := s.dirty), a);
    Whole(P, Do(P, s, step), a);
  }

  lemma LogWriteRefs(P: Params, s: State, a: Abs, step: Step)
    requires ShapeOk(P, s, a) && RefsOk(P, s) && Enabled(P, s, step) && step.LogWrite?
    ensures ShapeOk(P, Do(P, s, step), AbsDo(P, s, a, step))
    ensures RefsOk(P, Do(P, s, step))
  {
    var t := Do(P, s, step);
    var b := step.b;
    assert BufOk(P, Pins(s.phase, s.lh), Want(P, s.phase, s.lh), b, s.cache[b]);
    if b !in s.lh {
      assert Pins(t.phase, t.lh) == Pins(s.phase, s.lh) + {b};
    }
  }

  lemma LogWriteReserve(P: Params, s: State, step: Step)
    requires ReserveOk(P, s) && Enabled(P, s, step) && step.LogWrite?
    ensures ReserveOk(P, Do(P, s, step))
  {
    if step.b !in s.lh {
      UnspentRemove(s.ops, P.maxop, step.p);
      UnspentUpdate(s.ops, P.maxop, step.p, s.ops[step.p] + 1);
    }
  }

  lemma LogWriteCache(P: Params, s: State, a: Abs, step: Step)
    requires ShapeOk(P, s, a) && RefsOk(P, s) && DirtyOk(s) && CacheOk(P, s, a)
    requires Enabled(P, s, step) && step.LogWrite?
    requires ShapeOk(P, Do(P, s, step), AbsDo(P, s, a, step))
    ensures DirtyOk(Do(P, s, step)) && CacheOk(P, Do(P, s, step), AbsDo(P, s, a, step))
  {
    assert BufOk(P, Pins(s.phase, s.lh), Want(P, s.phase, s.lh), step.b, s.cache[step.b]);
  }

  lemma LogWriteDisk(P: Params, s: State, a: Abs, step: Step)
    requires ShapeOk(P, s, a) && RefsOk(P, s) && DiskOk(P, s, a)
    requires Enabled(P, s, step) && step.LogWrite?
    requires ShapeOk(P, Do(P, s, step), AbsDo(P, s, a, step))
    ensures DiskOk(P, Do(P, s, step), AbsDo(P, s, a, step))
  {
    var t, a' := Do(P, s, step), AbsDo(P, s, a, step);
    assert t.disk == s.disk && Base(a') == Base(a) && step.b in t.lh;
    assert forall b :: b in s.lh ==> b in t.lh;
  }

  lemma KeepLogWrite(P: Params, s: State, a: Abs, step: Step)
    requires Inv(P, s, a) && Enabled(P, s, step) && step.LogWrite?
    ensures Inv(P, Do(P, s, step), AbsDo(P, s, a, step))
  {
    Parts(P, s, a);
    LogWriteRefs(P, s, a, step);
    LogWriteReserve(P, s, step);
    LogWriteCache(P, s, a, step);
    LogWriteDisk(P, s, a, step);
    Whole(P, Do(P, s, step), AbsDo(P, s, a, step));
  }

  lemma BrelseRefs(P: Params, s: State, step: Step)
    requires RefsOk(P, s) && Enabled(P, s, step) && step.Brelse?
    ensures RefsOk(P, Do(P, s, step))
  {
    assert BufOk(P, Pins(s.phase, s.lh), Want(P, s.phase, s.lh), step.b, s.cache[step.b]);
  }

  lemma BrelseCache(P: Params, s: State, a: Abs, step: Step)
    requires ShapeOk(P, s, a) && DirtyOk(s) && CacheOk(P, s, a) && Enabled(P, s, step) && step.Brelse?
    ensures DirtyOk(Do(P, s, step)) && CacheOk(P, Do(P, s, step), a)
  {
  }

  lemma KeepBrelse(P: Params, s: State, a: Abs, step: Step)
    requires Inv(P, s, a) && Enabled(P, s, step) && step.Brelse?
    ensures Inv(P, Do(P, s, step), a)
  {
    Parts(P, s, a);
    BrelseRefs(P, s, step);
    BrelseCache(P, s, a, step);
    CacheOnly(P, s, Do(P, s, step), a);
    Whole(P, Do(P, s, step), a);
  }

  // Both buffers of a copy are put back, and the tail moves on: the buffer part.
  lemma CopiedRefs(P: Params, s: State, t: State, lb: int, db: int, unpin: int)
    requires RefsOk(P, s) && lb in s.cache && db in s.cache && lb != db
    requires s.cache[lb].lock == s.cache[db].lock == LockedBy(Kernel)
    requires lb !in Pins(s.phase, s.lh) && (unpin == 1 ==> db in Pins(s.phase, s.lh)) && 0 <= unpin <= 1
    requires Pins(t.phase, t.lh) == if unpin == 1 then Pins(s.phase, s.lh) - {db} else Pins(s.phase, s.lh)
    requires Want(P, s.phase, s.lh) == {lb, db}
    requires t.cache.Keys == s.cache.Keys
    requires forall b :: b in s.cache && b != lb && b != db ==> t.cache[b] == s.cache[b]
    requires t.cache[lb] == s.cache[lb].(data := t.cache[lb].data, lock := Unlocked, refcnt := s.cache[lb].refcnt - 1)
    requires t.cache[db] == s.cache[db].(data := t.cache[db].data, lock := Unlocked, refcnt := s.cache[db].refcnt - 1 - unpin)
    ensures RefsOk(P, t)
  {
    var pins, want := Pins(s.phase, s.lh), Want(P, s.phase, s.lh);
    assert |t.cache| == |t.cache.Keys| && |s.cache| == |s.cache.Keys|;
    forall b | b in t.cache ensures BufOk(P, Pins(t.phase, t.lh), Want(P, t.phase, t.lh), b, t.cache[b]) {
      assert BufOk(P, pins, want, b, s.cache[b]);
    }
  }

  lemma CopyToLogRefs(P: Params, s: State, a: Abs, step: Step)
    requires ShapeOk(P, s, a) && RefsOk(P, s) && Enabled(P, s, step) && step.CopyToLog?
    ensures RefsOk(P, Do(P, s, step))
  {
    CopiedRefs(P, s, Do(P, s, step), P.l.start + 1 + Tail(s), s.lh[Tail(s)], 0);
  }

  lemma PinsNext(lh: seq<int>, k: nat)
    requires k < |lh| && Distinct(lh)
    ensures Pins(Install(k + 1), lh) == Pins(Install(k), lh) - {lh[k]} && lh[k] in Pins(Install(k), lh)
  {
    assert lh[k..] == [lh[k]] + lh[k + 1..];
  }

  lemma CopyHomeRefs(P: Params, s: State, unpin: int, phase: Phase)
    requires P.Valid() && LoggableBlocks(P.l, s.lh) && RefsOk(P, s) && HoldsCopyPair(P, s)
    requires (s.phase.Install? && phase == Install(Tail(s) + 1) && unpin == 1)
          || (s.phase.RecInstall? && phase == RecInstall(Tail(s) + 1) && unpin == 0)
    ensures RefsOk(P, DoCopyHome(P, s, unpin, phase))
  {
    var k := Tail(s);
    PinsNext(s.lh, k);
    CopiedRefs(P, s, DoCopyHome(P, s, unpin, phase), P.l.start + 1 + k, s.lh[k], unpin);
  }

  lemma CopyToLogDisk(P: Params, s: State, a: Abs, step: Step)
    requires ShapeOk(P, s, a) && DiskOk(P, s, a) && Enabled(P, s, step) && step.CopyToLog?
    requires s.cache[s.lh[Tail(s)]].data == a.cur[s.lh[Tail(s)]]
    ensures var t := Do(P, s, step); ShapeOk(P, t, a) && DiskOk(P, t, a)
  {
    assert Do(P, s, step).disk[P.l.start] == s.disk[P.l.start];
  }

  lemma CopyToLogCache(P: Params, s: State, a: Abs, step: Step)
    requires ShapeOk(P, s, a) && CacheOk(P, s, a) && DirtyOk(s) && ReserveOk(P, s)
    requires Enabled(P, s, step) && step.CopyToLog?
    ensures s.cache[s.lh[Tail(s)]].data == a.cur[s.lh[Tail(s)]]
    ensures var t := Do(P, s, step); CacheOk(P, t, a) && DirtyOk(t) && ReserveOk(P, t)
  {
    assert P.l.IsHome(s.lh[Tail(s)]);
  }

  lemma KeepCopyToLog(P: Params, s: State, a: Abs, step: Step)
    requires Inv(P, s, a) && Enabled(P, s, step) && step.CopyToLog?
    ensures Inv(P, Do(P, s, step), a)
  {
    Parts(P, s, a);
    CopyToLogRefs(P, s, a, step);
    CopyToLogCache(P, s, a, step);
    CopyToLogDisk(P, s, a, step);
    Whole(P, Do(P, s, step), a);
  }

  lemma WriteHeaderDisk(P: Params, s: State, a: Abs, step: Step)
    requires ShapeOk(P, s, a) && DiskOk(P, s, a) && Enabled(P, s, step) && step.WriteHeader?
    ensures var t, a' := Do(P, s, step), AbsDo(P, s, a, step);
            ShapeOk(P, t, a') && DiskOk(P, t, a')
  {
    assert s.lh[0..] == s.lh;
  }

  lemma WriteHeaderCache(P: Params, s: State, a: Abs, step: Step)
    requires ShapeOk(P, s, a) && RefsOk(P, s) && DirtyOk(s) && CacheOk(P, s, a) && ReserveOk(P, s)
    requires Enabled(P, s, step) && step.WriteHeader?
    ensures var t, a' := Do(P, s, step), AbsDo(P, s, a, step);
            RefsOk(P, t) && DirtyOk(t) && CacheOk(P, t, a') && ReserveOk(P, t)
  {
    assert s.lh[0..] == s.lh;
    assert Pins(Do(P, s, step).phase, s.lh) == Pins(s.phase, s.lh);
  }

  lemma KeepWriteHeader(P: Params, s: State, a: Abs, step: Step)
    requires Inv(P, s, a) && Enabled(P, s, step) && step.WriteHeader?
    ensures Inv(P, Do(P, s, step), AbsDo(P, s, a, step))
  {
    Parts(P, s, a);
    WriteHeaderDisk(P, s, a, step);
    WriteHeaderCache(P, s, a, step);
    Whole(P, Do(P, s, step), AbsDo(P, s, a, step));
  }

  // The contents one round of install_trans writes.
  lemma CopyHomeData(P: Params, s: State, a: Abs)
    requires ShapeOk(P, s, a) && CacheOk(P, s, a) && DiskOk(P, s, a)
    requires (s.phase.Install? || s.phase.RecInstall?) && HoldsCopyPair(P, s)
    ensures var k := Tail(s);
            s.cache[P.l.start + 1 + k].data == s.disk[P.l.start + 1 + k] == Base(a)[s.lh[k]] == a.cur[s.lh[k]]
  {
    var k := Tail(s);
    assert P.l.IsHome(s.lh[k]) && !P.l.IsHome(P.l.start + 1 + k);
    assert s.disk[P.l.start + 1 + k] == Base(a)[s.lh[k]];
    assert s.cache[P.l.start + 1 + k].data == View(P, s, a, P.l.start + 1 + k);
  }

  lemma CopyHomeShape(P: Params, s: State, a: Abs, unpin: int, phase: Phase)
    requires ShapeOk(P, s, a) && CacheOk(P, s, a) && DiskOk(P, s, a)
    requires HoldsCopyPair(P, s)
    requires (s.phase.Install? && phase == Install(Tail(s) + 1)) || (s.phase.RecInstall? && phase == RecInstall(Tail(s) + 1))
    ensures var t := DoCopyHome(P, s, unpin, phase);
            && t.disk == s.disk[s.lh[Tail(s)] := a.cur[s.lh[Tail(s)]]]
            && ShapeOk(P, t, a)
  {
    CopyHomeData(P, s, a);
  }

  // One more home block in place.
  lemma InstallingNext(P: Params, s: State, t: State, a: Abs)
    requires ShapeOk(P, s, a) && ShapeOk(P, t, a) && StandsFor(P.l, s.disk, Base(a)) && Installing(P, s, a)
    requires Tail(s) < |s.lh| && t.lh == s.lh && Tail(t) == Tail(s) + 1
    requires t.disk == s.disk[s.lh[Tail(s)] := s.disk[P.l.start + 1 + Tail(s)]]
    ensures StandsFor(P.l, t.disk, Base(a)) && Installing(P, t, a)
  {
    InstallOne(P.l, s.disk, Base(a), Tail(s));
  }

  lemma CopyHomeDisk(P: Params, s: State, a: Abs, unpin: int, phase: Phase)
    requires ShapeOk(P, s, a) && CacheOk(P, s, a) && DiskOk(P, s, a)
    requires HoldsCopyPair(P, s)
    requires (s.phase.Install? && phase == Install(Tail(s) + 1)) || (s.phase.RecInstall? && phase == RecInstall(Tail(s) + 1))
    ensures var t := DoCopyHome(P, s, unpin, phase);
            && t.disk == s.disk[s.lh[Tail(s)] := a.cur[s.lh[Tail(s)]]]
            && ShapeOk(P, t, a) && DiskOk(P, t, a)
  {
    CopyHomeShape(P, s, a, unpin, phase);
    CopyHomeData(P, s, a);
    InstallingNext(P, s, DoCopyHome(P, s, unpin, phase), a);
  }

  lemma CopyHomeCache(P: Params, s: State, a: Abs, unpin: int, phase: Phase)
    requires ShapeOk(P, s, a) && CacheOk(P, s, a) && HoldsCopyPair(P, s)
    requires s.cache[P.l.start + 1 + Tail(s)].data == a.cur[s.lh[Tail(s)]]
    requires (s.phase.Install? && phase.Install?) || (s.phase.RecInstall? && phase.RecInstall?)
    ensures CacheOk(P, DoCopyHome(P, s, unpin, phase), a)
  {
    assert P.l.IsHome(s.lh[Tail(s)]);
  }

  lemma KeepCopyHome(P: Params, s: State, a: Abs, step: Step)
    requires Inv(P, s, a) && Enabled(P, s, step) && (step.CopyHome? || step.RecCopyHome?)
    ensures Inv(P, Do(P, s, step), a)
  {
    var t := Do(P, s, step);
    Parts(P, s, a);
    CopyHomeRefs(P, s, if step.CopyHome? then 1 else 0, t.phase);
    CopyHomeDisk(P, s, a, if step.CopyHome? then 1 else 0, t.phase);
    CopyHomeData(P, s, a);
    CopyHomeCache(P, s, a, if step.CopyHome? then 1 else 0, t.phase);
    assert DirtyOk(t) && ReserveOk(P, t);
    Whole(P, t, a);
  }

  lemma EraseDisk(P: Params, s: State, a: Abs, phase: Phase)
    requires ShapeOk(P, s, a) && DiskOk(P, s, a) && HoldsHeader(P, s)
    requires (s.phase.Install? && phase == Finish) || (s.phase.RecInstall? && phase == Running)
    ensures var t := DoWriteHead(P, s, [], phase); ShapeOk(P, t, a) && DiskOk(P, t, a)
  {
    assert s.lh[|s.lh|..] == [];
  }

  lemma EraseCache(P: Params, s: State, a: Abs, phase: Phase)
    requires ShapeOk(P, s, a) && CacheOk(P, s, a) && DirtyOk(s) && DiskOk(P, s, a) && HoldsHeader(P, s)
    requires (s.phase.Install? && phase == Finish) || (s.phase.RecInstall? && phase == Running)
    ensures var t := DoWriteHead(P, s, [], phase); CacheOk(P, t, a) && DirtyOk(t)
  {
    assert s.lh[|s.lh|..] == [];
  }

  lemma EraseRefs(P: Params, s: State, a: Abs, phase: Phase)
    requires ShapeOk(P, s, a) && RefsOk(P, s) && ReserveOk(P, s) && HoldsHeader(P, s)
    requires (s.phase.Install? && phase == Finish) || (s.phase.RecInstall? && phase == Running)
    ensures var t := DoWriteHead(P, s, [], phase); RefsOk(P, t) && ReserveOk(P, t)
  {
    assert Pins(s.phase, s.lh) == {};
  }

  lemma KeepErase(P: Params, s: State, a: Abs, step: Step)
    requires Inv(P, s, a) && Enabled(P, s, step) && (step.EraseHeader? || step.RecEraseHeader?)
    ensures Inv(P, Do(P, s, step), a)
  {
    var phase := Do(P, s, step).phase;
    Parts(P, s, a);
    EraseDisk(P, s, a, phase);
    EraseCache(P, s, a, phase);
    EraseRefs(P, s, a, phase);
    Whole(P, Do(P, s, step), a);
  }

  lemma ReadHeaderRefs(P: Params, s: State, a: Abs, step: Step)
    requires ShapeOk(P, s, a) && RefsOk(P, s) && Enabled(P, s, step) && step.ReadHeader?
    ensures RefsOk(P, Do(P, s, step))
  {
    assert BufOk(P, {}, {P.l.start}, P.l.start, s.cache[P.l.start]);
  }

  lemma ReadHeaderDisk(P: Params, s: State, a: Abs, step: Step)
    requires ShapeOk(P, s, a) && DirtyOk(s) && CacheOk(P, s, a) && DiskOk(P, s, a)
    requires Enabled(P, s, step) && step.ReadHeader?
    ensures var t := Do(P, s, step); ShapeOk(P, t, a) && DiskOk(P, t, a)
  {
    assert s.cache[P.l.start].data == s.disk[P.l.start];
    assert s.lh == [] && Header(P.l, s.disk)[0..] == Header(P.l, s.disk);
  }

  lemma KeepReadHeader(P: Params, s: State, a: Abs, step: Step)
    requires Inv(P, s, a) && Enabled(P, s, step) && step.ReadHeader?
    ensures Inv(P, Do(P, s, step), a)
  {
    Parts(P, s, a);
    ReadHeaderRefs(P, s, a, step);
    ReadHeaderDisk(P, s, a, step);
    Whole(P, Do(P, s, step), a);
  }

  lemma KeepEndCommit(P: Params, s: State, a: Abs, step: Step)
    requires Inv(P, s, a) && Enabled(P, s, step) && step.EndCommit?
    ensures Inv(P, Do(P, s, step), a)
  {
    Parts(P, s, a);
    Whole(P, Do(P, s, step), a);
  }

  // A crash leaves the disk, and of the specification's contents the committed ones.
  lemma CrashedDisk(P: Params, disk: Disk, a: Abs)
    requires P.Valid() && a.groups != [] && StandsFor(P.l, disk, Base(a))
    ensures Inv(P, State(disk, map[], [], map[], false, RecRead, {}), a.(cur := Base(a)))
  {
    Whole(P, State(disk, map[], [], map[], false, RecRead, {}), a.(cur := Base(a)));
  }

  lemma KeepCrash(P: Params, s: State, a: Abs, step: Step)
    requires Inv(P, s, a) && step.Crash?
    ensures Inv(P, Do(P, s, step), AbsDo(P, s, a, step))
  {
    assert PartOk(P, s, a, OnDisk);
    CrashedDisk(P, s.disk, a);
  }
}
