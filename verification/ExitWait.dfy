/** sleep, wakeup, fork, exit, wait, kill, yield and the scheduler (kernel/proc.c) as a transition
    system. Each step is one lock operation or the work done under the locks held. */
module ExitWait {

  datatype PState = Unused | Used | Sleeping | Runnable | Running | Zombie

  // A sleep channel: a process's own address (wait), or the c-th of those used under monitor
  // m's lock, as a pipe has two and the disk one for descriptors and one per buffer.
  datatype Chan = NoChan | Of(p: int) | Mon(m: nat, c: nat)

  datatype Holder = NoOne | Thread(p: nat) | Sched(k: nat)

  datatype Cpu = Scanning | Holding(i: nat) | Run(i: nat) | Back(i: nat)

  // What wakeup returns to. Under a monitor's lock: the channels woken during this hold so
  // far, and those whose condition was set and has still to be announced.
  datatype After = AfterStray | AfterRep(j: nat) | AfterExit | AfterMon(m: nat, woken: set<nat>, owes: set<nat>)

  // Where the kernel thread of a process is.
  datatype Pc =
    | Dead                                             // no thread: unused, being forked, or zombie
    | Idle                                             // outside these functions, no lock held
    | Fresh | FreshBack                                // forkret
    | Wk(ch: Chan, i: nat, held: bool, k: After)       // wakeup's loop
    | ForkHold(np: nat) | ForkFree(np: nat) | ForkParent(np: nat) | ForkReady(np: nat) | ForkGo(np: nat)
    | Rep(j: nat) | ExitLock | ExitZ | ExitRel | ExitSched
    | WScan(i: nat, kids: bool) | WLook(i: nat) | WCheck | WKilled | WDone
    | Slp1(ch: Chan) | Slp2(ch: Chan) | Slp3(ch: Chan) | Slp4(ch: Chan)
    | Asleep(ch: Chan) | Woken(ch: Chan) | Relk(ch: Chan)
    | YHold | YSched | Yielded | YBack
    | KillHold(x: nat)
    | In(m: nat, woken: set<nat>, owes: set<nat>)      // holding a monitor's lock

  // cond holds the channels whose condition is set.
  datatype State = State(
    st: seq<PState>, chan: seq<Chan>, parent: seq<int>, killed: seq<bool>, plock: seq<Holder>, pc: seq<Pc>,
    wait: Holder, mlock: seq<Holder>, cond: set<Chan>, cpu: seq<Cpu>, init: nat)

  // What a thread does next where the code leaves it open: which call it makes, whether
  // uvmcopy or copyout fails, what a monitor's user does under its lock.
  datatype Choice =
    | Go | Fails
    | CallFork(np: nat) | CallExit | CallWait | CallYield | CallKill(x: nat) | CallWakeup(ch: Chan) | CallEnter(m: nat)
    | SetCond(c: nat) | ClearCond(c: nat) | Announce(c: nat) | SleepOn(c: nat) | Leave

  // The lock operation of a step, and where the thread is after it.
  datatype Op = Stay | TakeP(i: nat) | DropP(i: nat) | TakeLk(ch: Chan) | DropLk(ch: Chan) | Swtch
  datatype Plan = Blocked | Next(op: Op, c: Pc)

  datatype Step = Act(k: nat, p: nat, ch: Choice) | CpuLock(k: nat, i: nat) | CpuTest(k: nat) | CpuBack(k: nat)

  ghost predicate Shape(s: State) {
    && |s.chan| == |s.st| && |s.parent| == |s.st| && |s.killed| == |s.st| && |s.plock| == |s.st| && |s.pc| == |s.st|
    && s.init < |s.st|
  }

  // Thread p is executing on CPU k.
  ghost predicate On(s: State, k: nat, p: nat)
    requires Shape(s)
  {
    k < |s.cpu| && p < |s.st| && s.cpu[k] == Run(p)
  }

  ghost function ParentChan(s: State, p: nat): (ch: Chan)
    requires p < |s.parent|
  {
    if s.parent[p] < 0 then NoChan else Of(s.parent[p])
  }

  // ---- control: the lock operation and the next place ----

  ghost function CallPlan(s: State, p: nat, ch: Choice): (plan: Plan)
    requires Shape(s) && p < |s.st|
  {
    match ch
    case CallFork(np) => if np < |s.st| && s.st[np] == Unused then Next(TakeP(np), ForkHold(np)) else Blocked
    case CallExit => if p == s.init then Blocked else Next(TakeLk(Of(p)), Rep(0))
    case CallWait => Next(TakeLk(Of(p)), WScan(0, false))
    case CallYield => Next(TakeP(p), YHold)
    case CallKill(x) => if x < |s.st| then Next(TakeP(x), KillHold(x)) else Blocked
    case CallWakeup(c) => Next(Stay, Wk(c, 0, false, AfterStray))
    case CallEnter(m) => Next(TakeLk(Mon(m, 0)), In(m, {}, {}))
    case _ => Blocked
  }

  ghost function ForkPlan(p: nat, c: Pc, ch: Choice): (plan: Plan) {
    match c
    case ForkHold(np) => if ch == Fails then Next(DropP(np), Idle) else Next(DropP(np), ForkFree(np))
    case ForkFree(np) => Next(TakeLk(Of(p)), ForkParent(np))
    case ForkParent(np) => Next(DropLk(Of(p)), ForkReady(np))
    case ForkReady(np) => Next(TakeP(np), ForkGo(np))
    case ForkGo(np) => Next(DropP(np), Idle)
    case _ => Blocked
  }

  ghost function ExitPlan(s: State, p: nat, c: Pc): (plan: Plan)
    requires Shape(s) && p < |s.st|
  {
    match c
    case Rep(j) =>
      if j >= |s.st| then Next(Stay, Wk(ParentChan(s, p), 0, false, AfterExit))
      else if s.parent[j] == p then Next(Stay, Wk(Of(s.init), 0, false, AfterRep(j)))
      else Next(Stay, Rep(j + 1))
    case ExitLock => Next(TakeP(p), ExitZ)
    case ExitZ => Next(Stay, ExitRel)
    case ExitRel => Next(DropLk(Of(p)), ExitSched)
    case ExitSched => Next(Swtch, Dead)
    case _ => Blocked
  }

  ghost function WaitPlan(s: State, p: nat, c: Pc): (plan: Plan)
    requires Shape(s) && p < |s.st|
  {
    match c
    case WScan(i, kids) =>
      if i >= |s.st| then Next(Stay, if kids then WCheck else WDone)
      else if s.parent[i] == p then Next(TakeP(i), WLook(i))
      else Next(Stay, WScan(i + 1, kids))
    case WLook(i) => Next(DropP(i), if i < |s.st| && s.st[i] == Zombie then WDone else WScan(i + 1, true))
    case WCheck => Next(TakeP(p), WKilled)
    case WKilled => Next(DropP(p), if s.killed[p] then WDone else Slp1(Of(p)))
    case WDone => Next(DropLk(Of(p)), Idle)
    case _ => Blocked
  }

  ghost function SleepPlan(p: nat, c: Pc): (plan: Plan) {
    match c
    case Slp1(ch) => Next(TakeP(p), Slp2(ch))
    case Slp2(ch) => Next(DropLk(ch), Slp3(ch))
    case Slp3(ch) => Next(Stay, Slp4(ch))
    case Slp4(ch) => Next(Swtch, Asleep(ch))
    case Woken(ch) => Next(DropP(p), Relk(ch))
    case Relk(ch) => Next(TakeLk(ch), if ch.Mon? then In(ch.m, {}, {}) else WScan(0, false))
    case _ => Blocked
  }

  ghost function WakePlan(n: nat, p: nat, c: Pc): (plan: Plan)
    requires c.Wk?
  {
    if c.held then Next(DropP(c.i), Wk(c.ch, c.i + 1, false, c.k))
    else if c.i == p then Next(Stay, Wk(c.ch, c.i + 1, false, c.k))
    else if c.i < n then Next(TakeP(c.i), Wk(c.ch, c.i, true, c.k))
    else Next(Stay, match c.k
                    case AfterStray => Idle
                    case AfterRep(j) => Rep(j + 1)
                    case AfterExit => ExitLock
                    case AfterMon(m, woken, owes) =>
                      if c.ch.Mon? then In(m, woken + {c.ch.c}, owes - {c.ch.c}) else In(m, woken, owes))
  }

  // Any monitor that uses sleep and wakeup as the kernel does, on any number of channels: a
  // condition once set is announced before the lock is released, in sleep too, unless wakeup
  // already ran for its channel under the same hold.
  ghost function MonPlan(s: State, c: Pc, ch: Choice): (plan: Plan)
    requires c.In?
  {
    match ch
    case SetCond(x) => Next(Stay, In(c.m, c.woken, if x in c.woken then c.owes else c.owes + {x}))
    case ClearCond(x) => Next(Stay, In(c.m, c.woken, c.owes - {x}))
    case Announce(x) => Next(Stay, Wk(Mon(c.m, x), 0, false, AfterMon(c.m, c.woken, c.owes)))
    case SleepOn(x) => if c.owes == {} && Mon(c.m, x) !in s.cond then Next(Stay, Slp1(Mon(c.m, x))) else Blocked
    case Leave => if c.owes == {} then Next(DropLk(Mon(c.m, 0)), Idle) else Blocked
    case _ => Blocked
  }

  ghost function MiscPlan(p: nat, c: Pc): (plan: Plan) {
    match c
    case YHold => Next(Stay, YSched)
    case YSched => Next(Swtch, Yielded)
    case YBack => Next(DropP(p), Idle)
    case FreshBack => Next(DropP(p), Idle)
    case KillHold(x) => Next(DropP(x), Idle)
    case _ => Blocked
  }

  ghost function PlanOf(s: State, p: nat, ch: Choice): (plan: Plan)
    requires Shape(s) && p < |s.st|
  {
    var c := s.pc[p];
    if c == Idle then CallPlan(s, p, ch)
    else if c.ForkHold? || c.ForkFree? || c.ForkParent? || c.ForkReady? || c.ForkGo? then ForkPlan(p, c, ch)
    else if c.Rep? || c == ExitLock || c == ExitZ || c == ExitRel || c == ExitSched then ExitPlan(s, p, c)
    else if c.WScan? || c.WLook? || c == WCheck || c == WKilled || c == WDone then WaitPlan(s, p, c)
    else if c.Wk? then WakePlan(|s.st|, p, c)
    else if c.In? then MonPlan(s, c, ch)
    else if c == YHold || c == YSched || c == YBack || c == FreshBack || c.KillHold? then MiscPlan(p, c)
    else SleepPlan(p, c)
  }

  // ---- data: what the step changes besides locks and its own place ----

  ghost function NewSt(s: State, p: nat, ch: Choice): (st: seq<PState>)
    requires Shape(s) && p < |s.st|
    ensures |st| == |s.st|
  {
    match s.pc[p]
    case Idle => if ch.CallFork? && ch.np < |s.st| then s.st[ch.np := Used] else s.st
    case ForkHold(np) => if ch == Fails && np < |s.st| then s.st[np := Unused] else s.st
    case ForkGo(np) => if np < |s.st| then s.st[np := Runnable] else s.st
    case ExitZ => s.st[p := Zombie]
    case WLook(i) => if Reaps(s, p, ch) then s.st[i := Unused] else s.st
    case Slp3(_) => s.st[p := Sleeping]
    case Wk(c, i, held, _) => if held && i < |s.st| && s.st[i] == Sleeping && s.chan[i] == c then s.st[i := Runnable] else s.st
    case YHold => s.st[p := Runnable]
    case KillHold(x) => if x < |s.st| && s.st[x] == Sleeping then s.st[x := Runnable] else s.st
    case _ => s.st
  }

  // wait frees the zombie it has found, unless copyout fails.
  ghost predicate Reaps(s: State, p: nat, ch: Choice)
    requires Shape(s) && p < |s.st|
  {
    s.pc[p].WLook? && s.pc[p].i < |s.st| && s.st[s.pc[p].i] == Zombie && ch != Fails
  }

  ghost function NewParent(s: State, p: nat, ch: Choice): (parent: seq<int>)
    requires Shape(s) && p < |s.st|
    ensures |parent| == |s.st|
  {
    match s.pc[p]
    case ForkHold(np) => if ch == Fails && np < |s.st| then s.parent[np := -1] else s.parent
    case ForkParent(np) => if np < |s.st| then s.parent[np := p] else s.parent
    case Rep(j) => if j < |s.st| && s.parent[j] == p then s.parent[j := s.init] else s.parent
    case WLook(i) => if Reaps(s, p, ch) then s.parent[i := -1] else s.parent
    case _ => s.parent
  }

  ghost function NewChan(s: State, p: nat, ch: Choice): (chan: seq<Chan>)
    requires Shape(s) && p < |s.st|
    ensures |chan| == |s.st|
  {
    match s.pc[p]
    case ForkHold(np) => if ch == Fails && np < |s.st| then s.chan[np := NoChan] else s.chan
    case WLook(i) => if Reaps(s, p, ch) then s.chan[i := NoChan] else s.chan
    case Slp3(c) => s.chan[p := c]
    case Woken(_) => s.chan[p := NoChan]
    case _ => s.chan
  }

  ghost function NewKilled(s: State, p: nat, ch: Choice): (killed: seq<bool>)
    requires Shape(s) && p < |s.st|
    ensures |killed| == |s.st|
  {
    match s.pc[p]
    case ForkHold(np) => if ch == Fails && np < |s.st| then s.killed[np := false] else s.killed
    case WLook(i) => if Reaps(s, p, ch) then s.killed[i := false] else s.killed
    case KillHold(x) => if x < |s.st| then s.killed[x := true] else s.killed
    case _ => s.killed
  }

  ghost function NewCond(s: State, p: nat, ch: Choice): (cond: set<Chan>)
    requires Shape(s) && p < |s.st|
  {
    var c := s.pc[p];
    if c.In? && ch.SetCond? then s.cond + {Mon(c.m, ch.c)}
    else if c.In? && ch.ClearCond? then s.cond - {Mon(c.m, ch.c)}
    else s.cond
  }

  // The child made runnable by fork has a thread from then on.
  ghost function NewPc(s: State, p: nat, c: Pc): (pc: seq<Pc>)
    requires Shape(s) && p < |s.st|
  {
    var pc := s.pc[p := c];
    if s.pc[p].ForkGo? && s.pc[p].np < |s.st| && s.pc[p].np != p then pc[s.pc[p].np := Fresh] else pc
  }

  // ---- locks ----

  ghost predicate CanOp(s: State, op: Op)
    requires Shape(s)
  {
    match op
    case TakeP(i) => i < |s.st| && s.plock[i] == NoOne
    case TakeLk(Of(_)) => s.wait == NoOne
    case TakeLk(Mon(m, _)) => m < |s.mlock| && s.mlock[m] == NoOne
    case TakeLk(NoChan) => false
    case _ => true
  }

  // swtch hands p's own lock to the scheduler of CPU k.
  ghost function NewPlock(s: State, k: nat, p: nat, op: Op): (locks: seq<Holder>)
    requires Shape(s) && p < |s.st|
  {
    match op
    case TakeP(i) => if i < |s.st| then s.plock[i := Thread(p)] else s.plock
    case DropP(i) => if i < |s.st| then s.plock[i := NoOne] else s.plock
    case Swtch => s.plock[p := Sched(k)]
    case _ => s.plock
  }

  ghost function NewWait(s: State, p: nat, op: Op): (h: Holder) {
    if op.TakeLk? && op.ch.Of? then Thread(p) else if op.DropLk? && op.ch.Of? then NoOne else s.wait
  }

  ghost function NewMlock(s: State, p: nat, op: Op): (locks: seq<Holder>) {
    if op.TakeLk? && op.ch.Mon? && op.ch.m < |s.mlock| then s.mlock[op.ch.m := Thread(p)]
    else if op.DropLk? && op.ch.Mon? && op.ch.m < |s.mlock| then s.mlock[op.ch.m := NoOne]
    else s.mlock
  }

  // Where swtch back to a process resumes it.
  ghost function Resumed(c: Pc): (r: Pc) {
    match c
    case Asleep(ch) => Woken(ch)
    case Yielded => YBack
    case Fresh => FreshBack
    case _ => c
  }

  ghost predicate Enabled(s: State, a: Step)
    requires Shape(s)
  {
    match a
    case Act(k, p, ch) => On(s, k, p) && PlanOf(s, p, ch).Next? && CanOp(s, PlanOf(s, p, ch).op)
    case CpuLock(k, i) => k < |s.cpu| && s.cpu[k] == Scanning && i < |s.st| && s.plock[i] == NoOne
    case CpuTest(k) => k < |s.cpu| && s.cpu[k].Holding? && s.cpu[k].i < |s.st|
    case CpuBack(k) => k < |s.cpu| && s.cpu[k].Back? && s.cpu[k].i < |s.st|
  }

  ghost function Do(s: State, a: Step): (t: State)
    requires Shape(s) && Enabled(s, a)
  {
    match a
    case Act(k, p, ch) =>
      var plan := PlanOf(s, p, ch);
      State(NewSt(s, p, ch), NewChan(s, p, ch), NewParent(s, p, ch), NewKilled(s, p, ch),
            NewPlock(s, k, p, plan.op), NewPc(s, p, plan.c), NewWait(s, p, plan.op), NewMlock(s, p, plan.op),
            NewCond(s, p, ch), if plan.op == Swtch then s.cpu[k := Back(p)] else s.cpu, s.init)
    case CpuLock(k, i) => s.(cpu := s.cpu[k := Holding(i)], plock := s.plock[i := Sched(k)])
    case CpuTest(k) =>
      var i := s.cpu[k].i;
      if s.st[i] == Runnable then
        s.(st := s.st[i := Running], cpu := s.cpu[k := Run(i)], plock := s.plock[i := Thread(i)], pc := s.pc[i := Resumed(s.pc[i])])
      else s.(cpu := s.cpu[k := Scanning], plock := s.plock[i := NoOne])
    case CpuBack(k) => s.(cpu := s.cpu[k := Scanning], plock := s.plock[s.cpu[k].i := NoOne])
  }
}
