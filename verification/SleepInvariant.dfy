/** The invariant of the sleep, wakeup, exit and wait steps, and that every step keeps it. */
module SleepInvariant {
  import opened ExitWait

  // Does a thread t at c hold the lock of process i?
  ghost predicate HoldsP(c: Pc, t: nat, i: nat) {
    || (c == ForkHold(i) || c == ForkGo(i) || c == WLook(i) || c == KillHold(i))
    || (c.Wk? && c.held && i == c.i)
    || (i == t && (c == ExitZ || c == ExitRel || c == ExitSched || c == WKilled || c == YHold || c == YSched || c == YBack || c == FreshBack))
    || (i == t && (c.Slp2? || c.Slp3? || c.Slp4? || c.Woken?))
  }

  // Does it hold wait_lock?
  ghost predicate HoldsW(c: Pc) {
    || c.ForkParent? || c.Rep? || c == ExitLock || c == ExitZ || c == ExitRel
    || c.WScan? || c.WLook? || c == WCheck || c == WKilled || c == WDone
    || (c.Wk? && (c.k.AfterRep? || c.k.AfterExit?))
    || ((c.Slp1? || c.Slp2?) && c.ch.Of?)
  }

  // Does it hold the lock of monitor m?
  ghost predicate HoldsM(c: Pc, m: nat) {
    || (c.In? && c.m == m)
    || (c.Wk? && c.k.AfterMon? && c.k.m == m)
    || ((c.Slp1? || c.Slp2?) && c.ch.Mon? && c.ch.m == m)
  }

  ghost predicate Parked(c: Pc) {
    c == Dead || c.Asleep? || c == Yielded || c == Fresh
  }

  // The state a process has while its thread is at c.
  ghost predicate StateAt(c: Pc, x: PState) {
    if c == Dead then x == Unused || x == Used || x == Zombie
    else if c == Fresh || c == Yielded || c == YSched then x == Runnable
    else if c.Asleep? then x == Sleeping || x == Runnable
    else if c.Slp4? then x == Sleeping
    else if c == ExitRel || c == ExitSched then x == Zombie
    else x == Running
  }

  ghost function ForkOf(c: Pc): (n: int) {
    if c.ForkHold? || c.ForkFree? || c.ForkParent? || c.ForkReady? || c.ForkGo? then c.np else -1
  }

  ghost predicate Sleeps(c: Pc) {
    c.Slp1? || c.Slp2? || c.Slp3? || c.Slp4? || c.Asleep? || c.Woken? || c.Relk?
  }

  // t is asleep on ch, or has released the lock and is about to be.
  ghost predicate Down(s: State, t: nat, ch: Chan)
    requires t < |s.pc| && t < |s.st|
  {
    s.pc[t] == Slp3(ch) || s.pc[t] == Slp4(ch) || (s.pc[t] == Asleep(ch) && s.st[t] == Sleeping)
  }

  // All process and monitor numbers in c are in range.
  ghost predicate InRange(s: State, c: Pc) {
    && ForkOf(c) < |s.st|
    && (c.WLook? ==> c.i < |s.st|)
    && (c.KillHold? ==> c.x < |s.st|)
    && (c.Wk? ==> c.i <= |s.st| && (c.held ==> c.i < |s.st|) && (c.k.AfterMon? ==> c.k.m < |s.mlock|) && (c.k.AfterRep? ==> c.k.j < |s.st|))
    && (c.Rep? ==> c.j <= |s.st|)
    && (c.WScan? ==> c.i <= |s.st|)
    && (c.In? ==> c.m < |s.mlock|)
    && ((c.Slp1? || c.Slp2?) && c.ch.Mon? ==> c.ch.m < |s.mlock|)
  }

  // ---- the invariant, one instance at a time ----

  ghost predicate PLock(s: State, i: nat, t: nat) {
    Shape(s) && i < |s.st| && t < |s.st| ==> (s.plock[i] == Thread(t) <==> HoldsP(s.pc[t], t, i))
  }

  ghost predicate CLock(s: State, i: nat, k: nat) {
    Shape(s) && i < |s.st| && k < |s.cpu| ==> (s.plock[i] == Sched(k) <==> s.cpu[k] == Holding(i) || s.cpu[k] == Back(i))
  }

  ghost predicate MLock(s: State, m: nat, t: nat) {
    Shape(s) && m < |s.mlock| && t < |s.st| ==> (s.mlock[m] == Thread(t) <==> HoldsM(s.pc[t], m))
  }

  ghost predicate ThreadOk(s: State, t: nat) {
    Shape(s) && t < |s.st| ==>
      && (s.wait == Thread(t) <==> HoldsW(s.pc[t]))
      && StateAt(s.pc[t], s.st[t])
      && InRange(s, s.pc[t])
      && (Sleeps(s.pc[t]) ==> s.pc[t].ch == Of(t) || s.pc[t].ch.Mon?)
      && (s.pc[t].Slp4? || s.pc[t].Asleep? ==> s.chan[t] == s.pc[t].ch)
      && (s.pc[t].Wk? ==> WakesRight(s, t, s.pc[t].k, s.pc[t].ch))
  }

  ghost predicate WakesRight(s: State, t: nat, k: After, ch: Chan)
    requires t < |s.parent|
  {
    match k
    case AfterStray => true
    case AfterRep(_) => ch == Of(s.init)
    case AfterExit => ch == ParentChan(s, t)
    case AfterMon(m, _, _) => ch.Mon? && ch.m == m
  }

  ghost predicate RunOk(s: State, k: nat) {
    Shape(s) && k < |s.cpu| && s.cpu[k].Run? ==> s.cpu[k].i < |s.st| && !Parked(s.pc[s.cpu[k].i])
  }

  ghost predicate OneCpu(s: State, k: nat, l: nat) {
    k < |s.cpu| && l < |s.cpu| && k != l && s.cpu[k].Run? ==> s.cpu[k] != s.cpu[l]
  }

  ghost predicate ForkOk(s: State, t: nat) {
    Shape(s) && t < |s.st| && ForkOf(s.pc[t]) >= 0 ==>
      ForkOf(s.pc[t]) < |s.st| && ForkOf(s.pc[t]) != t && s.st[ForkOf(s.pc[t])] == Used && s.pc[ForkOf(s.pc[t])] == Dead
  }

  // wait looks at its own children only; a slot has no parent until fork gives it one.
  ghost predicate KinOk(s: State, t: nat) {
    Shape(s) && t < |s.st| ==>
      && (s.pc[t].WLook? && s.pc[t].i < |s.st| ==> s.parent[s.pc[t].i] == t)
      && ((s.pc[t].ForkHold? || s.pc[t].ForkFree? || s.pc[t].ForkParent?) && s.pc[t].np < |s.st| ==> s.parent[s.pc[t].np] == -1)
      && (s.st[t] == Unused ==> s.parent[t] == -1)
  }

  ghost predicate OneFork(s: State, t: nat, u: nat) {
    Shape(s) && t < |s.st| && u < |s.st| && t != u && ForkOf(s.pc[t]) >= 0 ==> ForkOf(s.pc[t]) != ForkOf(s.pc[u])
  }

  // Has a scan of the children by a thread at c passed process j?
  ghost predicate Passed(c: Pc, j: nat) {
    || ((c.WScan? || c.WLook?) && j < c.i)
    || c == WCheck || c == WKilled
    || ((c.Slp1? || c.Slp2?) && c.ch.Of?)
  }

  ghost predicate ScanOk(s: State, t: nat, j: nat) {
    Shape(s) && t < |s.st| && j < |s.st| && Passed(s.pc[t], j) && s.parent[j] == t ==> s.st[j] != Zombie
  }

  // A thread at w has run wakeup for channel c of monitor m during this hold of its lock.
  ghost predicate WokenAt(w: Pc, m: nat, c: nat) {
    || (w.In? && w.m == m && c in w.woken)
    || (w.Wk? && w.k.AfterMon? && w.k.m == m && c in w.k.woken)
  }

  // Has a wakeup of ch by t, still under the lock that goes with ch, passed process x?
  ghost predicate Waked(s: State, t: nat, x: nat, ch: Chan)
    requires t < |s.pc| && t < |s.parent|
  {
    var c := s.pc[t];
    || (c.Wk? && !c.k.AfterStray? && c.ch == ch && x < c.i)
    || ((c == ExitLock || c == ExitZ) && ch == ParentChan(s, t))
    || (ch.Mon? && WokenAt(c, ch.m, ch.c))
  }

  ghost predicate UpOk(s: State, t: nat, x: nat, ch: Chan) {
    Shape(s) && t < |s.st| && x < |s.st| && Waked(s, t, x, ch) ==> !Down(s, x, ch)
  }

  // A thread at c still has to wake t, which it gave a zombie.
  ghost predicate Debt(c: Pc, t: nat) {
    c.Wk? && c.k.AfterRep? && c.ch == Of(t) && c.i <= t
  }

  ghost predicate WaitOk(s: State, q: nat, t: nat) {
    Shape(s) && q < |s.st| && t < |s.st| && s.st[q] == Zombie && s.parent[q] == t && Down(s, t, Of(t)) ==>
      s.wait.Thread? && s.wait.p < |s.st| && Debt(s.pc[s.wait.p], t)
  }

  // A thread at w still has to announce the condition of channel c of monitor m to t.
  ghost predicate MonDebt(w: Pc, m: nat, c: nat, t: nat) {
    || (w.In? && w.m == m && c in w.owes)
    || (w.Wk? && w.k.AfterMon? && w.k.m == m && c in w.k.owes && (w.ch == Mon(m, c) ==> w.i <= t))
  }

  ghost predicate MonOk(s: State, m: nat, c: nat, t: nat) {
    Shape(s) && m < |s.mlock| && t < |s.st| && Mon(m, c) in s.cond ==>
      && (Down(s, t, Mon(m, c)) ==> s.mlock[m].Thread? && s.mlock[m].p < |s.st| && MonDebt(s.pc[s.mlock[m].p], m, c, t))
      && s.pc[t] != Slp1(Mon(m, c)) && s.pc[t] != Slp2(Mon(m, c))
  }

  ghost predicate Inv(s: State) {
    && Shape(s)
    && (s.wait == NoOne || s.wait.Thread?)
    && (forall i: nat, t: nat {:trigger PLock(s, i, t)} :: PLock(s, i, t))
    && (forall i: nat, k: nat {:trigger CLock(s, i, k)} :: CLock(s, i, k))
    && (forall m: nat, t: nat {:trigger MLock(s, m, t)} :: MLock(s, m, t))
    && (forall t: nat {:trigger ThreadOk(s, t)} :: ThreadOk(s, t))
    && (forall k: nat {:trigger RunOk(s, k)} :: RunOk(s, k))
    && (forall k: nat, l: nat {:trigger OneCpu(s, k, l)} :: OneCpu(s, k, l))
    && (forall t: nat {:trigger ForkOk(s, t)} :: ForkOk(s, t))
    && (forall t: nat, u: nat {:trigger OneFork(s, t, u)} :: OneFork(s, t, u))
    && (forall t: nat {:trigger KinOk(s, t)} :: KinOk(s, t))
    && (forall t: nat, j: nat {:trigger ScanOk(s, t, j)} :: ScanOk(s, t, j))
    && (forall t: nat, x: nat, ch {:trigger UpOk(s, t, x, ch)} :: UpOk(s, t, x, ch))
    && (forall q: nat, t: nat {:trigger WaitOk(s, q, t)} :: WaitOk(s, q, t))
    && (forall m: nat, c: nat, t: nat {:trigger MonOk(s, m, c, t)} :: MonOk(s, m, c, t))
  }

  // ---- control: what a step does to the locks a thread holds, and where it may lead ----

  // The state a thread at c gives its own process.
  ghost function OwnState(c: Pc, x: PState): (y: PState) {
    if c == ExitZ then Zombie else if c.Slp3? then Sleeping else if c == YHold then Runnable else x
  }

  ghost predicate TakesM(op: Op, m: nat) {
    op.TakeLk? && op.ch.Mon? && op.ch.m == m
  }

  ghost predicate DropsM(op: Op, m: nat) {
    op.DropLk? && op.ch.Mon? && op.ch.m == m
  }

  // The process locks it holds after the step,
  ghost predicate SoundP(p: nat, c: Pc, op: Op, c': Pc, i: nat) {
    && (HoldsP(c', p, i) <==> op == TakeP(i) || (HoldsP(c, p, i) && op != DropP(i) && op != Swtch))
    && (op == DropP(i) ==> HoldsP(c, p, i))
    && (op == Swtch ==> (HoldsP(c, p, i) <==> i == p))
  }

  // wait_lock and a monitor's lock.
  ghost predicate SoundL(c: Pc, op: Op, c': Pc, m: nat) {
    && (HoldsW(c') <==> (op.TakeLk? && op.ch.Of?) || (HoldsW(c) && !(op.DropLk? && op.ch.Of?)))
    && (HoldsM(c', m) <==> TakesM(op, m) || (HoldsM(c, m) && !DropsM(op, m)))
    && (op.DropLk? && op.ch.Of? ==> HoldsW(c))
    && (DropsM(op, m) ==> HoldsM(c, m))
  }

  // Where a thread at c may go: the state it then has,
  ghost predicate Placed(s: State, p: nat, c: Pc, op: Op, c': Pc)
    requires Shape(s) && p < |s.st|
  {
    && (Parked(c') <==> op == Swtch)
    && (StateAt(c, s.st[p]) ==> StateAt(c', OwnState(c, s.st[p])))
  }

  // the numbers in its new place,
  ghost predicate Ranged(s: State, c: Pc, op: Op, c': Pc)
    requires Shape(s)
  {
    CanOp(s, op) && InRange(s, c) ==> InRange(s, c')
  }

  // and the process it forks or looks at.
  ghost predicate Begets(s: State, p: nat, c: Pc, c': Pc)
    requires Shape(s) && p < |s.st|
  {
    && (ForkOf(c') >= 0 ==> ForkOf(c') == ForkOf(c) || (c == Idle && ForkOf(c') < |s.st| && s.st[ForkOf(c')] == Unused && c' == ForkHold(ForkOf(c'))))
    && (c'.WLook? ==> c'.i < |s.st| && s.parent[c'.i] == p && c.WScan?)
    && (c'.ForkHold? ==> c == Idle) && (c'.ForkFree? ==> c == ForkHold(c'.np)) && (c'.ForkParent? ==> c == ForkFree(c'.np))
  }

  // What it has then seen of its children, and woken or promised to wake.
  ghost predicate Waking(s: State, p: nat, c: Pc, c': Pc, i: nat)
    requires Shape(s) && p < |s.st|
  {
    && (Passed(c', i) ==> Passed(c, i) || (c.WScan? && (i >= |s.st| || s.parent[i] != p)) || (c == WLook(i) && (i < |s.st| ==> s.st[i] != Zombie)))
    && (Sleeps(c') ==> (Sleeps(c) && c.ch == c'.ch && !c'.Slp1?) || (c == WKilled && c' == Slp1(Of(p)))
                       || (c.In? && c'.Slp1? && c'.ch.Mon? && c'.ch.m == c.m && c'.ch !in s.cond && c.owes == {}))
    && (c'.Slp2? ==> c == Slp1(c'.ch))
    && (c'.Slp3? ==> c == Slp2(c'.ch))
    && (c'.Slp4? ==> c == Slp3(c'.ch))
    && (c'.Asleep? ==> c == Slp4(c'.ch))
    && (c' == ExitLock ==> c.Wk? && c.k.AfterExit? && !c.held && c.i >= |s.st|)
    && (c' == ExitZ ==> c == ExitLock)
    && (c'.Wk? && !c.Wk? ==> WakesRight(s, p, c'.k, c'.ch) && c'.i == 0)
    && (c'.Wk? && c.Wk? ==> c'.k == c.k && c'.ch == c.ch && WakeNext(p, c, c'))
    && (c.Wk? && !c'.Wk? ==> !c.held && c.i >= |s.st|)
  }

  // What it has woken under a monitor's lock, and still has to wake.
  ghost predicate Minding(s: State, p: nat, c: Pc, c': Pc)
    requires Shape(s) && p < |s.st|
  {
    && (c'.In? && c.In? ==> c'.m == c.m && c'.woken == c.woken)
    && (c'.In? && c.Wk? ==> c.k.AfterMon? && c.k.m == c'.m && !c.held && c.i >= |s.st|
                            && (c.ch.Mon? ==> c'.woken == c.k.woken + {c.ch.c} && c'.owes == c.k.owes - {c.ch.c}))
    && (c'.In? && !c.In? && !c.Wk? ==> c'.woken == {})
    && (c.Wk? && c.k.AfterMon? && !c'.Wk? ==> c'.In?)
    && (c'.Wk? && c'.k.AfterMon? && !c.Wk? ==> c.In? && c'.k == AfterMon(c.m, c.woken, c.owes))
    && (c.In? && c.owes != {} ==> (c'.In? && c'.m == c.m) || (c'.Wk? && c'.k == AfterMon(c.m, c.woken, c.owes) && c'.i == 0))
  }

  datatype Aspect = Places | Ranges | Forks | Wakes | Minds

  ghost predicate Flow(s: State, p: nat, c: Pc, op: Op, c': Pc, i: nat, f: Aspect)
    requires Shape(s) && p < |s.st|
  {
    match f
    case Places => Placed(s, p, c, op, c')
    case Ranges => Ranged(s, c, op, c')
    case Forks => Begets(s, p, c, c')
    case Wakes => Waking(s, p, c, c', i)
    case Minds => Minding(s, p, c, c')
  }

  ghost predicate WakeNext(p: nat, c: Pc, c': Pc)
    requires c.Wk? && c'.Wk?
  {
    || (c.held && c'.i == c.i + 1 && !c'.held)
    || (!c.held && c.i == p && c'.i == c.i + 1 && !c'.held)
    || (!c.held && c'.i == c.i && c'.held)
  }

  // Each plan, read three ways: the locks it takes and drops match the places before and after; the
  // new place fits the process; the children, sleepers and wakeups it owes are accounted for.

  lemma CallLocks(s: State, p: nat, ch: Choice, i: nat, m: nat)
    requires Shape(s) && p < |s.st|
    ensures var plan := CallPlan(s, p, ch); plan.Next? ==> SoundP(p, Idle, plan.op, plan.c, i) && SoundL(Idle, plan.op, plan.c, m)
  {
  }

  lemma CallPlaces(s: State, p: nat, ch: Choice)
    requires Shape(s) && p < |s.st|
    ensures var plan := CallPlan(s, p, ch); plan.Next? ==> Placed(s, p, Idle, plan.op, plan.c) && Ranged(s, Idle, plan.op, plan.c)
  {
  }

  lemma CallDuties(s: State, p: nat, ch: Choice, i: nat)
    requires Shape(s) && p < |s.st|
    ensures var plan := CallPlan(s, p, ch); plan.Next? ==> Begets(s, p, Idle, plan.c) && Minding(s, p, Idle, plan.c) && Waking(s, p, Idle, plan.c, i)
  {
  }

  lemma ForkLocks(s: State, p: nat, c: Pc, ch: Choice, i: nat, m: nat)
    requires Shape(s) && p < |s.st|
    ensures var plan := ForkPlan(p, c, ch); plan.Next? ==> SoundP(p, c, plan.op, plan.c, i) && SoundL(c, plan.op, plan.c, m)
  {
  }

  lemma ForkPlaces(s: State, p: nat, c: Pc, ch: Choice)
    requires Shape(s) && p < |s.st|
    ensures var plan := ForkPlan(p, c, ch); plan.Next? ==> Placed(s, p, c, plan.op, plan.c) && Ranged(s, c, plan.op, plan.c)
  {
  }

  lemma ForkDuties(s: State, p: nat, c: Pc, ch: Choice, i: nat)
    requires Shape(s) && p < |s.st|
    ensures var plan := ForkPlan(p, c, ch); plan.Next? ==> Begets(s, p, c, plan.c) && Minding(s, p, c, plan.c) && Waking(s, p, c, plan.c, i)
  {
  }

  lemma ExitLocks(s: State, p: nat, c: Pc, i: nat, m: nat)
    requires Shape(s) && p < |s.st|
    ensures var plan := ExitPlan(s, p, c); plan.Next? ==> SoundP(p, c, plan.op, plan.c, i) && SoundL(c, plan.op, plan.c, m)
  {
  }

  lemma ExitPlaces(s: State, p: nat, c: Pc)
    requires Shape(s) && p < |s.st|
    ensures var plan := ExitPlan(s, p, c); plan.Next? ==> Placed(s, p, c, plan.op, plan.c) && Ranged(s, c, plan.op, plan.c)
  {
  }

  lemma ExitDuties(s: State, p: nat, c: Pc, i: nat)
    requires Shape(s) && p < |s.st|
    ensures var plan := ExitPlan(s, p, c); plan.Next? ==> Begets(s, p, c, plan.c) && Minding(s, p, c, plan.c) && Waking(s, p, c, plan.c, i)
  {
  }

  lemma WaitLocks(s: State, p: nat, c: Pc, i: nat, m: nat)
    requires Shape(s) && p < |s.st|
    ensures var plan := WaitPlan(s, p, c); plan.Next? ==> SoundP(p, c, plan.op, plan.c, i) && SoundL(c, plan.op, plan.c, m)
  {
  }

  lemma WaitPlaces(s: State, p: nat, c: Pc)
    requires Shape(s) && p < |s.st|
    ensures var plan := WaitPlan(s, p, c); plan.Next? ==> Placed(s, p, c, plan.op, plan.c) && Ranged(s, c, plan.op, plan.c)
  {
  }

  lemma WaitDuties(s: State, p: nat, c: Pc, i: nat)
    requires Shape(s) && p < |s.st|
    ensures var plan := WaitPlan(s, p, c); plan.Next? ==> Begets(s, p, c, plan.c) && Minding(s, p, c, plan.c) && Waking(s, p, c, plan.c, i)
  {
  }

  lemma SleepLocks(s: State, p: nat, c: Pc, i: nat, m: nat)
    requires Shape(s) && p < |s.st| && (Sleeps(c) ==> c.ch.Of? || c.ch.Mon?)
    ensures var plan := SleepPlan(p, c); plan.Next? ==> SoundP(p, c, plan.op, plan.c, i) && SoundL(c, plan.op, plan.c, m)
  {
  }

  lemma SleepPlaces(s: State, p: nat, c: Pc)
    requires Shape(s) && p < |s.st| && (Sleeps(c) ==> c.ch.Of? || c.ch.Mon?)
    ensures var plan := SleepPlan(p, c); plan.Next? ==> Placed(s, p, c, plan.op, plan.c) && Ranged(s, c, plan.op, plan.c)
  {
  }

  lemma SleepDuties(s: State, p: nat, c: Pc, i: nat)
    requires Shape(s) && p < |s.st| && (Sleeps(c) ==> c.ch.Of? || c.ch.Mon?)
    ensures var plan := SleepPlan(p, c); plan.Next? ==> Begets(s, p, c, plan.c) && Minding(s, p, c, plan.c) && Waking(s, p, c, plan.c, i)
  {
  }

  lemma WakeLocks(s: State, p: nat, c: Pc, i: nat, m: nat)
    requires Shape(s) && p < |s.st| && c.Wk?
    ensures var plan := WakePlan(|s.st|, p, c); plan.Next? ==> SoundP(p, c, plan.op, plan.c, i) && SoundL(c, plan.op, plan.c, m)
  {
  }

  lemma WakePlaces(s: State, p: nat, c: Pc)
    requires Shape(s) && p < |s.st| && c.Wk?
    ensures var plan := WakePlan(|s.st|, p, c); plan.Next? ==> Placed(s, p, c, plan.op, plan.c) && Ranged(s, c, plan.op, plan.c)
  {
  }

  lemma WakeDuties(s: State, p: nat, c: Pc, i: nat)
    requires Shape(s) && p < |s.st| && c.Wk?
    ensures var plan := WakePlan(|s.st|, p, c); plan.Next? ==> Begets(s, p, c, plan.c) && Minding(s, p, c, plan.c) && Waking(s, p, c, plan.c, i)
  {
  }

  lemma MonLocks(s: State, p: nat, c: Pc, ch: Choice, i: nat, m: nat)
    requires Shape(s) && p < |s.st| && c.In?
    ensures var plan := MonPlan(s, c, ch); plan.Next? ==> SoundP(p, c, plan.op, plan.c, i) && SoundL(c, plan.op, plan.c, m)
  {
  }

  lemma MonPlaces(s: State, p: nat, c: Pc, ch: Choice)
    requires Shape(s) && p < |s.st| && c.In?
    ensures var plan := MonPlan(s, c, ch); plan.Next? ==> Placed(s, p, c, plan.op, plan.c) && Ranged(s, c, plan.op, plan.c)
  {
  }

  lemma MonDuties(s: State, p: nat, c: Pc, ch: Choice, i: nat)
    requires Shape(s) && p < |s.st| && c.In?
    ensures var plan := MonPlan(s, c, ch); plan.Next? ==> Begets(s, p, c, plan.c) && Minding(s, p, c, plan.c) && Waking(s, p, c, plan.c, i)
  {
  }

  lemma MiscLocks(s: State, p: nat, c: Pc, i: nat, m: nat)
    requires Shape(s) && p < |s.st|
    ensures var plan := MiscPlan(p, c); plan.Next? ==> SoundP(p, c, plan.op, plan.c, i) && SoundL(c, plan.op, plan.c, m)
  {
  }

  lemma MiscPlaces(s: State, p: nat, c: Pc)
    requires Shape(s) && p < |s.st|
    ensures var plan := MiscPlan(p, c); plan.Next? ==> Placed(s, p, c, plan.op, plan.c) && Ranged(s, c, plan.op, plan.c)
  {
  }

  lemma MiscDuties(s: State, p: nat, c: Pc, i: nat)
    requires Shape(s) && p < |s.st|
    ensures var plan := MiscPlan(p, c); plan.Next? ==> Begets(s, p, c, plan.c) && Minding(s, p, c, plan.c) && Waking(s, p, c, plan.c, i)
  {
  }

  lemma PlanSound(s: State, p: nat, ch: Choice, i: nat, m: nat)
    requires Shape(s) && p < |s.st| && ThreadOk(s, p) && PlanOf(s, p, ch).Next?
    ensures var plan := PlanOf(s, p, ch);
            && SoundP(p, s.pc[p], plan.op, plan.c, i) && SoundL(s.pc[p], plan.op, plan.c, m)
            && (forall f {:trigger Flow(s, p, s.pc[p], plan.op, plan.c, i, f)} :: Flow(s, p, s.pc[p], plan.op, plan.c, i, f))
  {
    var c := s.pc[p];
    if c == Idle {
      CallLocks(s, p, ch, i, m);
      CallPlaces(s, p, ch);
      CallDuties(s, p, ch, i);
    } else if c.ForkHold? || c.ForkFree? || c.ForkParent? || c.ForkReady? || c.ForkGo? {
      ForkLocks(s, p, c, ch, i, m);
      ForkPlaces(s, p, c, ch);
      ForkDuties(s, p, c, ch, i);
    } else if c.Rep? || c == ExitLock || c == ExitZ || c == ExitRel || c == ExitSched {
      ExitLocks(s, p, c, i, m);
      ExitPlaces(s, p, c);
      ExitDuties(s, p, c, i);
    } else if c.WScan? || c.WLook? || c == WCheck || c == WKilled || c == WDone {
      WaitLocks(s, p, c, i, m);
      WaitPlaces(s, p, c);
      WaitDuties(s, p, c, i);
    } else if c.Wk? {
      WakeLocks(s, p, c, i, m);
      WakePlaces(s, p, c);
      WakeDuties(s, p, c, i);
    } else if c.In? {
      MonLocks(s, p, c, ch, i, m);
      MonPlaces(s, p, c, ch);
      MonDuties(s, p, c, ch, i);
    } else if c == YHold || c == YSched || c == YBack || c == FreshBack || c.KillHold? {
      MiscLocks(s, p, c, i, m);
      MiscPlaces(s, p, c);
      MiscDuties(s, p, c, i);
    } else {
      SleepLocks(s, p, c, i, m);
      SleepPlaces(s, p, c);
      SleepDuties(s, p, c, i);
    }
  }

  // ---- data: every way a step changes the state, parent, channel of a process ----

  // How a process's state may change, and who may change it,
  ghost predicate MayTurn(s: State, p: nat, c': Pc, q: nat, x: PState)
    requires Shape(s) && p < |s.st| && q < |s.st|
  {
    var c := s.pc[p];
    || x == s.st[q]
    || (s.st[q] == Unused && x == Used && c == Idle && c' == ForkHold(q))
    || (x == Unused && c == ForkHold(q) && c' == Idle)
    || (x == Runnable && c == ForkGo(q) && c' == Idle)
    || (q == p && x == OwnState(c, s.st[p]))
    || (s.st[q] == Zombie && x == Unused && c == WLook(q))
    || (s.st[q] == Sleeping && x == Runnable && c == KillHold(q))
    || (s.st[q] == Sleeping && x == Runnable && c.Wk? && c.held && c.i == q && s.chan[q] == c.ch)
  }

  // and where it has to.
  ghost predicate MustTurn(s: State, p: nat, c': Pc, q: nat, x: PState)
    requires Shape(s) && p < |s.st| && q < |s.st|
  {
    var c := s.pc[p];
    && (c == ForkGo(q) ==> x == Runnable)
    && (c == Idle && c' == ForkHold(q) ==> x == Used)
    && (s.st[p] == Running && q == p && ForkOf(c) != p && ForkOf(c') != p ==> x == OwnState(c, s.st[p]))
    && (c.Wk? && c.held && c.i == q && s.st[q] == Sleeping && s.chan[q] == c.ch ==> x == Runnable)
  }

  ghost predicate Adopts(s: State, p: nat, c': Pc, q: nat, y: int)
    requires Shape(s) && p < |s.st| && q < |s.st|
  {
    var c := s.pc[p];
    || y == s.parent[q]
    || (y == -1 && (c == ForkHold(q) || (c == WLook(q) && s.st[q] == Zombie)))
    || (y == p && c == ForkParent(q))
    || (y == s.init && c == Rep(q) && s.parent[q] == p && c' == Wk(Of(s.init), 0, false, AfterRep(q)))
  }

  ghost predicate Tunes(s: State, p: nat, q: nat, z: Chan)
    requires Shape(s) && p < |s.st| && q < |s.st|
  {
    var c := s.pc[p];
    && (|| z == s.chan[q]
        || (z == NoChan && (c == ForkHold(q) || (c == WLook(q) && s.st[q] == Zombie) || (q == p && c.Woken?)))
        || (q == p && c == Slp3(z)))
    && (q == p && c.Slp3? ==> z == c.ch)
    && (q == p && c.Slp4? ==> z == s.chan[q])
  }

  // b: whether the condition of channel x of monitor m is set after the step.
  ghost predicate Sets(s: State, p: nat, c': Pc, m: nat, x: nat, b: bool)
    requires Shape(s) && p < |s.st|
  {
    var c := s.pc[p];
    && (|| b == (Mon(m, x) in s.cond)
        || (c.In? && c.m == m && b && c'.In? && (x in c'.owes || x in c.woken))
        || (c.In? && c.m == m && !b))
    && (c.In? && c.m == m && x in c.owes && c'.In? && x !in c'.owes ==> !b)
  }

  datatype Datum = MayBe | MustBe | Kin | Tuned | Orphan

  ghost predicate DataAt(s: State, s': State, p: nat, c': Pc, q: nat, d: Datum)
    requires Shape(s) && Shape(s') && |s'.st| == |s.st| && p < |s.st|
  {
    q < |s.st| ==>
      match d
      case MayBe => MayTurn(s, p, c', q, s'.st[q])
      case MustBe => MustTurn(s, p, c', q, s'.st[q])
      case Kin => Adopts(s, p, c', q, s'.parent[q])
      case Tuned => Tunes(s, p, q, s'.chan[q])
      case Orphan =>
        && (s'.st[q] == Unused && s.st[q] != Unused ==> s'.parent[q] == -1)
        && (s.pc[p] == ForkHold(q) && c' != Idle ==> s'.parent[q] == s.parent[q])
  }

  ghost predicate CondAt(s: State, s': State, p: nat, c': Pc, m: nat, x: nat)
    requires Shape(s) && p < |s.st|
  {
    Sets(s, p, c', m, x, Mon(m, x) in s'.cond)
  }

  lemma MayAct(s: State, p: nat, ch: Choice, q: nat)
    requires Shape(s) && p < |s.st| && q < |s.st| && ThreadOk(s, p) && PlanOf(s, p, ch).Next?
    ensures MayTurn(s, p, PlanOf(s, p, ch).c, q, NewSt(s, p, ch)[q])
  {
  }

  lemma OthersAct(s: State, p: nat, ch: Choice, q: nat)
    requires Shape(s) && p < |s.st| && q < |s.st|
    ensures var c, x := s.pc[p], NewSt(s, p, ch)[q];
            && (c == ForkGo(q) ==> x == Runnable)
            && (c.Wk? && c.held && c.i == q && s.st[q] == Sleeping && s.chan[q] == c.ch ==> x == Runnable)
  {
  }

  lemma OwnAct(s: State, p: nat, ch: Choice)
    requires Shape(s) && p < |s.st| && s.st[p] == Running && ForkOf(s.pc[p]) != p && !(s.pc[p] == Idle && ch == CallFork(p))
    ensures NewSt(s, p, ch)[p] == OwnState(s.pc[p], s.st[p])
  {
  }

  lemma MustAct(s: State, p: nat, ch: Choice, q: nat)
    requires Shape(s) && p < |s.st| && q < |s.st| && ThreadOk(s, p) && PlanOf(s, p, ch).Next?
    ensures MustTurn(s, p, PlanOf(s, p, ch).c, q, NewSt(s, p, ch)[q])
  {
    OthersAct(s, p, ch, q);
    if s.st[p] == Running && ForkOf(s.pc[p]) != p && !(s.pc[p] == Idle && ch == CallFork(p)) {
      OwnAct(s, p, ch);
    }
  }

  lemma KinAct(s: State, p: nat, ch: Choice, q: nat)
    requires Shape(s) && p < |s.st| && q < |s.st| && ThreadOk(s, p) && PlanOf(s, p, ch).Next?
    ensures Adopts(s, p, PlanOf(s, p, ch).c, q, NewParent(s, p, ch)[q])
  {
  }

  lemma OrphanAct(s: State, p: nat, ch: Choice, q: nat)
    requires Shape(s) && p < |s.st| && q < |s.st| && ThreadOk(s, p) && PlanOf(s, p, ch).Next?
    ensures NewSt(s, p, ch)[q] == Unused && s.st[q] != Unused ==> NewParent(s, p, ch)[q] == -1
    ensures s.pc[p] == ForkHold(q) && PlanOf(s, p, ch).c != Idle ==> NewParent(s, p, ch)[q] == s.parent[q]
  {
  }

  lemma ChanAct(s: State, p: nat, ch: Choice, q: nat)
    requires Shape(s) && p < |s.st| && q < |s.st|
    ensures Tunes(s, p, q, NewChan(s, p, ch)[q])
  {
  }

  lemma CondAct(s: State, p: nat, ch: Choice, m: nat, x: nat)
    requires Shape(s) && p < |s.st| && PlanOf(s, p, ch).Next?
    ensures Sets(s, p, PlanOf(s, p, ch).c, m, x, Mon(m, x) in NewCond(s, p, ch))
  {
  }

  // The locks, places and CPUs after thread p's step on CPU k.
  ghost predicate Control(s: State, s': State, k: nat, p: nat, op: Op, c': Pc) {
    && Shape(s) && Shape(s') && |s'.st| == |s.st| && s'.init == s.init
    && On(s, k, p)
    && (forall e {:trigger ControlAt(s, s', k, p, op, c', e)} :: ControlAt(s, s', k, p, op, c', e))
  }

  datatype Element = ProcLocks | OtherLocks | ThreadPlaces | Cpus | Free

  ghost predicate ControlAt(s: State, s': State, k: nat, p: nat, op: Op, c': Pc, e: Element)
    requires Shape(s) && Shape(s') && On(s, k, p)
  {
    match e
    case ProcLocks => s'.plock == NewPlock(s, k, p, op)
    case OtherLocks => s'.wait == NewWait(s, p, op) && s'.mlock == NewMlock(s, p, op)
    case ThreadPlaces => s'.pc == NewPc(s, p, c')
    case Cpus => s'.cpu == if op == Swtch then s.cpu[k := Back(p)] else s.cpu
    case Free => CanOp(s, op)
  }

  /** A step of thread p on CPU k with lock operation op, leading to c'. */
  ghost predicate Moved(s: State, s': State, k: nat, p: nat, op: Op, c': Pc) {
    && Control(s, s', k, p, op, c')
    && (forall q: nat, d {:trigger DataAt(s, s', p, c', q, d)} :: DataAt(s, s', p, c', q, d))
    && (forall m: nat, x: nat {:trigger CondAt(s, s', p, c', m, x)} :: CondAt(s, s', p, c', m, x))
    && (forall i: nat {:trigger SoundP(p, s.pc[p], op, c', i)} :: SoundP(p, s.pc[p], op, c', i))
    && (forall m: nat {:trigger SoundL(s.pc[p], op, c', m)} :: SoundL(s.pc[p], op, c', m))
    && (forall i: nat, f {:trigger Flow(s, p, s.pc[p], op, c', i, f)} :: Flow(s, p, s.pc[p], op, c', i, f))
  }

  lemma ActControl(s: State, a: Step)
    requires Shape(s) && a.Act? && Enabled(s, a)
    ensures var s', plan := Do(s, a), PlanOf(s, a.p, a.ch);
            && Control(s, s', a.k, a.p, plan.op, plan.c)
            && s'.st == NewSt(s, a.p, a.ch) && s'.parent == NewParent(s, a.p, a.ch) && s'.chan == NewChan(s, a.p, a.ch)
            && s'.cond == NewCond(s, a.p, a.ch)
  {
  }

  lemma ActMoved(s: State, a: Step)
    requires Inv(s) && a.Act? && Enabled(s, a)
    ensures var plan := PlanOf(s, a.p, a.ch);
            Moved(s, Do(s, a), a.k, a.p, plan.op, plan.c)
  {
    var plan, s' := PlanOf(s, a.p, a.ch), Do(s, a);
    assert ThreadOk(s, a.p);
    ActControl(s, a);
    MoveData(s, s', a.p, a.ch, plan.c);
    MoveCond(s, s', a.p, a.ch, plan.c);
    MoveFlow(s, a.p, a.ch);
  }

  lemma MoveData(s: State, s': State, p: nat, ch: Choice, c': Pc)
    requires Shape(s) && p < |s.st| && ThreadOk(s, p) && PlanOf(s, p, ch).Next? && c' == PlanOf(s, p, ch).c
    requires Shape(s') && |s'.st| == |s.st|
    requires s'.st == NewSt(s, p, ch) && s'.parent == NewParent(s, p, ch) && s'.chan == NewChan(s, p, ch)
    ensures forall q: nat, d {:trigger DataAt(s, s', p, c', q, d)} :: DataAt(s, s', p, c', q, d)
  {
    forall q: nat, d ensures DataAt(s, s', p, c', q, d) {
      if q < |s.st| {
        MayAct(s, p, ch, q);
        MustAct(s, p, ch, q);
        KinAct(s, p, ch, q);
        OrphanAct(s, p, ch, q);
        ChanAct(s, p, ch, q);
      }
    }
  }

  lemma MoveCond(s: State, s': State, p: nat, ch: Choice, c': Pc)
    requires Shape(s) && p < |s.st| && PlanOf(s, p, ch).Next? && c' == PlanOf(s, p, ch).c
    requires s'.cond == NewCond(s, p, ch)
    ensures forall m: nat, x: nat {:trigger CondAt(s, s', p, c', m, x)} :: CondAt(s, s', p, c', m, x)
  {
    forall m: nat, x: nat ensures CondAt(s, s', p, c', m, x) {
      CondAct(s, p, ch, m, x);
    }
  }

  lemma MoveFlow(s: State, p: nat, ch: Choice)
    requires Shape(s) && p < |s.st| && ThreadOk(s, p) && PlanOf(s, p, ch).Next?
    ensures var plan := PlanOf(s, p, ch);
            && (forall i: nat {:trigger SoundP(p, s.pc[p], plan.op, plan.c, i)} :: SoundP(p, s.pc[p], plan.op, plan.c, i))
            && (forall m: nat {:trigger SoundL(s.pc[p], plan.op, plan.c, m)} :: SoundL(s.pc[p], plan.op, plan.c, m))
            && (forall i: nat, f {:trigger Flow(s, p, s.pc[p], plan.op, plan.c, i, f)} :: Flow(s, p, s.pc[p], plan.op, plan.c, i, f))
  {
    var plan := PlanOf(s, p, ch);
    forall i: nat ensures SoundP(p, s.pc[p], plan.op, plan.c, i) {
      PlanSound(s, p, ch, i, 0);
    }
    forall m: nat ensures SoundL(s.pc[p], plan.op, plan.c, m) {
      PlanSound(s, p, ch, 0, m);
    }
    forall i: nat, f ensures Flow(s, p, s.pc[p], plan.op, plan.c, i, f) {
      PlanSound(s, p, ch, i, 0);
    }
  }
}
