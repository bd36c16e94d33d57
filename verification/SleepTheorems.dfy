/** What holds in every run of the sleep, wakeup, fork, exit, wait and scheduling steps. */
module SleepTheorems {
  import opened ExitWait
  import opened SleepInvariant
  import opened SleepSteps

  // After userinit: one runnable process, no lock held, every CPU in its scheduler.
  ghost predicate Boot(s: State) {
    && Shape(s)
    && (forall i :: 0 <= i < |s.st| ==>
          && s.st[i] == (if i == s.init then Runnable else Unused)
          && s.pc[i] == (if i == s.init then Fresh else Dead)
          && s.parent[i] == -1 && s.plock[i] == NoOne)
    && s.wait == NoOne
    && (forall c :: 0 <= c < |s.mlock| ==> s.mlock[c] == NoOne)
    && (forall k :: 0 <= k < |s.cpu| ==> s.cpu[k] == Scanning)
  }

  // The first state is one after boot; every other one comes from the one before it by a step.
  ghost predicate RunAt(run: seq<State>, steps: seq<Step>, i: nat)
    requires |run| == |steps| + 1 && i < |run|
  {
    if i == 0 then Boot(run[0])
    else Shape(run[i - 1]) && Enabled(run[i - 1], steps[i - 1]) && run[i] == Do(run[i - 1], steps[i - 1])
  }

  ghost predicate IsRun(run: seq<State>, steps: seq<Step>) {
    && |run| == |steps| + 1
    && (forall i {:trigger RunAt(run, steps, i)} :: 0 <= i < |run| ==> RunAt(run, steps, i))
  }

  lemma BootLocks(s: State, i: nat, t: nat)
    requires Boot(s)
    ensures PLock(s, i, t) && CLock(s, i, t) && MLock(s, i, t) && OneCpu(s, i, t) && RunOk(s, t)
  {
  }

  lemma BootThread(s: State, t: nat)
    requires Boot(s)
    ensures ThreadOk(s, t) && ForkOk(s, t) && KinOk(s, t)
  {
  }

  lemma BootSleep(s: State, i: nat, x: nat, t: nat, ch: Chan)
    requires Boot(s)
    ensures OneFork(s, i, t) && ScanOk(s, i, t) && UpOk(s, i, t, ch) && WaitOk(s, i, t) && MonOk(s, i, x, t)
  {
  }

  lemma BootInv(s: State)
    requires Boot(s)
    ensures Inv(s)
  {
    forall i: nat, t: nat ensures PLock(s, i, t) { BootLocks(s, i, t); }
    forall i: nat, k: nat ensures CLock(s, i, k) { BootLocks(s, i, k); }
    forall m: nat, t: nat ensures MLock(s, m, t) { BootLocks(s, m, t); }
    forall k: nat, l: nat ensures OneCpu(s, k, l) && RunOk(s, l) { BootLocks(s, k, l); }
    forall t: nat ensures ThreadOk(s, t) && ForkOk(s, t) && KinOk(s, t) { BootThread(s, t); }
    forall t: nat, u: nat ensures OneFork(s, t, u) { BootSleep(s, t, 0, u, NoChan); }
    forall t: nat, j: nat ensures ScanOk(s, t, j) && WaitOk(s, t, j) { BootSleep(s, t, 0, j, NoChan); }
    forall t: nat, x: nat, ch ensures UpOk(s, t, x, ch) { BootSleep(s, t, 0, x, ch); }
    forall m: nat, x: nat, t: nat ensures MonOk(s, m, x, t) { BootSleep(s, m, x, t, NoChan); }
  }

  lemma {:induction false} RunInv(run: seq<State>, steps: seq<Step>, i: nat)
    requires IsRun(run, steps) && i < |run|
    ensures Inv(run[i])
  {
    assert RunAt(run, steps, i);
    if i == 0 {
      BootInv(run[0]);
    } else {
      RunInv(run, steps, i - 1);
      StepInv(run[i - 1], steps[i - 1]);
    }
  }

  /** No lost wakeup: while a monitor's lock is free, nobody sleeps on any of its channels whose
      condition holds. */
  lemma NoLostWakeup(run: seq<State>, steps: seq<Step>, i: nat, m: nat, c: nat, p: nat)
    requires IsRun(run, steps) && i < |run|
    requires m < |run[i].mlock| && Shape(run[i]) && p < |run[i].st|
    requires run[i].mlock[m] == NoOne && Mon(m, c) in run[i].cond
    ensures !(run[i].st[p] == Sleeping && run[i].chan[p] == Mon(m, c))
  {
    RunInv(run, steps, i);
    assert MonOk(run[i], m, c, p) && ThreadOk(run[i], p);
  }

  /** While wait_lock is free, no process asleep in wait has a zombie child, reparented ones included. */
  lemma NoForgottenZombie(run: seq<State>, steps: seq<Step>, i: nat, p: nat, q: nat)
    requires IsRun(run, steps) && i < |run|
    requires Shape(run[i]) && p < |run[i].st| && q < |run[i].st|
    requires run[i].wait == NoOne && run[i].st[q] == Zombie && run[i].parent[q] == p
    ensures !(run[i].st[p] == Sleeping && run[i].chan[p] == Of(p))
  {
    RunInv(run, steps, i);
    assert WaitOk(run[i], q, p) && ThreadOk(run[i], p);
  }

  /** At most one CPU runs a process, and one that runs is neither asleep in sched nor a freed slot. */
  lemma OneCpuPerProcess(run: seq<State>, steps: seq<Step>, i: nat, k: nat, l: nat)
    requires IsRun(run, steps) && i < |run|
    requires Shape(run[i]) && k < |run[i].cpu| && l < |run[i].cpu| && run[i].cpu[k].Run?
    ensures run[i].cpu[k].i < |run[i].st| && run[i].st[run[i].cpu[k].i] != Unused && run[i].st[run[i].cpu[k].i] != Used
    ensures run[i].cpu[l] == run[i].cpu[k] ==> l == k
  {
    RunInv(run, steps, i);
    assert RunOk(run[i], k) && OneCpu(run[i], k, l);
    assert ThreadOk(run[i], run[i].cpu[k].i);
  }

  /** A thread about to call swtch holds its own process's lock and no other, and is not RUNNING:
      sched's first three panics are unreachable. */
  lemma SchedIsCalledRight(run: seq<State>, steps: seq<Step>, i: nat, p: nat, x: nat, m: nat)
    requires IsRun(run, steps) && i < |run|
    requires Shape(run[i]) && p < |run[i].st| && x < |run[i].st| && m < |run[i].mlock|
    requires run[i].pc[p] == ExitSched || run[i].pc[p].Slp4? || run[i].pc[p] == YSched
    ensures run[i].plock[p] == Thread(p) && run[i].st[p] != Running
    ensures (x != p ==> run[i].plock[x] != Thread(p)) && run[i].wait != Thread(p) && run[i].mlock[m] != Thread(p)
  {
    RunInv(run, steps, i);
    assert PLock(run[i], p, p) && PLock(run[i], x, p) && MLock(run[i], m, p) && ThreadOk(run[i], p);
  }

  // Thread p is the one that holds q's lock, before the step or, for a slot just taken, after it.
  ghost predicate Under(s: State, s': State, p: nat, q: nat)
    requires Shape(s) && Shape(s') && q < |s.st| == |s'.st|
  {
    p < |s.st| && (s.plock[q] == Thread(p) || (s.plock[q] == NoOne && s'.plock[q] == Thread(p)))
  }

  /** The life cycle: what state a process may go to, at whose hands. */
  ghost predicate LivesOn(s: State, a: Step, s': State, q: nat)
    requires Shape(s) && Shape(s') && q < |s.st| == |s'.st|
  {
    match s.st[q]
    case Unused => s'.st[q] == Used && a.Act? && a.ch == CallFork(q) && Under(s, s', a.p, q)
    case Used =>
      && a.Act? && Under(s, s', a.p, q)
      && ((s'.st[q] == Unused && s.pc[a.p] == ForkHold(q)) || (s'.st[q] == Runnable && s.pc[a.p] == ForkGo(q)))
    case Runnable => s'.st[q] == Running && a.CpuTest? && a.k < |s.cpu| && s.cpu[a.k] == Holding(q) && s.plock[q] == Sched(a.k) && Parked(s.pc[q])
    case Running => a.Act? && a.p == q && Under(s, s', q, q) && (s'.st[q] == Sleeping || s'.st[q] == Zombie || s'.st[q] == Runnable)
    case Sleeping =>
      && s'.st[q] == Runnable && a.Act? && Under(s, s', a.p, q)
      && (s.pc[a.p] == KillHold(q) || (s.pc[a.p].Wk? && s.pc[a.p].ch == s.chan[q]))
    case Zombie => s'.st[q] == Unused && a.Act? && Under(s, s', a.p, q) && s.parent[q] == a.p && s.wait == Thread(a.p)
  }

  lemma MovedLives(s: State, a: Step, s': State, op: Op, c': Pc, q: nat)
    requires Inv(s) && Inv(s') && a.Act? && Moved(s, s', a.k, a.p, op, c') && q < |s.st|
    requires s.pc[a.p] == Idle && c' == ForkHold(q) ==> a.ch == CallFork(q)
    requires s'.st[q] != s.st[q]
    ensures LivesOn(s, a, s', q)
  {
    assert DataAt(s, s', a.p, c', q, MayBe) && PLock(s, q, a.p) && ThreadOk(s, a.p) && ForkOk(s, a.p) && KinOk(s, a.p);
    if s.pc[a.p] == Idle {
      OwnPlace(s, s', a.k, a.p, op, c');
      OwnPLock(s, s', a.k, a.p, op, c', q);
    }
  }

  lemma ForkCalled(s: State, p: nat, ch: Choice, q: nat)
    requires Shape(s) && p < |s.st| && s.pc[p] == Idle && PlanOf(s, p, ch).Next? && PlanOf(s, p, ch).c == ForkHold(q)
    ensures ch == CallFork(q)
  {
  }

  lemma ActLives(s: State, a: Step, q: nat)
    requires Inv(s) && a.Act? && Enabled(s, a) && Inv(Do(s, a)) && q < |s.st| && |Do(s, a).st| == |s.st|
    requires Do(s, a).st[q] != s.st[q]
    ensures LivesOn(s, a, Do(s, a), q)
  {
    var plan := PlanOf(s, a.p, a.ch);
    ActMoved(s, a);
    if s.pc[a.p] == Idle && plan.c == ForkHold(q) {
      ForkCalled(s, a.p, a.ch, q);
    }
    MovedLives(s, a, Do(s, a), plan.op, plan.c, q);
  }

  /** Every change of a process's state in a run is one of the life cycle: fork takes an unused slot
      and frees it or makes it runnable, a scheduler that holds its lock runs a runnable one, a running
      one puts itself to sleep, in the queue or to death, wakeup of its channel or kill makes a sleeping
      one runnable, its parent in wait frees a zombie; always under the process's lock. */
  lemma LifeCycle(run: seq<State>, steps: seq<Step>, i: nat, q: nat)
    requires IsRun(run, steps) && i < |steps| && q < |run[i].st|
    ensures Shape(run[i]) && Shape(run[i + 1]) && |run[i + 1].st| == |run[i].st|
    ensures run[i + 1].st[q] != run[i].st[q] ==> LivesOn(run[i], steps[i], run[i + 1], q)
  {
    var s, a := run[i], steps[i];
    RunInv(run, steps, i);
    RunInv(run, steps, i + 1);
    assert RunAt(run, steps, i + 1);
    if a.Act? {
      ActMoved(s, a);
      if Do(s, a).st[q] != s.st[q] {
        ActLives(s, a, q);
      }
    } else if a.CpuTest? && s.st[s.cpu[a.k].i] == Runnable {
      Resumes(s, a.k, a.k);
      assert CLock(s, s.cpu[a.k].i, a.k);
    }
  }

  /** A zombie is freed only by its parent, in wait, holding wait_lock and the zombie's lock. */
  lemma OnlyParentReaps(run: seq<State>, steps: seq<Step>, i: nat, q: nat)
    requires IsRun(run, steps) && i < |steps|
    requires Shape(run[i]) && Shape(run[i + 1]) && q < |run[i].st| && |run[i + 1].st| == |run[i].st|
    requires run[i].st[q] == Zombie && run[i + 1].st[q] != Zombie
    ensures var s, a := run[i], steps[i];
            && run[i + 1].st[q] == Unused
            && a.Act? && a.p < |s.st| && s.parent[q] == a.p && s.wait == Thread(a.p) && s.plock[q] == Thread(a.p)
            && s.pc[a.p] == WLook(q)
  {
    var s, a := run[i], steps[i];
    LifeCycle(run, steps, i, q);
    RunInv(run, steps, i);
    assert RunAt(run, steps, i + 1);
    ActMoved(s, a);
    assert DataAt(s, Do(s, a), a.p, PlanOf(s, a.p, a.ch).c, q, MayBe) && PLock(s, q, a.p) && ThreadOk(s, a.p) && ForkOk(s, a.p);
  }
}
