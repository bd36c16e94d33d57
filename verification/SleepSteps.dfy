/** Every step of the sleep, wakeup, exit and wait system keeps its invariant. */
module SleepSteps {
  import opened ExitWait
  import opened SleepInvariant

  // ---- each part of the invariant after a thread's step ----

  lemma OwnPLock(s: State, s': State, k: nat, p: nat, op: Op, c': Pc, i: nat)
    requires Inv(s) && Moved(s, s', k, p, op, c') && i < |s.st|
    ensures s'.plock[i] == Thread(p) <==> HoldsP(c', p, i)
    ensures s'.plock[i] != s.plock[i] ==> s.plock[i] == NoOne || s.plock[i] == Thread(p)
    ensures s'.plock[i].Thread? && s'.plock[i] != s.plock[i] ==> s'.plock[i] == Thread(p)
  {
    assert SoundP(p, s.pc[p], op, c', i) && PLock(s, i, p);
    assert ControlAt(s, s', k, p, op, c', ProcLocks) && ControlAt(s, s', k, p, op, c', Free);
  }

  lemma ActPLock(s: State, s': State, k: nat, p: nat, op: Op, c': Pc, i: nat, t: nat)
    requires Inv(s) && Moved(s, s', k, p, op, c')
    ensures PLock(s', i, t)
  {
    if i < |s.st| && t < |s.st| {
      OwnPLock(s, s', k, p, op, c', i);
      assert PLock(s, i, t);
      OwnPlace(s, s', k, p, op, c');
      if t != p {
        Others(s, s', k, p, op, c', t);
      }
    }
  }

  lemma ActCLock(s: State, s': State, k: nat, p: nat, op: Op, c': Pc, i: nat, l: nat)
    requires Inv(s) && Moved(s, s', k, p, op, c')
    ensures CLock(s', i, l)
  {
    assert SoundP(p, s.pc[p], op, c', i) && CLock(s, i, l) && CLock(s, i, k) && PLock(s, i, p);
    assert ControlAt(s, s', k, p, op, c', ProcLocks) && ControlAt(s, s', k, p, op, c', Free);
    assert ControlAt(s, s', k, p, op, c', Cpus);
  }

  lemma ActMLock(s: State, s': State, k: nat, p: nat, op: Op, c': Pc, m: nat, t: nat)
    requires Inv(s) && Moved(s, s', k, p, op, c')
    ensures MLock(s', m, t)
  {
    assert SoundL(s.pc[p], op, c', m) && MLock(s, m, t) && MLock(s, m, p);
    assert ControlAt(s, s', k, p, op, c', OtherLocks) && ControlAt(s, s', k, p, op, c', Free);
    OwnPlace(s, s', k, p, op, c');
    if t < |s.st| && t != p {
      Others(s, s', k, p, op, c', t);
    }
  }

  lemma ActRun(s: State, s': State, k: nat, p: nat, op: Op, c': Pc, l: nat)
    requires Inv(s) && Moved(s, s', k, p, op, c')
    ensures RunOk(s', l)
  {
    assert Flow(s, p, s.pc[p], op, c', 0, Places) && RunOk(s, l) && OneCpu(s, l, k);
    assert ControlAt(s, s', k, p, op, c', Cpus);
    OwnPlace(s, s', k, p, op, c');
    if l < |s.cpu| && s.cpu[l].Run? && s.cpu[l].i != p {
      Others(s, s', k, p, op, c', s.cpu[l].i);
    }
  }

  lemma ActOneCpu(s: State, s': State, k: nat, p: nat, op: Op, c': Pc, l: nat, j: nat)
    requires Inv(s) && Moved(s, s', k, p, op, c')
    ensures OneCpu(s', l, j)
  {
    assert OneCpu(s, l, j) && ControlAt(s, s', k, p, op, c', Cpus);
  }

  // The process a thread is forking stays used and without a thread of its own.
  lemma ActFork(s: State, s': State, k: nat, p: nat, op: Op, c': Pc, t: nat)
    requires Inv(s) && Moved(s, s', k, p, op, c')
    ensures ForkOk(s', t)
  {
    if t < |s.st| && t != p {
      Others(s, s', k, p, op, c', t);
      OtherFork(s, s', k, p, op, c', t);
    } else if t == p {
      OwnPlace(s, s', k, p, op, c');
      OwnFork(s, s', k, p, op, c');
    }
  }

  lemma OtherFork(s: State, s': State, k: nat, p: nat, op: Op, c': Pc, t: nat)
    requires Inv(s) && Moved(s, s', k, p, op, c') && t < |s.st| && t != p
    ensures var np := ForkOf(s.pc[t]); np >= 0 ==> np < |s.st| && np != t && s'.st[np] == Used && s'.pc[np] == Dead
  {
    var np := ForkOf(s.pc[t]);
    assert ForkOk(s, t) && OneFork(s, t, p) && RunOk(s, k);
    if np >= 0 {
      assert DataAt(s, s', p, c', np, MayBe);
      Others(s, s', k, p, op, c', np);
    }
  }

  // The process it forks is the one before, or an unused slot it has just taken.
  lemma OwnFork(s: State, s': State, k: nat, p: nat, op: Op, c': Pc)
    requires Inv(s) && Moved(s, s', k, p, op, c')
    ensures var np := ForkOf(c'); np >= 0 ==> np < |s.st| && np != p && s'.st[np] == Used && s'.pc[np] == Dead
  {
    var np := ForkOf(c');
    assert Flow(s, p, s.pc[p], op, c', 0, Forks);
    if np >= 0 {
      if np == ForkOf(s.pc[p]) {
        SameFork(s, s', k, p, op, c');
      } else {
        NewFork(s, s', k, p, op, c');
      }
    }
  }

  lemma SameFork(s: State, s': State, k: nat, p: nat, op: Op, c': Pc)
    requires Inv(s) && Moved(s, s', k, p, op, c') && ForkOf(c') >= 0 && ForkOf(c') == ForkOf(s.pc[p])
    ensures var np := ForkOf(c'); np < |s.st| && np != p && s'.st[np] == Used && s'.pc[np] == Dead
  {
    assert ForkOk(s, p) && DataAt(s, s', p, c', ForkOf(c'), MayBe) && DataAt(s, s', p, c', ForkOf(c'), MustBe);
    Others(s, s', k, p, op, c', ForkOf(c'));
  }

  lemma NewFork(s: State, s': State, k: nat, p: nat, op: Op, c': Pc)
    requires Inv(s) && Moved(s, s', k, p, op, c') && s.pc[p] == Idle && 0 <= ForkOf(c') < |s.st|
    requires s.st[ForkOf(c')] == Unused && c' == ForkHold(ForkOf(c'))
    ensures var np := ForkOf(c'); np != p && s'.st[np] == Used && s'.pc[np] == Dead
  {
    assert ThreadOk(s, p) && ThreadOk(s, ForkOf(c')) && DataAt(s, s', p, c', ForkOf(c'), MustBe);
    Others(s, s', k, p, op, c', ForkOf(c'));
  }

  // What wait looks at, and the slot fork is about to give away, keep their parent.
  lemma OtherLooks(s: State, s': State, k: nat, p: nat, op: Op, c': Pc, t: nat)
    requires Inv(s) && Moved(s, s', k, p, op, c') && t < |s.st| && t != p
    ensures s.pc[t].WLook? && s.pc[t].i < |s.st| ==> s'.parent[s.pc[t].i] == t
  {
    if s.pc[t].WLook? && s.pc[t].i < |s.st| {
      assert KinOk(s, t) && DataAt(s, s', p, c', s.pc[t].i, Kin) && ForkOk(s, p) && KinOk(s, p);
      Excludes(s, t, p, s.pc[t].i, 0);
    }
  }

  lemma OtherSlot(s: State, s': State, k: nat, p: nat, op: Op, c': Pc, t: nat)
    requires Inv(s) && Moved(s, s', k, p, op, c') && t < |s.st| && t != p
    ensures (s.pc[t].ForkHold? || s.pc[t].ForkFree? || s.pc[t].ForkParent?) && s.pc[t].np < |s.st| ==> s'.parent[s.pc[t].np] == -1
  {
    if (s.pc[t].ForkHold? || s.pc[t].ForkFree? || s.pc[t].ForkParent?) && s.pc[t].np < |s.st| {
      assert KinOk(s, t) && DataAt(s, s', p, c', s.pc[t].np, Kin) && OneFork(s, t, p) && ForkOk(s, t);
    }
  }

  // A slot that becomes or stays unused has no parent.
  lemma FreedKin(s: State, s': State, k: nat, p: nat, op: Op, c': Pc, t: nat)
    requires Inv(s) && Moved(s, s', k, p, op, c') && t < |s.st|
    ensures s'.st[t] == Unused ==> s'.parent[t] == -1
  {
    if s.st[t] == Unused {
      assert KinOk(s, t) && DataAt(s, s', p, c', t, Kin) && ForkOk(s, p);
    } else {
      assert DataAt(s, s', p, c', t, Orphan);
    }
  }

  lemma ActKin(s: State, s': State, k: nat, p: nat, op: Op, c': Pc, t: nat)
    requires Inv(s) && Moved(s, s', k, p, op, c')
    ensures KinOk(s', t)
  {
    if t < |s.st| {
      FreedKin(s, s', k, p, op, c', t);
      if t != p {
        Others(s, s', k, p, op, c', t);
        OtherLooks(s, s', k, p, op, c', t);
        OtherSlot(s, s', k, p, op, c', t);
      } else {
        OwnPlace(s, s', k, p, op, c');
        OwnKin(s, s', k, p, op, c');
      }
    }
  }

  lemma OwnKin(s: State, s': State, k: nat, p: nat, op: Op, c': Pc)
    requires Inv(s) && Moved(s, s', k, p, op, c')
    ensures c'.WLook? && c'.i < |s.st| ==> s'.parent[c'.i] == p
    ensures (c'.ForkHold? || c'.ForkFree? || c'.ForkParent?) && c'.np < |s.st| ==> s'.parent[c'.np] == -1
  {
    assert KinOk(s, p) && Flow(s, p, s.pc[p], op, c', 0, Forks);
    var q := if c'.WLook? then c'.i else ForkOf(c');
    if 0 <= q < |s.st| {
      assert DataAt(s, s', p, c', q, Kin) && DataAt(s, s', p, c', q, Orphan) && KinOk(s, q);
    }
  }

  lemma ActOneFork(s: State, s': State, k: nat, p: nat, op: Op, c': Pc, t: nat, u: nat)
    requires Inv(s) && Moved(s, s', k, p, op, c')
    ensures OneFork(s', t, u)
  {
    if t < |s.st| && u < |s.st| && t != u {
      OwnPlace(s, s', k, p, op, c');
      if t != p {
        Others(s, s', k, p, op, c', t);
      }
      if u != p {
        Others(s, s', k, p, op, c', u);
      }
      assert Flow(s, p, s.pc[p], op, c', 0, Forks) && ForkOk(s, t) && ForkOk(s, u);
      assert OneFork(s, t, u) && OneFork(s, p, u) && OneFork(s, t, p);
    }
  }

  // The thread that moves is where its plan says.
  lemma OwnPlace(s: State, s': State, k: nat, p: nat, op: Op, c': Pc)
    requires Inv(s) && Moved(s, s', k, p, op, c')
    ensures s'.pc[p] == c'
  {
    assert ControlAt(s, s', k, p, op, c', ThreadPlaces);
  }

  // The place of a thread other than p does not change, except that a forked child gets one.
  lemma Others(s: State, s': State, k: nat, p: nat, op: Op, c': Pc, t: nat)
    requires Inv(s) && Moved(s, s', k, p, op, c') && t < |s.st| && t != p
    ensures s'.pc[t] == s.pc[t] || (s.pc[p] == ForkGo(t) && s.pc[t] == Dead && s'.pc[t] == Fresh)
    ensures s.pc[p] == ForkGo(t) ==> s'.pc[t] == Fresh
  {
    assert ForkOk(s, p) && ControlAt(s, s', k, p, op, c', ThreadPlaces);
  }

  // Two threads never hold wait_lock, or the same process's lock, or the same monitor's, together.
  lemma Excludes(s: State, t: nat, u: nat, i: nat, m: nat)
    requires Inv(s) && t < |s.st| && u < |s.st| && t != u
    ensures !(HoldsW(s.pc[t]) && HoldsW(s.pc[u]))
    ensures i < |s.st| ==> !(HoldsP(s.pc[t], t, i) && HoldsP(s.pc[u], u, i))
    ensures m < |s.mlock| ==> !(HoldsM(s.pc[t], m) && HoldsM(s.pc[u], m))
  {
    assert ThreadOk(s, t) && ThreadOk(s, u) && PLock(s, i, t) && PLock(s, i, u) && MLock(s, m, t) && MLock(s, m, u);
  }

  lemma WaitLock(s: State, t: nat)
    requires Inv(s) && t < |s.st|
    ensures s.wait == Thread(t) <==> HoldsW(s.pc[t])
  {
    assert ThreadOk(s, t);
  }

  lemma OwnWLock(s: State, s': State, k: nat, p: nat, op: Op, c': Pc)
    requires Inv(s) && Moved(s, s', k, p, op, c')
    ensures s'.wait == Thread(p) <==> HoldsW(c')
    ensures s'.wait == s.wait || s'.wait == Thread(p) || (s'.wait == NoOne && s.wait == Thread(p))
    ensures s'.wait != s.wait && s'.wait == Thread(p) ==> s.wait == NoOne
  {
    assert SoundL(s.pc[p], op, c', 0);
    assert ControlAt(s, s', k, p, op, c', OtherLocks) && ControlAt(s, s', k, p, op, c', Free);
    WaitLock(s, p);
  }

  lemma ActWLock(s: State, s': State, k: nat, p: nat, op: Op, c': Pc, t: nat)
    requires Inv(s) && Moved(s, s', k, p, op, c') && t < |s.st|
    ensures s'.wait == Thread(t) <==> HoldsW(s'.pc[t])
    ensures s'.wait == NoOne || s'.wait.Thread?
  {
    OwnWLock(s, s', k, p, op, c');
    if t == p {
      OwnPlace(s, s', k, p, op, c');
    } else {
      WaitLock(s, t);
      Others(s, s', k, p, op, c', t);
    }
  }

  lemma OtherState(s: State, s': State, k: nat, p: nat, op: Op, c': Pc, t: nat)
    requires Inv(s) && Moved(s, s', k, p, op, c') && t < |s.st| && t != p
    ensures StateAt(s'.pc[t], s'.st[t])
  {
    assert ThreadOk(s, t) && DataAt(s, s', p, c', t, MayBe) && DataAt(s, s', p, c', t, MustBe) && ForkOk(s, p);
    Others(s, s', k, p, op, c', t);
    Excludes(s, t, p, t, 0);
  }

  lemma OwnTurn(s: State, s': State, k: nat, p: nat, op: Op, c': Pc)
    requires Inv(s) && Moved(s, s', k, p, op, c')
    ensures s'.st[p] == OwnState(s.pc[p], s.st[p])
  {
    assert ThreadOk(s, p) && ForkOk(s, p) && RunOk(s, k) && Flow(s, p, s.pc[p], op, c', 0, Forks);
    assert DataAt(s, s', p, c', p, MustBe) && DataAt(s, s', p, c', p, MayBe);
  }

  lemma OwnStateAfter(s: State, s': State, k: nat, p: nat, op: Op, c': Pc)
    requires Inv(s) && Moved(s, s', k, p, op, c')
    ensures s'.pc[p] == c' && s'.st[p] == OwnState(s.pc[p], s.st[p]) && StateAt(c', s'.st[p])
  {
    OwnPlace(s, s', k, p, op, c');
    OwnTurn(s, s', k, p, op, c');
    assert Flow(s, p, s.pc[p], op, c', 0, Places) && ThreadOk(s, p);
  }

  lemma OtherWake(s: State, s': State, k: nat, p: nat, op: Op, c': Pc, t: nat)
    requires Inv(s) && Moved(s, s', k, p, op, c') && t < |s.st| && t != p && HoldsW(s.pc[t])
    ensures s.st[t] != Zombie || s.pc[t] == ExitRel ==> s'.parent[t] == s.parent[t]
  {
    assert DataAt(s, s', p, c', t, Kin) && ForkOk(s, p) && ThreadOk(s, t);
    Excludes(s, t, p, t, 0);
  }

  lemma OwnRange(s: State, s': State, k: nat, p: nat, op: Op, c': Pc)
    requires Inv(s) && Moved(s, s', k, p, op, c')
    ensures InRange(s', c')
  {
    assert ThreadOk(s, p) && Flow(s, p, s.pc[p], op, c', 0, Ranges);
    assert ControlAt(s, s', k, p, op, c', Free) && ControlAt(s, s', k, p, op, c', OtherLocks);
  }

  // Its channel while it sleeps, and what it wakes.
  lemma OwnChan(s: State, s': State, k: nat, p: nat, op: Op, c': Pc)
    requires Inv(s) && Moved(s, s', k, p, op, c')
    ensures Sleeps(c') ==> c'.ch == Of(p) || c'.ch.Mon?
    ensures c'.Slp4? || c'.Asleep? ==> s'.chan[p] == c'.ch
  {
    assert ThreadOk(s, p) && DataAt(s, s', p, c', p, Tuned) && Flow(s, p, s.pc[p], op, c', 0, Wakes);
  }

  lemma OwnWakes(s: State, s': State, k: nat, p: nat, op: Op, c': Pc)
    requires Inv(s) && Moved(s, s', k, p, op, c')
    ensures c'.Wk? ==> WakesRight(s', p, c'.k, c'.ch)
  {
    assert ThreadOk(s, p) && DataAt(s, s', p, c', p, Kin) && Flow(s, p, s.pc[p], op, c', 0, Wakes) && ForkOk(s, p);
  }

  lemma OwnThread(s: State, s': State, k: nat, p: nat, op: Op, c': Pc)
    requires Inv(s) && Moved(s, s', k, p, op, c')
    ensures ThreadOk(s', p)
  {
    ActWLock(s, s', k, p, op, c', p);
    OwnStateAfter(s, s', k, p, op, c');
    OwnRange(s, s', k, p, op, c');
    OwnChan(s, s', k, p, op, c');
    OwnWakes(s, s', k, p, op, c');
  }

  lemma OtherChan(s: State, s': State, k: nat, p: nat, op: Op, c': Pc, t: nat)
    requires Inv(s) && Moved(s, s', k, p, op, c') && t < |s.st| && t != p
    ensures s.pc[t].Slp4? || s.pc[t].Asleep? ==> s'.chan[t] == s.pc[t].ch
    ensures s.pc[t].Wk? ==> WakesRight(s', t, s.pc[t].k, s.pc[t].ch)
    ensures InRange(s', s.pc[t])
  {
    assert ThreadOk(s, t) && DataAt(s, s', p, c', t, Tuned) && ForkOk(s, p);
    assert ControlAt(s, s', k, p, op, c', OtherLocks);
    if s.pc[t].Wk? && s.pc[t].k.AfterExit? {
      OtherWake(s, s', k, p, op, c', t);
    }
  }

  lemma ActThread(s: State, s': State, k: nat, p: nat, op: Op, c': Pc, t: nat)
    requires Inv(s) && Moved(s, s', k, p, op, c')
    ensures ThreadOk(s', t)
  {
    if t == p {
      OwnThread(s, s', k, p, op, c');
    } else if t < |s.st| {
      ActWLock(s, s', k, p, op, c', t);
      OtherState(s, s', k, p, op, c', t);
      Others(s, s', k, p, op, c', t);
      OtherChan(s, s', k, p, op, c', t);
      assert ThreadOk(s, t);
    }
  }

  lemma ActScan(s: State, s': State, k: nat, p: nat, op: Op, c': Pc, t: nat, j: nat)
    requires Inv(s) && Moved(s, s', k, p, op, c')
    ensures ScanOk(s', t, j)
  {
    if t < |s.st| && j < |s.st| {
      if t != p {
        Others(s, s', k, p, op, c', t);
        OtherScan(s, s', k, p, op, c', t, j);
      } else {
        OwnPlace(s, s', k, p, op, c');
        OwnScan(s, s', k, p, op, c', j);
      }
    }
  }

  lemma OtherScan(s: State, s': State, k: nat, p: nat, op: Op, c': Pc, t: nat, j: nat)
    requires Inv(s) && Moved(s, s', k, p, op, c') && t < |s.st| && j < |s.st| && t != p
    ensures Passed(s.pc[t], j) && s'.parent[j] == t ==> s'.st[j] != Zombie
  {
    assert ScanOk(s, t, j) && DataAt(s, s', p, c', j, MayBe) && DataAt(s, s', p, c', j, Kin);
    assert ThreadOk(s, p) && ForkOk(s, p);
    Excludes(s, t, p, j, 0);
  }

  lemma OwnScan(s: State, s': State, k: nat, p: nat, op: Op, c': Pc, j: nat)
    requires Inv(s) && Moved(s, s', k, p, op, c') && j < |s.st|
    ensures Passed(c', j) && s'.parent[j] == p ==> s'.st[j] != Zombie
  {
    assert ScanOk(s, p, j) && Flow(s, p, s.pc[p], op, c', j, Wakes);
    assert DataAt(s, s', p, c', j, MayBe) && DataAt(s, s', p, c', j, Kin) && ThreadOk(s, p);
    OwnTurn(s, s', k, p, op, c');
  }

  // Only a thread that releases its lock in sleep goes down.
  lemma DownGrows(s: State, s': State, k: nat, p: nat, op: Op, c': Pc, x: nat, ch: Chan)
    requires Inv(s) && Moved(s, s', k, p, op, c') && x < |s.st| && Down(s', x, ch)
    ensures Down(s, x, ch) || (x == p && s.pc[p] == Slp2(ch) && c' == Slp3(ch))
  {
    if x != p {
      assert DataAt(s, s', p, c', x, MayBe);
      Others(s, s', k, p, op, c', x);
    } else {
      assert Flow(s, p, s.pc[p], op, c', 0, Wakes) && ThreadOk(s, p);
      OwnStateAfter(s, s', k, p, op, c');
    }
  }

  /** wakeup has woken process i when it moves past it. */
  lemma PassedIsUp(s: State, s': State, k: nat, p: nat, op: Op, c': Pc, ch: Chan)
    requires Inv(s) && Moved(s, s', k, p, op, c')
    requires s.pc[p].Wk? && s.pc[p].ch == ch && s.pc[p].i < |s.st| && c'.Wk? && c'.i == s.pc[p].i + 1
    ensures !Down(s', s.pc[p].i, ch)
  {
    var x := s.pc[p].i;
    OwnPlace(s, s', k, p, op, c');
    if x != p {
      assert Flow(s, p, s.pc[p], op, c', 0, Wakes) && DataAt(s, s', p, c', x, MustBe) && ThreadOk(s, x);
      assert DataAt(s, s', p, c', x, MayBe);
      Others(s, s', k, p, op, c', x);
      Excludes(s, x, p, x, 0);
    }
  }

  // Another thread that has woken x for ch still holds the lock that goes with ch, so x cannot go down.
  lemma OtherUp(s: State, s': State, k: nat, p: nat, op: Op, c': Pc, t: nat, x: nat, ch: Chan)
    requires Inv(s) && Moved(s, s', k, p, op, c') && t < |s.st| && x < |s.st| && t != p && Waked(s', t, x, ch)
    ensures !Down(s', x, ch)
  {
    Others(s, s', k, p, op, c', t);
    if s.pc[t] == ExitLock || s.pc[t] == ExitZ {
      assert ThreadOk(s, t);
      OtherWake(s, s', k, p, op, c', t);
    }
    assert Waked(s, t, x, ch) && UpOk(s, t, x, ch);
    if Down(s', x, ch) {
      DownGrows(s, s', k, p, op, c', x, ch);
      assert ThreadOk(s, t) && ThreadOk(s, p);
      Excludes(s, t, p, 0, if ch.Mon? then ch.m else 0);
    }
  }

  lemma ActUp(s: State, s': State, k: nat, p: nat, op: Op, c': Pc, t: nat, x: nat, ch: Chan)
    requires Inv(s) && Moved(s, s', k, p, op, c')
    ensures UpOk(s', t, x, ch)
  {
    if t < |s.st| && x < |s.st| && Waked(s', t, x, ch) {
      if t == p {
        OwnUp(s, s', k, p, op, c', x, ch);
      } else {
        OtherUp(s, s', k, p, op, c', t, x, ch);
      }
    }
  }

  // Where p was, if it has now woken x for ch.
  lemma WakedBefore(s: State, s': State, k: nat, p: nat, op: Op, c': Pc, x: nat, ch: Chan)
    requires Inv(s) && Moved(s, s', k, p, op, c') && x < |s.st| && Waked(s', p, x, ch)
    ensures || Waked(s, p, x, ch)
            || (s.pc[p].Wk? && s.pc[p].ch == ch && c'.Wk? && c'.i == s.pc[p].i + 1 && x == s.pc[p].i)
  {
    OwnPlace(s, s', k, p, op, c');
    assert ThreadOk(s, p) && Flow(s, p, s.pc[p], op, c', 0, Wakes) && Flow(s, p, s.pc[p], op, c', 0, Minds);
    assert DataAt(s, s', p, c', p, Kin);
  }

  lemma OwnUp(s: State, s': State, k: nat, p: nat, op: Op, c': Pc, x: nat, ch: Chan)
    requires Inv(s) && Moved(s, s', k, p, op, c') && x < |s.st| && Waked(s', p, x, ch)
    ensures !Down(s', x, ch)
  {
    WakedBefore(s, s', k, p, op, c', x, ch);
    if Waked(s, p, x, ch) {
      assert UpOk(s, p, x, ch);
      if Down(s', x, ch) {
        DownGrows(s, s', k, p, op, c', x, ch);
      }
    } else {
      PassedIsUp(s, s', k, p, op, c', ch);
    }
  }

  // Where a zombie child of a process that is down comes from.
  lemma ZombieOf(s: State, s': State, k: nat, p: nat, op: Op, c': Pc, q: nat, t: nat)
    requires Inv(s) && Moved(s, s', k, p, op, c') && q < |s.st| && t < |s.st|
    requires s'.st[q] == Zombie && s'.parent[q] == t
    ensures || (s.st[q] == Zombie && s.parent[q] == t)
            || (q == p && s.pc[p] == ExitZ && s.parent[q] == t)
            || (s.st[q] == Zombie && s.pc[p] == Rep(q) && t == s.init && c' == Wk(Of(t), 0, false, AfterRep(q)))
  {
    assert DataAt(s, s', p, c', q, MayBe) && DataAt(s, s', p, c', q, Kin) && ForkOk(s, p) && ThreadOk(s, p);
    assert Flow(s, p, s.pc[p], op, c', 0, Forks);
  }

  lemma ActWait(s: State, s': State, k: nat, p: nat, op: Op, c': Pc, q: nat, t: nat)
    requires Inv(s) && Moved(s, s', k, p, op, c')
    ensures WaitOk(s', q, t)
  {
    if q < |s.st| && t < |s.st| && s'.st[q] == Zombie && s'.parent[q] == t && Down(s', t, Of(t)) {
      ZombieOf(s, s', k, p, op, c', q, t);
      DownGrows(s, s', k, p, op, c', t, Of(t));
      OwnPlace(s, s', k, p, op, c');
      assert ScanOk(s, p, q) && UpOk(s, p, t, Of(t)) && WaitOk(s, q, t);
      if s.pc[p] == Rep(q) && c' == Wk(Of(t), 0, false, AfterRep(q)) {
        ActWLock(s, s', k, p, op, c', p);
      } else {
        KeepDebt(s, s', k, p, op, c', t);
      }
    }
  }

  // The thread that owes t a wakeup still does, or has paid.
  lemma KeepDebt(s: State, s': State, k: nat, p: nat, op: Op, c': Pc, t: nat)
    requires Inv(s) && Moved(s, s', k, p, op, c') && t < |s.st| && Down(s', t, Of(t))
    requires s.wait.Thread? && s.wait.p < |s.st| && Debt(s.pc[s.wait.p], t)
    ensures s'.wait.Thread? && s'.wait.p < |s.st| && Debt(s'.pc[s'.wait.p], t)
  {
    var w := s.wait.p;
    ActWLock(s, s', k, p, op, c', w);
    if w != p {
      Others(s, s', k, p, op, c', w);
    } else {
      OwnPlace(s, s', k, p, op, c');
      assert Flow(s, p, s.pc[p], op, c', 0, Wakes);
      if s.pc[p].i == t && c'.Wk? && c'.i == t + 1 {
        PassedIsUp(s, s', k, p, op, c', Of(t));
      }
    }
  }

  // A thread on its way into sleep still finds its condition unset.
  lemma SleeperUnset(s: State, s': State, k: nat, p: nat, op: Op, c': Pc, m: nat, x: nat, t: nat)
    requires Inv(s) && Moved(s, s', k, p, op, c') && t < |s.st| && m < |s.mlock| && Mon(m, x) in s'.cond
    ensures s'.pc[t] != Slp1(Mon(m, x)) && s'.pc[t] != Slp2(Mon(m, x))
  {
    assert CondAt(s, s', p, c', m, x) && MonOk(s, m, x, t);
    if t != p {
      Others(s, s', k, p, op, c', t);
      Excludes(s, t, p, 0, m);
    } else {
      OwnPlace(s, s', k, p, op, c');
      assert Flow(s, p, s.pc[p], op, c', 0, Wakes);
    }
  }

  lemma ActMon(s: State, s': State, k: nat, p: nat, op: Op, c': Pc, m: nat, x: nat, t: nat)
    requires Inv(s) && Moved(s, s', k, p, op, c')
    ensures MonOk(s', m, x, t)
  {
    if m < |s'.mlock| && t < |s.st| && Mon(m, x) in s'.cond {
      assert ControlAt(s, s', k, p, op, c', OtherLocks);
      SleeperUnset(s, s', k, p, op, c', m, x, t);
      if Down(s', t, Mon(m, x)) {
        DownGrows(s, s', k, p, op, c', t, Mon(m, x));
        assert MonOk(s, m, x, t);
        if Mon(m, x) in s.cond {
          KeepMonDebt(s, s', k, p, op, c', m, x, t);
        } else {
          NewMonDebt(s, s', k, p, op, c', m, x, t);
        }
      }
    }
  }

  // A condition just set is owed, or its channel has been woken under this hold.
  lemma NewMonDebt(s: State, s': State, k: nat, p: nat, op: Op, c': Pc, m: nat, x: nat, t: nat)
    requires Inv(s) && Moved(s, s', k, p, op, c') && t < |s.st| && m < |s.mlock| && Down(s', t, Mon(m, x))
    requires Mon(m, x) in s'.cond && Mon(m, x) !in s.cond
    requires s'.mlock == NewMlock(s, p, op)
    ensures s'.mlock[m] == Thread(p) && MonDebt(s'.pc[p], m, x, t)
  {
    OwnPlace(s, s', k, p, op, c');
    ActMLock(s, s', k, p, op, c', m, p);
    assert MLock(s', m, p) && CondAt(s, s', p, c', m, x) && Flow(s, p, s.pc[p], op, c', 0, Minds);
    if x in s.pc[p].woken {
      assert UpOk(s, p, t, Mon(m, x)) && Waked(s, p, t, Mon(m, x));
      DownGrows(s, s', k, p, op, c', t, Mon(m, x));
    }
  }

  lemma KeepMonDebt(s: State, s': State, k: nat, p: nat, op: Op, c': Pc, m: nat, x: nat, t: nat)
    requires Inv(s) && Moved(s, s', k, p, op, c') && t < |s.st| && m < |s.mlock| && Down(s', t, Mon(m, x))
    requires Mon(m, x) in s'.cond && s'.mlock == NewMlock(s, p, op)
    requires s.mlock[m].Thread? && s.mlock[m].p < |s.st| && MonDebt(s.pc[s.mlock[m].p], m, x, t)
    ensures s'.mlock[m].Thread? && s'.mlock[m].p < |s.st| && MonDebt(s'.pc[s'.mlock[m].p], m, x, t)
  {
    var w := s.mlock[m].p;
    ActMLock(s, s', k, p, op, c', m, w);
    assert MLock(s, m, w) && MLock(s', m, w);
    if w != p {
      Others(s, s', k, p, op, c', w);
    } else {
      OwnPlace(s, s', k, p, op, c');
      OwnMonDebt(s, s', k, p, op, c', m, x, t);
    }
  }

  lemma OwnMonDebt(s: State, s': State, k: nat, p: nat, op: Op, c': Pc, m: nat, x: nat, t: nat)
    requires Inv(s) && Moved(s, s', k, p, op, c') && t < |s.st| && m < |s.mlock| && Down(s', t, Mon(m, x))
    requires Mon(m, x) in s'.cond && MonDebt(s.pc[p], m, x, t)
    ensures MonDebt(c', m, x, t)
  {
    assert ThreadOk(s, p) && Flow(s, p, s.pc[p], op, c', 0, Minds) && Flow(s, p, s.pc[p], op, c', 0, Wakes);
    assert CondAt(s, s', p, c', m, x);
    assert s.pc[p].In? ==> s.pc[p].owes != {};
    if s.pc[p].Wk? && s.pc[p].ch == Mon(m, x) && s.pc[p].i == t && c'.Wk? && c'.i == t + 1 {
      PassedIsUp(s, s', k, p, op, c', Mon(m, x));
    }
  }

  // ---- the scheduler's steps ----

  // The process a CPU finds runnable has its thread parked, and no CPU runs it.
  lemma Resumes(s: State, k: nat, l: nat)
    requires Inv(s) && k < |s.cpu| && s.cpu[k].Holding? && s.cpu[k].i < |s.st| && s.st[s.cpu[k].i] == Runnable
    ensures var c := s.pc[s.cpu[k].i]; c.Asleep? || c == Yielded || c == Fresh
    ensures l < |s.cpu| ==> s.cpu[l] != Run(s.cpu[k].i)
  {
    var i := s.cpu[k].i;
    assert ThreadOk(s, i) && PLock(s, i, i) && CLock(s, i, k) && RunOk(s, l);
  }

  lemma CpuPLock(s: State, a: Step, i: nat, t: nat)
    requires Inv(s) && !a.Act? && Enabled(s, a)
    ensures PLock(Do(s, a), i, t)
  {
    assert PLock(s, i, t) && CLock(s, i, a.k);
    if a.CpuTest? && s.st[s.cpu[a.k].i] == Runnable {
      Resumes(s, a.k, a.k);
      assert CLock(s, s.cpu[a.k].i, a.k) && PLock(s, s.cpu[a.k].i, s.cpu[a.k].i);
    }
  }

  lemma CpuCLock(s: State, a: Step, i: nat, l: nat)
    requires Inv(s) && !a.Act? && Enabled(s, a)
    ensures CLock(Do(s, a), i, l)
  {
    assert CLock(s, i, l) && CLock(s, i, a.k);
  }

  lemma CpuRun(s: State, a: Step, l: nat, j: nat)
    requires Inv(s) && !a.Act? && Enabled(s, a)
    ensures RunOk(Do(s, a), l) && OneCpu(Do(s, a), l, j)
  {
    assert RunOk(s, l) && OneCpu(s, l, j);
    if a.CpuTest? && s.st[s.cpu[a.k].i] == Runnable {
      Resumes(s, a.k, l);
      Resumes(s, a.k, j);
    }
  }

  // The scheduler changes neither a thread's duties nor who is down; it may resume a parked thread.
  ghost predicate Stays(s: State, s': State, t: nat) {
    Shape(s) && Shape(s') && |s'.st| == |s.st| && t < |s.st| ==>
      || (s'.pc[t] == s.pc[t] && s'.st[t] == s.st[t])
      || (s.st[t] == Runnable && s'.st[t] == Running && s'.pc[t] == Resumed(s.pc[t])
          && (s.pc[t].Asleep? || s.pc[t] == Yielded || s.pc[t] == Fresh))
  }

  ghost predicate Scheduled(s: State, s': State) {
    && Shape(s) && Shape(s') && |s'.st| == |s.st|
    && s'.parent == s.parent && s'.chan == s.chan && s'.mlock == s.mlock && s'.wait == s.wait
    && s'.cond == s.cond && s'.init == s.init
    && (forall t: nat {:trigger Stays(s, s', t)} :: Stays(s, s', t))
  }

  lemma CpuScheduled(s: State, a: Step)
    requires Inv(s) && !a.Act? && Enabled(s, a)
    ensures Scheduled(s, Do(s, a))
  {
    if a.CpuTest? && s.st[s.cpu[a.k].i] == Runnable {
      Resumes(s, a.k, a.k);
    }
  }

  lemma CpuMLock(s: State, s': State, m: nat, t: nat)
    requires Inv(s) && Scheduled(s, s')
    ensures MLock(s', m, t)
  {
    assert MLock(s, m, t) && Stays(s, s', t);
  }

  lemma CpuThread(s: State, s': State, t: nat)
    requires Inv(s) && Scheduled(s, s')
    ensures ThreadOk(s', t)
  {
    assert ThreadOk(s, t) && Stays(s, s', t);
  }

  lemma CpuKin(s: State, s': State, t: nat)
    requires Inv(s) && Scheduled(s, s')
    ensures KinOk(s', t)
  {
    assert KinOk(s, t) && Stays(s, s', t);
  }

  lemma CpuFork(s: State, s': State, t: nat)
    requires Inv(s) && Scheduled(s, s')
    ensures ForkOk(s', t)
  {
    assert ForkOk(s, t) && Stays(s, s', t);
    if t < |s.st| && ForkOf(s.pc[t]) >= 0 {
      assert Stays(s, s', ForkOf(s.pc[t]));
    }
  }

  lemma CpuOneFork(s: State, s': State, t: nat, u: nat)
    requires Inv(s) && Scheduled(s, s')
    ensures OneFork(s', t, u)
  {
    assert OneFork(s, t, u) && Stays(s, s', t) && Stays(s, s', u);
  }

  lemma CpuUp(s: State, s': State, t: nat, x: nat, ch: Chan)
    requires Inv(s) && Scheduled(s, s')
    ensures UpOk(s', t, x, ch)
  {
    assert UpOk(s, t, x, ch) && Stays(s, s', t) && Stays(s, s', x);
  }

  lemma CpuScan(s: State, s': State, q: nat, t: nat)
    requires Inv(s) && Scheduled(s, s')
    ensures ScanOk(s', t, q) && WaitOk(s', q, t)
  {
    assert ScanOk(s, t, q) && WaitOk(s, q, t) && Stays(s, s', t) && Stays(s, s', q);
    if s.wait.Thread? {
      assert Stays(s, s', s.wait.p);
    }
  }

  lemma CpuMon(s: State, s': State, m: nat, x: nat, t: nat)
    requires Inv(s) && Scheduled(s, s')
    ensures MonOk(s', m, x, t)
  {
    assert MonOk(s, m, x, t) && Stays(s, s', t);
    if m < |s.mlock| && s.mlock[m].Thread? {
      assert Stays(s, s', s.mlock[m].p);
    }
  }

  lemma ActInv(s: State, s': State, k: nat, p: nat, op: Op, c': Pc)
    requires Inv(s) && Moved(s, s', k, p, op, c')
    ensures Inv(s')
  {
    ActWLock(s, s', k, p, op, c', p);
    forall i: nat, t: nat ensures PLock(s', i, t) { ActPLock(s, s', k, p, op, c', i, t); }
    forall i: nat, l: nat ensures CLock(s', i, l) { ActCLock(s, s', k, p, op, c', i, l); }
    forall m: nat, t: nat ensures MLock(s', m, t) { ActMLock(s, s', k, p, op, c', m, t); }
    forall t: nat ensures ThreadOk(s', t) { ActThread(s, s', k, p, op, c', t); }
    forall l: nat ensures RunOk(s', l) { ActRun(s, s', k, p, op, c', l); }
    forall l: nat, j: nat ensures OneCpu(s', l, j) { ActOneCpu(s, s', k, p, op, c', l, j); }
    forall t: nat ensures ForkOk(s', t) { ActFork(s, s', k, p, op, c', t); }
    forall t: nat, u: nat ensures OneFork(s', t, u) { ActOneFork(s, s', k, p, op, c', t, u); }
    forall t: nat ensures KinOk(s', t) { ActKin(s, s', k, p, op, c', t); }
    forall t: nat, j: nat ensures ScanOk(s', t, j) { ActScan(s, s', k, p, op, c', t, j); }
    forall t: nat, x: nat, ch ensures UpOk(s', t, x, ch) { ActUp(s, s', k, p, op, c', t, x, ch); }
    forall q: nat, t: nat ensures WaitOk(s', q, t) { ActWait(s, s', k, p, op, c', q, t); }
    forall m: nat, x: nat, t: nat ensures MonOk(s', m, x, t) { ActMon(s, s', k, p, op, c', m, x, t); }
  }

  lemma CpuInv(s: State, a: Step)
    requires Inv(s) && !a.Act? && Enabled(s, a)
    ensures Inv(Do(s, a))
  {
    var s' := Do(s, a);
    CpuScheduled(s, a);
    forall i: nat, t: nat ensures PLock(s', i, t) { CpuPLock(s, a, i, t); }
    forall i: nat, l: nat ensures CLock(s', i, l) { CpuCLock(s, a, i, l); }
    forall m: nat, t: nat ensures MLock(s', m, t) { CpuMLock(s, s', m, t); }
    forall t: nat ensures ThreadOk(s', t) { CpuThread(s, s', t); }
    forall t: nat ensures KinOk(s', t) { CpuKin(s, s', t); }
    forall l: nat ensures RunOk(s', l) { CpuRun(s, a, l, l); }
    forall l: nat, j: nat ensures OneCpu(s', l, j) { CpuRun(s, a, l, j); }
    forall t: nat ensures ForkOk(s', t) { CpuFork(s, s', t); }
    forall t: nat, u: nat ensures OneFork(s', t, u) { CpuOneFork(s, s', t, u); }
    forall t: nat, j: nat ensures ScanOk(s', t, j) { CpuScan(s, s', j, t); }
    forall t: nat, x: nat, ch ensures UpOk(s', t, x, ch) { CpuUp(s, s', t, x, ch); }
    forall q: nat, t: nat ensures WaitOk(s', q, t) { CpuScan(s, s', q, t); }
    forall m: nat, x: nat, t: nat ensures MonOk(s', m, x, t) { CpuMon(s, s', m, x, t); }
  }

  lemma StepInv(s: State, a: Step)
    requires Inv(s) && Enabled(s, a)
    ensures Inv(Do(s, a))
  {
    if a.Act? {
      ActMoved(s, a);
      ActInv(s, Do(s, a), a.k, a.p, PlanOf(s, a.p, a.ch).op, PlanOf(s, a.p, a.ch).c);
    } else {
      CpuInv(s, a);
    }
  }
}
