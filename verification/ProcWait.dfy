/** wait() and exit(): no zombie child is missed by a sleeping parent; and what every run keeps. */
module ProcWait {
  import opened Proc
  import opened ProcSafety
  import opened ProcWakeups

  // ----- wait() and exit() -----

  /** No child of q among the first n processes is a zombie. */
  ghost predicate NoZombieChild(s: State, q: nat, n: nat)
    requires Shape(s)
  {
    forall j :: IsProc(s, j) && j < n && s.parent[j] == q ==> s.state[j] != Zombie
  }

  /** What the holder of wait_lock, thread q at pos, may rely on. */
  ghost predicate WaitFact(s: State, q: nat, pos: Pos)
    requires Shape(s) && IsProc(s, q)
  {
    match pos
    case Wake(ch, i, _, next) =>
      next.ToDie? && Doomed(s, s.parent[q], ForChild) ==> ch == OnProc(s.parent[q]) && i <= s.parent[q]
    case ExitAcq => !Doomed(s, s.parent[q], ForChild)
    case ExitZombie => !Doomed(s, s.parent[q], ForChild)
    case WaitScan(k, _) => NoZombieChild(s, q, k)
    case WaitCheck(k) => NoZombieChild(s, q, k) && k < |s.state| && s.parent[k] == q
    case WaitNext(k) => NoZombieChild(s, q, k + 1)
    case WaitFree(k) => k < |s.state| && s.parent[k] == q && s.state[k] == Zombie
    case SleepAcq(w) => w.ForChild? ==> NoZombieChild(s, q, |s.state|)
    case SleepDrop(w) => w.ForChild? ==> NoZombieChild(s, q, |s.state|)
    case _ => true
  }

  ghost predicate WaitHolder(s: State)
    requires Shape(s)
  {
    Executing(s, s.wlock) ==> WaitFact(s, s.cproc[s.wlock], s.pc[s.cproc[s.wlock]].pos)
  }

  /** The holder of wait_lock is in reparent()'s wakeup of the init process p and has not passed it yet. */
  predicate InitWaker(s: State, p: int)
    requires Shape(s)
  {
    && p == s.init && Executing(s, s.wlock)
    && var pos := s.pc[s.cproc[s.wlock]].pos;
       pos.Wake? && pos.next.ToReparent? && pos.ch == OnProc(p) && pos.i <= p
  }

  /** A parent that will sleep or sleeps in wait() has no zombie child, unless it is about to be woken. */
  ghost predicate ChildSleep(s: State)
    requires Shape(s)
  {
    forall p, k ::
      (IsProc(s, p) && IsProc(s, k) && s.parent[k] == p && s.state[k] == Zombie && Doomed(s, p, ForChild)) ==>
        InitWaker(s, p)
  }

  /** Parents, zombies and sleepers in wait() that a step leaves alone. */
  ghost predicate SameFamily(s: State, s': State)
    requires Shape(s)
  {
    && Shape(s') && |s'.state| == |s.state|
    && (forall k :: IsProc(s, k) ==> s'.parent[k] == s.parent[k] && (s'.state[k] == Zombie <==> s.state[k] == Zombie))
    && (forall q :: IsProc(s, q) && Doomed(s', q, ForChild) ==> Doomed(s, q, ForChild))
  }

  lemma WaitFrame(s: State, s': State, q: nat, pos: Pos)
    requires Shape(s) && SameFamily(s, s') && IsProc(s, q) && WaitFact(s, q, pos)
    ensures WaitFact(s', q, pos)
  {}

  /** Steps that change the family, all taken holding wait_lock. */
  predicate FamilyPos(pos: Pos) {
    pos.WaitFree? || pos.ExitReparent? || pos.ForkParent? || pos.ExitZombie? || pos == SleepDrop(ForChild)
  }

  lemma StepSameFamily(s: State, s': State, c: nat, p: nat)
    requires Shape(s) && ThreadStep(s, s', c, p) && !FamilyPos(s.pc[p].pos)
    ensures SameFamily(s, s')
  {}

  /** The fact carries over from a position to the next, as far as the step changes nothing else. */
  lemma WaitNextFact(s: State, p: nat, choice: bool)
    requires Shape(s) && IsProc(s, p) && WaitFact(s, p, s.pc[p].pos) && HasWaitLock(s.pc[p].pos) && !s.pc[p].pos.Wake?
    requires !FamilyPos(s.pc[p].pos) || s.pc[p].pos.ExitReparent?
    ensures WaitFact(s, p, Dest(s, p, choice))
  {}

  /** The end of a wakeup: whoever it was for is no longer asleep. */
  lemma WakeNextFact(s: State, s': State, c: nat, p: nat, pos': Pos)
    requires Shape(s) && ThreadStep(s, s', c, p) && Advances(s, s', p) && s'.pc[p].pos == pos' && s.pc[p].pos.Wake?
    requires WaitFact(s, p, s.pc[p].pos)
    requires (pos'.Wake? && pos'.next == s.pc[p].pos.next) || (s.pc[p].pos.next == ToDie && pos' == ExitAcq)
             || pos'.ExitReparent?
    ensures WaitFact(s', p, pos')
  {
    StepSameFamily(s, s', c, p);
  }

  /** The fact of the thread that steps, at its next position. */
  lemma OwnWaitFact(s: State, c: nat, choice: bool)
    requires Base(s) && Enabled(s, Go(c, choice)) && s.pc[s.cproc[c]].wlk
             && WaitFact(s, s.cproc[c], s.pc[s.cproc[c]].pos)
    requires Shape(Apply(s, Go(c, choice))) && ThreadStep(s, Apply(s, Go(c, choice)), c, s.cproc[c])
    requires Advances(s, Apply(s, Go(c, choice)), s.cproc[c])
    ensures WaitFact(Apply(s, Go(c, choice)), s.cproc[c], Dest(s, s.cproc[c], choice))
  {
    var p, s' := s.cproc[c], Apply(s, Go(c, choice));
    assert PlacedAt(p, s.pc[p]);
    if s.pc[p].pos.Wake? {
      WakeNextFact(s, s', c, p, Dest(s, p, choice));
    } else if !FamilyPos(s.pc[p].pos) {
      WaitNextFact(s, p, choice);
      StepSameFamily(s, s', c, p);
      WaitFrame(s, s', p, Dest(s, p, choice));
    } else {
      FamilyFact(s, s', c, choice);
    }
  }

  lemma FamilyFact(s: State, s': State, c: nat, choice: bool)
    requires Shape(s) && IsCpu(s, c) && IsProc(s, s.cproc[c]) && FamilyPos(s.pc[s.cproc[c]].pos)
             && HasWaitLock(s.pc[s.cproc[c]].pos)
    requires WaitFact(s, s.cproc[c], s.pc[s.cproc[c]].pos)
    requires Shape(s') && ThreadStep(s, s', c, s.cproc[c])
    ensures WaitFact(s', s.cproc[c], Dest(s, s.cproc[c], choice))
  {}

  /** A thread that has just taken wait_lock relies on nothing yet. */
  lemma EntersFact(s: State, s': State, p: nat, choice: bool)
    requires Shape(s) && IsProc(s, p) && PlacedAt(p, s.pc[p]) && !HasWaitLock(s.pc[p].pos)
    requires Shape(s') && |s'.state| == |s.state|
    ensures WaitFact(s', p, Dest(s, p, choice))
  {}

  lemma OutsideFamily(s: State, c: nat, p: nat)
    requires Base(s) && Executes(s, c, p) && s.wlock != c
    ensures !FamilyPos(s.pc[p].pos) && s.pc[p].pos != SleepDrop(ForChild) && !HasWaitLock(s.pc[p].pos)
  {
    Here(s, c);
  }

  lemma StepWaitHolder(s: State, s': State, c: nat, p: nat)
    requires Base(s) && Base(s') && WaitHolder(s) && ThreadStep(s, s', c, p) && WaitFact(s', p, s'.pc[p].pos)
    ensures WaitHolder(s')
  {
    if s'.wlock != c && Executing(s', s'.wlock) {
      OthersStay(s, s', c, p, s'.wlock);
      OutsideFamily(s, c, p);
      StepSameFamily(s, s', c, p);
      WaitFrame(s, s', s.cproc[s.wlock], s.pc[s.cproc[s.wlock]].pos);
    }
  }

  lemma HolderFact(s: State, c: nat)
    requires Base(s) && WaitHolder(s) && IsCpu(s, c) && s.run[c] == Thread && IsProc(s, s.cproc[c])
             && HasWaitLock(s.pc[s.cproc[c]].pos)
    ensures s.wlock == c && s.pc[s.cproc[c]].wlk && WaitFact(s, s.cproc[c], s.pc[s.cproc[c]].pos)
  {
    Here(s, c);
  }

  lemma GoWaitFact(s: State, c: nat, choice: bool)
    requires Base(s) && WaitHolder(s) && Enabled(s, Go(c, choice))
    requires ThreadStep(s, Apply(s, Go(c, choice)), c, s.cproc[c]) && Advances(s, Apply(s, Go(c, choice)), s.cproc[c])
    ensures WaitFact(Apply(s, Go(c, choice)), s.cproc[c], Dest(s, s.cproc[c], choice))
  {
    if HasWaitLock(s.pc[s.cproc[c]].pos) {
      HolderFact(s, c);
      OwnWaitFact(s, c, choice);
    } else {
      assert PlacedAt(s.cproc[c], s.pc[s.cproc[c]]);
      EntersFact(s, Apply(s, Go(c, choice)), s.cproc[c], choice);
    }
  }

  // ----- a sleeping parent has no zombie child -----

  lemma InitWakerStays(s: State, s': State, c: nat, p: nat, q: nat)
    requires Base(s) && Base(s') && ThreadStep(s, s', c, p) && Advances(s, s', p)
    requires IsProc(s, q) && InitWaker(s, q) && Doomed(s, q, ForChild)
    ensures InitWaker(s', q)
  {
    if s.wlock != c {
      OthersStay(s, s', c, p, s.wlock);
    } else {
      InitWakerIs(s', c, q);
    }
  }

  lemma InitWakerIs(s: State, c: nat, q: int)
    requires Base(s) && Executing(s, c) && q == s.init
    requires var pos := s.pc[s.cproc[c]].pos; pos.Wake? && pos.next.ToReparent? && pos.ch == OnProc(q) && pos.i <= q
    ensures InitWaker(s, q)
  {
    Here(s, c);
  }

  /** Where a step could make k a zombie child of the sleeping q, the thread relies on the contrary. */
  lemma NewChild(s: State, s': State, c: nat, p: nat, q: nat, k: nat)
    requires Shape(s) && ThreadStep(s, s', c, p) && WaitFact(s, p, s.pc[p].pos) && IsProc(s, q) && IsProc(s, k)
    requires s'.parent[k] == q && s'.state[k] == Zombie && Doomed(s', q, ForChild)
    requires !(s.parent[k] == q && s.state[k] == Zombie && Doomed(s, q, ForChild))
    ensures s.pc[p].pos == ExitReparent(k) && s.parent[k] == p && q == s.init
  {
    assert s.state[k] == Zombie || (k == p && s.pc[p].pos.ExitZombie?);
    assert NewParent(s, p, k, s'.parent[k]);
  }

  lemma ChildSleepOne(s: State, s': State, c: nat, p: nat, q: nat, k: nat)
    requires Base(s) && Base(s') && ChildSleep(s) && ThreadStep(s, s', c, p) && Advances(s, s', p)
    requires FamilyPos(s.pc[p].pos) ==> WaitFact(s, p, s.pc[p].pos)
    requires IsProc(s, q) && IsProc(s, k) && s'.parent[k] == q && s'.state[k] == Zombie && Doomed(s', q, ForChild)
    ensures InitWaker(s', q)
  {
    if s.parent[k] == q && s.state[k] == Zombie && Doomed(s, q, ForChild) {
      InitWakerStays(s, s', c, p, q);
    } else {
      if !FamilyPos(s.pc[p].pos) { StepSameFamily(s, s', c, p); }
      NewChild(s, s', c, p, q, k);
      InitWakerIs(s', c, q);
    }
  }

  lemma StepChildSleep(s: State, s': State, c: nat, p: nat)
    requires Base(s) && Base(s') && ChildSleep(s) && WaitHolder(s) && ThreadStep(s, s', c, p) && Advances(s, s', p)
    ensures ChildSleep(s')
  {
    if HasWaitLock(s.pc[p].pos) { HolderFact(s, c); }
    forall q, k | IsProc(s', q) && IsProc(s', k) && s'.parent[k] == q && s'.state[k] == Zombie
        && Doomed(s', q, ForChild)
      ensures InitWaker(s', q)
    {
      ChildSleepOne(s, s', c, p, q, k);
    }
  }

  lemma SchedWaitHolder(s: State, s': State)
    requires Base(s) && Base(s') && WaitHolder(s) && Scheduled(s, s')
    ensures WaitHolder(s')
  {
    if Executing(s', s'.wlock) {
      assert CpuOk(s', s'.wlock);
      WaitFrame(s, s', s.cproc[s.wlock], s.pc[s.cproc[s.wlock]].pos);
    }
  }

  lemma SchedChildSleep(s: State, s': State)
    requires Shape(s) && ChildSleep(s) && Scheduled(s, s')
    ensures ChildSleep(s')
  {
    forall q, k | IsProc(s', q) && IsProc(s', k) && s'.parent[k] == q && s'.state[k] == Zombie
        && Doomed(s', q, ForChild)
      ensures InitWaker(s', q)
    {
      assert IsProc(s, q) && IsProc(s, k) && Doomed(s, q, ForChild);
    }
  }

  // ----- every run -----

  ghost predicate Inv(s: State) {
    Base(s) && LockSleep(s) && Tested(s) && WaitHolder(s) && ChildSleep(s)
  }

  lemma ThreadKeeps(s: State, s': State, c: nat, p: nat)
    requires Inv(s) && Base(s') && ThreadStep(s, s', c, p) && Advances(s, s', p) && WaitFact(s', p, s'.pc[p].pos)
    requires forall l :: IsLock(s, l) && s'.pc[p].pos == SleepAcq(ForLock(l)) ==>
               s.pc[p].pos == AcqTest(l) && s.locked[l]
    requires forall l :: IsLock(s, l) && s'.pc[p].pos == SleepDrop(ForLock(l)) ==> s.pc[p].pos == SleepAcq(ForLock(l))
    ensures Inv(s')
  {
    StepLockSleep(s, s', c, p);
    StepTested(s, s', c, p);
    StepWaitHolder(s, s', c, p);
    StepChildSleep(s, s', c, p);
  }

  lemma GoInv(s: State, c: nat, choice: bool)
    requires Inv(s) && Enabled(s, Go(c, choice))
    ensures Inv(Apply(s, Go(c, choice)))
  {
    var p, s' := s.cproc[c], Apply(s, Go(c, choice));
    if s.pc[p].pos.WaitFree? { HolderFact(s, c); }
    GoKeeps(s, c, choice);
    GoIsStep(s, c, choice);
    GoAdvances(s, c, choice);
    GoWaitFact(s, c, choice);
    assert s'.pc[p].pos == Dest(s, p, choice);
    forall l | IsLock(s, l)
      ensures s'.pc[p].pos == SleepAcq(ForLock(l)) ==> s.pc[p].pos == AcqTest(l) && s.locked[l]
      ensures s'.pc[p].pos == SleepDrop(ForLock(l)) ==> s.pc[p].pos == SleepAcq(ForLock(l))
    {
      assert PlacedAt(p, s.pc[p]);
      SleepFrom(s, p, choice, l);
    }
    ThreadKeeps(s, s', c, p);
  }

  lemma BeginInv(s: State, c: nat, call: Call)
    requires Inv(s) && Enabled(s, Begin(c, call))
    ensures Inv(Apply(s, Begin(c, call)))
  {
    BeginKeeps(s, c, call);
    BeginIsStep(s, c, call);
    EntryKind(s, s.cproc[c], call);
    ThreadKeeps(s, Apply(s, Begin(c, call)), c, s.cproc[c]);
  }

  lemma SchedInv(s: State, step: Step)
    requires Inv(s) && Enabled(s, step) && SchedStep(step)
    ensures Inv(Apply(s, step))
  {
    SchedKeeps(s, step);
    SchedScheduled(s, step);
    SchedLockSleep(s, Apply(s, step));
    SchedTested(s, Apply(s, step));
    SchedWaitHolder(s, Apply(s, step));
    SchedChildSleep(s, Apply(s, step));
  }

  lemma StepInv(s: State, step: Step)
    requires Inv(s) && Enabled(s, step)
    ensures Inv(Apply(s, step))
  {
    match step
    case Begin(c, call) => BeginInv(s, c, call);
    case Go(c, choice) => GoInv(s, c, choice);
    case _ => SchedInv(s, step);
  }

  /** After userinit(): one RUNNABLE process, every CPU in its scheduler loop, every lock free. */
  ghost predicate Initial(s: State) {
    && Shape(s) && s.wlock == -1
    && (forall p :: IsProc(s, p) ==>
          && s.state[p] == (if p == s.init then Runnable else Unused)
             && s.pc[p] == At(p, if p == s.init then NewRel else Outside)
          && s.chan[p] == NoChan && s.parent[p] == -1 && s.plock[p] == -1 && s.on[p] == -1)
    && (forall c :: IsCpu(s, c) ==> s.cproc[c] == -1 && s.run[c] == Scan)
    && (forall l :: IsLock(s, l) ==> s.lk[l] == -1)
  }

  lemma InitialInv(s: State)
    requires Initial(s)
    ensures Inv(s)
  {
    assert forall p :: IsProc(s, p) ==> PlacedAt(p, s.pc[p]) && ProcOk(s, p);
    assert forall c :: IsCpu(s, c) ==> CpuOk(s, c);
  }

  /** The states a run can end in: from s, by steps that are each possible when taken. */
  ghost predicate Reaches(s: State, steps: seq<Step>, s': State)
    decreases |steps|
  {
    if steps == [] then s' == s
    else Enabled(s, steps[0]) && Reaches(Apply(s, steps[0]), steps[1..], s')
  }

  lemma {:induction false} RunInv(s: State, steps: seq<Step>, s': State)
    requires Inv(s) && Reaches(s, steps, s')
    ensures Inv(s')
    decreases |steps|
  {
    if steps != [] {
      StepInv(s, steps[0]);
      RunInv(Apply(s, steps[0]), steps[1..], s');
    }
  }

  ghost predicate Reachable(s: State) {
    Shape(s) && exists s0, steps :: Initial(s0) && Reaches(s0, steps, s)
  }

  lemma ReachableInv(s: State)
    requires Reachable(s)
    ensures Inv(s)
  {
    var s0, steps :| Initial(s0) && Reaches(s0, steps, s);
    InitialInv(s0);
    RunInv(s0, steps, s);
  }

  // ----- what the kernel relies on -----

  /** A process sleeps on a channel exactly as sleep() left it. */
  lemma SleeperIsDoomed(s: State, p: nat, w: Reason)
    requires Base(s) && IsProc(s, p) && s.state[p] == Sleeping && s.chan[p] == ChanOf(w, p)
    ensures Doomed(s, p, w)
  {
    assert ProcOk(s, p);
  }

  /** No wakeup of a sleep-lock is lost: nobody sleeps on a lock that is free and not being released. */
  lemma SleepersAreWoken(s: State, p: nat, l: nat)
    requires Reachable(s) && IsProc(s, p) && IsLock(s, l) && s.lk[l] == -1
    requires s.state[p] == Sleeping && s.chan[p] == OnLock(l)
    ensures s.locked[l]
  {
    ReachableInv(s);
    SleeperIsDoomed(s, p, ForLock(l));
  }

  /** No exit is missed: nobody sleeps in wait() with a zombie child while wait_lock is free. */
  lemma ParentsAreWoken(s: State, p: nat, k: nat)
    requires Reachable(s) && IsProc(s, p) && IsProc(s, k) && s.wlock == -1
    requires s.state[p] == Sleeping && s.chan[p] == OnProc(p) && s.parent[k] == p
    ensures s.state[k] != Zombie
  {
    ReachableInv(s);
    SleeperIsDoomed(s, p, ForChild);
    WaitLockFree(s, p, k);
  }

  lemma WaitLockFree(s: State, p: nat, k: nat)
    requires Shape(s) && ChildSleep(s) && s.wlock == -1 && IsProc(s, p) && IsProc(s, k) && s.parent[k] == p
             && Doomed(s, p, ForChild)
    ensures s.state[k] != Zombie
  {}

  /** A process is the current one of at most one CPU; with its lock free, of one exactly if it is RUNNING. */
  lemma OneCpu(s: State, p: nat)
    requires Reachable(s) && IsProc(s, p)
    ensures forall c, d :: IsCpu(s, c) && IsCpu(s, d) && s.cproc[c] == p && s.cproc[d] == p ==> c == d
    ensures s.plock[p] == -1 ==> (s.state[p] == Running <==> exists c :: IsCpu(s, c) && s.cproc[c] == p)
  {
    ReachableInv(s);
    assert ProcOk(s, p) && PlacedAt(p, s.pc[p]);
    forall c | IsCpu(s, c) && s.cproc[c] == p
      ensures c == s.on[p]
    {
      assert CpuOk(s, c);
    }
  }

  /** The four conditions sched() checks: it holds p->lock and no other spinlock, and p is not RUNNING. */
  lemma SwitchesSafely(s: State, c: nat)
    requires Reachable(s) && IsCpu(s, c) && s.run[c] == Thread && IsProc(s, s.cproc[c])
             && SwtchPos(s.pc[s.cproc[c]].pos)
    ensures s.plock[s.cproc[c]] == c && s.state[s.cproc[c]] != Running
    ensures forall q :: IsProc(s, q) && s.plock[q] == c ==> q == s.cproc[c]
    ensures forall l :: IsLock(s, l) ==> s.lk[l] != c
    ensures s.wlock != c
  {
    ReachableInv(s);
    Here(s, c);
    SwtchDest(s, c, s.cproc[c], false);
  }

  /**
   A zombie never runs again: it stays one until its parent's wait() frees it, and
   that happens when no CPU is on its stack any more.
   */
  lemma ZombieEnds(s: State, step: Step, k: nat)
    requires Reachable(s) && Enabled(s, step) && IsProc(s, k) && s.state[k] == Zombie
             && Apply(s, step).state[k] != Zombie
    ensures step.Go? && s.pc[s.cproc[step.c]].pos == WaitFree(k) && s.parent[k] == s.cproc[step.c]
    ensures Apply(s, step).state[k] == Unused && s.pc[k].pos == Dead
    ensures forall c :: IsCpu(s, c) ==> s.cproc[c] != k && s.run[c] != Back(k)
  {
    ReachableInv(s);
    var c := step.c;
    if SchedStep(step) {
      SchedScheduled(s, step);
    } else if step.Go? {
      GoIsStep(s, c, step.choice);
      FreedIsOff(s, c, k);
      FreeWrites(s, c, s.cproc[c], k, step.choice);
    }
  }

  lemma FreeWrites(s: State, c: nat, p: nat, k: nat, choice: bool)
    requires Shape(s) && IsCpu(s, c) && IsProc(s, p) && IsProc(s, k) && s.pc[p].pos == WaitFree(k)
    ensures Write(s, c, p, choice).state[k] == Unused
  {}

  lemma FreedIsOff(s: State, c: nat, k: nat)
    requires Inv(s) && Executing(s, c) && s.pc[s.cproc[c]].pos == WaitFree(k)
    ensures IsProc(s, k) && s.state[k] == Zombie && s.parent[k] == s.cproc[c] && s.pc[k].pos == Dead
    ensures forall d :: IsCpu(s, d) ==> s.cproc[d] != k && s.run[d] != Back(k)
  {
    Here(s, c);
    HolderFact(s, c);
    OffCpu(s, c, s.cproc[c], k);
    forall d | IsCpu(s, d)
      ensures s.cproc[d] != k && s.run[d] != Back(k)
    {
      assert CpuOk(s, d);
    }
  }
}
