/** No wakeup is lost: the argument for sleep-locks and for wait() and exit(). */
module ProcWakeups {
  import opened Proc
  import opened ProcSafety

  /** p has decided to sleep for reason w, or sleeps for it, and has not been woken. */
  predicate Doomed(s: State, p: int, w: Reason)
    requires Shape(s)
  {
    IsProc(s, p) &&
    var pos := s.pc[p].pos;
    || pos == SleepChan(w) || pos == SleepState(w)
    || ((pos == SleepSwtch(w) || pos == SleepClear(w)) && s.state[p] == Sleeping)
  }

  // ----- what a step can change -----

  /** The parent that process k may have after a step of p's thread. */
  predicate NewParent(s: State, p: nat, k: nat, parent: int)
    requires Shape(s) && IsProc(s, p) && IsProc(s, k)
  {
    || parent == s.parent[k]
    || (parent == -1 && s.pc[p].pos == WaitFree(k))
    || (parent == s.init && s.pc[p].pos == ExitReparent(k) && s.parent[k] == p)
    || (parent == p && s.pc[p].pos == ForkParent(k))
  }

  /** Facts about what a thread step writes. */
  ghost predicate Effects(s: State, s1: State, p: nat)
    requires Shape(s) && IsProc(s, p)
  {
    var pos := s.pc[p].pos;
    && Shape(s1) && |s1.state| == |s.state| && |s1.lk| == |s.lk| && s1.init == s.init
    && s1.lk == s.lk && s1.wlock == s.wlock && s1.cproc == s.cproc
    && (forall q :: IsProc(s, q) ==>
         s1.pc[q] == s.pc[q] || (s.state[q] == Unused && s1.pc[q].pos == NewRel && pos == ForkInit(q)))
    && (forall q :: IsProc(s, q) && s1.state[q] == Sleeping ==> s.state[q] == Sleeping || (q == p && pos.SleepState?))
    && (forall q :: IsProc(s, q) && s1.state[q] == Zombie ==> s.state[q] == Zombie || (q == p && pos.ExitZombie?))
    && (forall q :: IsProc(s, q) && s.state[q] == Zombie ==> s1.state[q] == Zombie || pos == WaitFree(q))
    && (forall k :: IsProc(s, k) ==> NewParent(s, p, k, s1.parent[k]))
    && (forall l :: IsLock(s, l) && s1.locked[l] != s.locked[l] ==>
         pos == if s1.locked[l] then AcqSet(l) else RelClear(l))
  }

  /** Positions from which a step writes the thread's own state, and another process's. */
  predicate WritesOwn(pos: Pos) { pos.YieldSet? || pos.SleepState? || pos.ExitZombie? }
  predicate WritesOther(pos: Pos) {
    pos.Wake? || pos.WaitFree? || pos.ForkInit? || pos.ForkRel? || pos.ForkRun? || pos.KillMark?
  }

  lemma OwnEffects(s: State, c: nat, p: nat, choice: bool)
    requires Shape(s) && IsCpu(s, c) && IsProc(s, p) && WritesOwn(s.pc[p].pos) && s.state[p] == Running
    ensures Effects(s, Write(s, c, p, choice), p)
  {}

  lemma OtherEffects(s: State, c: nat, p: nat, choice: bool)
    requires Shape(s) && IsCpu(s, c) && IsProc(s, p) && WritesOther(s.pc[p].pos)
    requires (s.pc[p].pos.ForkRel? || s.pc[p].pos.ForkRun?) && IsProc(s, s.pc[p].pos.np) ==>
               s.state[s.pc[p].pos.np] == Used
    ensures Effects(s, Write(s, c, p, choice), p)
  {}

  lemma PlainEffects(s: State, c: nat, p: nat, choice: bool)
    requires Shape(s) && IsCpu(s, c) && IsProc(s, p) && !WritesOwn(s.pc[p].pos) && !WritesOther(s.pc[p].pos)
    ensures Effects(s, Write(s, c, p, choice), p)
  {}

  lemma GoEffects(s: State, c: nat, choice: bool)
    requires Base(s) && Enabled(s, Go(c, choice))
    ensures Effects(s, Write(s, c, s.cproc[c], choice), s.cproc[c])
  {
    Here(s, c);
    var p := s.cproc[c];
    if WritesOwn(s.pc[p].pos) {
      OwnEffects(s, c, p, choice);
    } else if WritesOther(s.pc[p].pos) {
      if s.pc[p].pos.ForkRel? || s.pc[p].pos.ForkRun? { ForkHere(s, c, p, s.pc[p].pos.np); }
      OtherEffects(s, c, p, choice);
    } else {
      PlainEffects(s, c, p, choice);
    }
  }

  /** A thread step dooms no process but its own, and that only as it drops the lock in sleep(). */
  lemma DoomedBefore(s: State, s1: State, c: nat, p: nat, pc': Pc, q: nat, w: Reason)
    requires Shape(s) && IsProc(s, p) && IsProc(s, q) && Effects(s, s1, p)
    requires pc'.pos == SleepChan(w) ==> s.pc[p].pos == SleepDrop(w)
    requires pc'.pos == SleepState(w) ==> s.pc[p].pos == SleepChan(w)
    requires pc'.pos == SleepSwtch(w) ==> s.pc[p].pos == SleepState(w)
    requires pc'.pos == SleepClear(w) ==> s.pc[p].pos == SleepSwtch(w)
    requires Doomed(Move(s1, c, p, pc'), q, w)
    ensures Doomed(s, q, w) || (q == p && s.pc[p].pos == SleepDrop(w))
  {
    assert IsProc(s, q);
  }

  lemma SleepDest(s: State, p: nat, choice: bool, w: Reason)
    requires Shape(s) && IsProc(s, p) && PlacedAt(p, s.pc[p])
    ensures var pos := Dest(s, p, choice);
            && (pos == SleepChan(w) ==> s.pc[p].pos == SleepDrop(w))
            && (pos == SleepState(w) ==> s.pc[p].pos == SleepChan(w))
            && (pos == SleepSwtch(w) ==> s.pc[p].pos == SleepState(w))
            && (pos == SleepClear(w) ==> s.pc[p].pos == SleepSwtch(w))
  {}

  // ----- sleep-locks -----

  /** The holder of l's spinlock is in releasesleep()'s wakeup and has not passed p yet. */
  predicate LockWaker(s: State, l: nat, p: int)
    requires Shape(s) && IsLock(s, l)
  {
    && Executing(s, s.lk[l])
    && var pos := s.pc[s.cproc[s.lk[l]]].pos;
       pos.Wake? && pos.next == ToRelease(l) && pos.ch == OnLock(l) && pos.i <= p
  }

  /** Whoever will sleep on l or sleeps on it will be woken: l is held, or its release is under way. */
  ghost predicate LockSleep(s: State)
    requires Shape(s)
  {
    forall p, l :: IsProc(s, p) && IsLock(s, l) && Doomed(s, p, ForLock(l)) ==> s.locked[l] || LockWaker(s, l, p)
  }

  /** CPU c is executing some thread. */
  predicate Executing(s: State, c: int)
    requires Shape(s)
  {
    IsCpu(s, c) && s.run[c] == Thread && IsProc(s, s.cproc[c])
  }

  /** Between acquiresleep()'s test and dropping the spinlock, the lock stays held. */
  ghost predicate Tested(s: State)
    requires Shape(s)
  {
    forall l :: IsLock(s, l) && Executing(s, s.lk[l]) ==>
      var pos := s.pc[s.cproc[s.lk[l]]].pos;
      pos == SleepAcq(ForLock(l)) || pos == SleepDrop(ForLock(l)) ==> s.locked[l]
  }

  /** The waker meets every doomed process: one it holds the lock of is asleep on its channel. */
  lemma MeetsSleeper(s: State, c: nat, p: nat, i: nat, w: Reason)
    requires Base(s) && Executes(s, c, p) && i < |s.state| && i != p && s.plock[i] == c && Doomed(s, i, w)
    ensures s.state[i] == Sleeping && s.chan[i] == ChanOf(w, i) && s.on[i] == -1
  {
    assert ProcOk(s, i) && PlacedAt(i, s.pc[i]) && CpuOk(s, c);
    if s.state[i] != Running { OffCpu(s, c, p, i); }
  }

  /** One step of wakeup() does not pass a process that sleeps on its channel. */
  lemma WakeAdvances(s: State, p: nat, choice: bool, q: nat)
    requires Shape(s) && IsProc(s, p) && IsProc(s, q) && q != p && s.pc[p].pos.Wake? && s.pc[p].pos.i <= q
    requires s.pc[p].pos.held && s.pc[p].pos.i == q ==> s.state[q] == Sleeping && s.chan[q] == s.pc[p].pos.ch
    ensures var pos, pos' := s.pc[p].pos, Dest(s, p, choice);
            pos'.Wake? && pos'.next == pos.next && pos'.ch == pos.ch && pos'.i <= q
  {}

  /** A doomed process after a step was doomed before it, or has just dropped its lock to sleep. */
  lemma GoDooms(s: State, c: nat, choice: bool, q: nat, w: Reason)
    requires Base(s) && Enabled(s, Go(c, choice)) && IsProc(s, q) && Doomed(Apply(s, Go(c, choice)), q, w)
    ensures Doomed(s, q, w) || (q == s.cproc[c] && s.pc[q].pos == SleepDrop(w))
  {
    var p := s.cproc[c];
    assert PlacedAt(p, s.pc[p]);
    GoEffects(s, c, choice);
    SleepDest(s, p, choice, w);
    DoomedBefore(s, Write(s, c, p, choice), c, p, At(p, Dest(s, p, choice)), q, w);
  }

  /** The holder of a lock before and after a step of CPU c. */
  predicate Passed(c: int, holder: int, holder': int) {
    holder' == holder || ((holder == c || holder == -1) && (holder' == c || holder' == -1))
  }

  /** What the wakeup argument needs to know of a step of p's thread on CPU c. */
  ghost predicate ThreadStep(s: State, s': State, c: nat, p: nat)
    requires Shape(s)
  {
    && Executes(s, c, p) && Shape(s')
    && |s'.state| == |s.state| && |s'.lk| == |s.lk| && s'.init == s.init && s'.cproc == s.cproc && s'.on == s.on
    && (forall d :: IsCpu(s, d) && d != c ==> s'.run[d] == s.run[d])
    && (s'.run[c] == Thread || SwtchPos(s.pc[p].pos))
    && (forall l :: IsLock(s, l) ==> Passed(c, s.lk[l], s'.lk[l]))
    && Passed(c, s.wlock, s'.wlock)
    && var pos := s.pc[p].pos;
    && (forall q :: IsProc(s, q) && q != p ==> s'.pc[q] == s.pc[q] || s.state[q] == Unused)
    && (forall q :: IsProc(s, q) && s'.state[q] == Zombie ==> s.state[q] == Zombie || (q == p && pos.ExitZombie?))
    && (forall q :: IsProc(s, q) && s.state[q] == Zombie ==> s'.state[q] == Zombie || pos == WaitFree(q))
    && (forall k :: IsProc(s, k) ==> NewParent(s, p, k, s'.parent[k]))
    && (forall l :: IsLock(s, l) && s'.locked[l] != s.locked[l] ==>
         pos == if s'.locked[l] then AcqSet(l) else RelClear(l))
    && (forall q, w :: IsProc(s, q) && Doomed(s', q, w) ==> Doomed(s, q, w) || (q == p && pos == SleepDrop(w)))
  }

  lemma MoveIsStep(s: State, s1: State, c: nat, p: nat, pc': Pc)
    requires Shape(s) && Executes(s, c, p) && Effects(s, s1, p) && Available(s, p, pc')
    requires s1.on == s.on && (s1.run == s.run || (SwtchPos(s.pc[p].pos) && s1.run == s.run[c := Back(p)]))
    requires s.pc[p].ilk == -1 || (IsLock(s, s.pc[p].ilk) && s.lk[s.pc[p].ilk] == c)
    requires s.pc[p].wlk ==> s.wlock == c
    requires !s.pc[p].pos.ForkInit? || s.pc[p].pos != ForkInit(p) || s.state[p] != Unused
    requires forall q, w :: IsProc(s, q) && Doomed(Move(s1, c, p, pc'), q, w) ==>
               Doomed(s, q, w) || (q == p && s.pc[p].pos == SleepDrop(w))
    ensures ThreadStep(s, Move(s1, c, p, pc'), c, p)
  {
    assert s1.pc[p] == s.pc[p];
  }

  lemma GoIsStep(s: State, c: nat, choice: bool)
    requires Base(s) && Enabled(s, Go(c, choice))
    ensures ThreadStep(s, Apply(s, Go(c, choice)), c, s.cproc[c])
  {
    var p := s.cproc[c];
    Here(s, c);
    GoEffects(s, c, choice);
    forall q, w | IsProc(s, q) && Doomed(Apply(s, Go(c, choice)), q, w)
      ensures Doomed(s, q, w) || (q == p && s.pc[p].pos == SleepDrop(w))
    {
      GoDooms(s, c, choice, q, w);
    }
    WriteRuns(s, c, p, choice);
    MoveIsStep(s, Write(s, c, p, choice), c, p, At(p, Dest(s, p, choice)));
  }

  lemma WriteRuns(s: State, c: nat, p: nat, choice: bool)
    requires Shape(s) && IsCpu(s, c) && IsProc(s, p) && s.run[c] == Thread
    ensures var s1 := Write(s, c, p, choice);
            s1.on == s.on && (s1.run == s.run || (SwtchPos(s.pc[p].pos) && s1.run == s.run[c := Back(p)]))
  {}

  /** From s to s', a wakeup by p goes on as long as it has not passed every process it is to wake. */
  ghost predicate Advances(s: State, s': State, p: nat)
    requires Shape(s) && Shape(s') && IsProc(s, p) && IsProc(s', p)
  {
    var pos, pos' := s.pc[p].pos, s'.pc[p].pos;
    && (forall l :: pos == RelClear(l) ==> pos' == Wake(OnLock(l), 0, false, ToRelease(l)))
    && (forall k :: IsProc(s, k) && pos == ExitReparent(k) && s.parent[k] == p ==>
         pos' == Wake(OnProc(s.init), 0, false, ToReparent(k)))
    && (pos.Wake? ==>
         forall q, w :: IsProc(s, q) && q != p && pos.i <= q && pos.ch == ChanOf(w, q) && Doomed(s, q, w) ==>
          pos'.Wake? && pos'.next == pos.next && pos'.ch == pos.ch && pos'.i <= q)
  }

  lemma GoAdvances(s: State, c: nat, choice: bool)
    requires Base(s) && Enabled(s, Go(c, choice)) && Shape(Apply(s, Go(c, choice)))
             && IsProc(Apply(s, Go(c, choice)), s.cproc[c])
    ensures Advances(s, Apply(s, Go(c, choice)), s.cproc[c])
  {
    var p, s' := s.cproc[c], Apply(s, Go(c, choice));
    var pos := s.pc[p].pos;
    assert s'.pc[p].pos == Dest(s, p, choice);
    if pos.Wake? {
      forall q, w | IsProc(s, q) && q != p && pos.i <= q && pos.ch == ChanOf(w, q) && Doomed(s, q, w)
        ensures s'.pc[p].pos.Wake? && s'.pc[p].pos.next == pos.next && s'.pc[p].pos.ch == pos.ch && s'.pc[p].pos.i <= q
      {
        if pos.held && pos.i == q { Here(s, c); MeetsSleeper(s, c, p, q, w); }
        WakeAdvances(s, p, choice, q);
      }
    }
  }

  /** The thread executed by CPU d is not that of another CPU, and is in use. */
  lemma OthersStay(s: State, s': State, c: nat, p: nat, d: nat)
    requires Base(s) && ThreadStep(s, s', c, p) && IsCpu(s, d) && d != c && s.run[d] == Thread
    ensures Executing(s, d) && Executing(s', d) && s.cproc[d] != p && s'.run[d] == Thread && s'.cproc[d] == s.cproc[d]
    ensures s'.pc[s.cproc[d]] == s.pc[s.cproc[d]]
  {
    assert CpuOk(s, d) && CpuOk(s, c) && ProcOk(s, s.cproc[d]);
  }

  /** A thread that is in the wakeup of releasesleep(l), not having passed q. */
  lemma WakerIs(s: State, c: nat, l: nat, q: int)
    requires Base(s) && IsCpu(s, c) && s.run[c] == Thread && IsProc(s, s.cproc[c]) && IsLock(s, l)
    requires var pos := s.pc[s.cproc[c]].pos; pos.Wake? && pos.next == ToRelease(l) && pos.ch == OnLock(l) && pos.i <= q
    ensures LockWaker(s, l, q)
  {
    Here(s, c);
  }

  lemma WakerStays(s: State, s': State, c: nat, p: nat, q: nat, l: nat)
    requires Base(s) && Base(s') && ThreadStep(s, s', c, p) && Advances(s, s', p)
    requires IsProc(s, q) && IsLock(s, l) && LockWaker(s, l, q) && Doomed(s, q, ForLock(l)) && Doomed(s', q, ForLock(l))
    ensures LockWaker(s', l, q)
  {
    var d := s.lk[l];
    if d != c {
      OthersStay(s, s', c, p, d);
    } else {
      WakerIs(s', c, l, q);
    }
  }

  lemma LockSleepOne(s: State, s': State, c: nat, p: nat, q: nat, l: nat)
    requires Base(s) && Base(s') && LockSleep(s) && ThreadStep(s, s', c, p) && Advances(s, s', p)
    requires s.pc[p].pos == SleepDrop(ForLock(l)) ==> s.locked[l]
    requires IsProc(s, q) && IsLock(s, l) && Doomed(s', q, ForLock(l))
    ensures s'.locked[l] || LockWaker(s', l, q)
  {
    if s.pc[p].pos == RelClear(l) {
      WakerIs(s', c, l, q);
    } else if !s.locked[l] {
      WakerStays(s, s', c, p, q, l);
    }
  }

  /** Only the holder of l's spinlock clears or sets its flag. */
  lemma KeepsFlag(s: State, s': State, c: nat, p: nat, l: nat)
    requires Base(s) && ThreadStep(s, s', c, p) && IsLock(s, l) && s.lk[l] != c
    ensures s'.locked[l] == s.locked[l]
  {
    Here(s, c);
  }

  lemma TestedOne(s: State, s': State, c: nat, p: nat, l: nat)
    requires Base(s) && Base(s') && Tested(s) && ThreadStep(s, s', c, p) && IsLock(s, l) && Executing(s', s'.lk[l])
    requires s'.pc[p].pos == SleepAcq(ForLock(l)) ==> s.pc[p].pos == AcqTest(l) && s.locked[l]
    requires s'.pc[p].pos == SleepDrop(ForLock(l)) ==> s.pc[p].pos == SleepAcq(ForLock(l))
    requires var pos := s'.pc[s'.cproc[s'.lk[l]]].pos; pos == SleepAcq(ForLock(l)) || pos == SleepDrop(ForLock(l))
    ensures s'.locked[l]
  {
    if s'.lk[l] == c {
      Here(s, c);
    } else {
      OthersStay(s, s', c, p, s'.lk[l]);
      KeepsFlag(s, s', c, p, l);
    }
  }

  // ----- the other steps -----

  /** From and to where a call begins. */
  lemma EntryKind(s: State, p: nat, call: Call)
    requires Shape(s) && IsProc(s, p) && MayCall(s, p, call)
    ensures Preemptible(s.pc[p].pos)
    ensures var pos := Entry(s, p, call);
            !pos.SleepAcq? && !pos.SleepDrop? && !pos.SleepChan? && !pos.SleepState? && !pos.SleepSwtch?
                && !pos.SleepClear?
  {}

  lemma BeginMoves(s: State, c: nat, p: nat, pc': Pc)
    requires Shape(s) && Executes(s, c, p) && Available(s, p, pc') && Preemptible(s.pc[p].pos)
    requires s.pc[p].ilk == -1 && !s.pc[p].wlk
    requires var pos := pc'.pos; !pos.SleepChan? && !pos.SleepState? && !pos.SleepSwtch? && !pos.SleepClear?
    ensures ThreadStep(s, Move(s, c, p, pc'), c, p) && Advances(s, Move(s, c, p, pc'), p)
  {
    forall q, w | IsProc(s, q) && Doomed(Move(s, c, p, pc'), q, w)
      ensures Doomed(s, q, w)
    {
      DoomedBefore(s, s, c, p, pc', q, w);
    }
    MoveIsStep(s, s, c, p, pc');
  }

  lemma BeginIsStep(s: State, c: nat, call: Call)
    requires Base(s) && Enabled(s, Begin(c, call))
    ensures ThreadStep(s, Apply(s, Begin(c, call)), c, s.cproc[c])
    ensures Advances(s, Apply(s, Begin(c, call)), s.cproc[c])
  {
    Here(s, c);
    EntryKind(s, s.cproc[c], call);
    BeginMoves(s, c, s.cproc[c], At(s.cproc[c], Entry(s, s.cproc[c], call)));
  }

  /** What the wakeup argument needs to know of a step of the scheduler. */
  ghost predicate Scheduled(s: State, s': State)
    requires Shape(s)
  {
    && Shape(s') && |s'.state| == |s.state| && |s'.cproc| == |s.cproc|
    && s'.pc == s.pc && s'.parent == s.parent && s'.locked == s.locked && s'.lk == s.lk && s'.wlock == s.wlock
       && s'.init == s.init
    && (forall q :: IsProc(s, q) ==> s'.state[q] == s.state[q] || (s.state[q] == Runnable && s'.state[q] == Running))
    && (forall d :: Executing(s, d) ==> Executing(s', d) && s'.cproc[d] == s.cproc[d])
    && (forall d :: Executing(s', d) ==> Executing(s, d) || (s.pc[s'.cproc[d]].ilk == -1 && !s.pc[s'.cproc[d]].wlk))
  }

  lemma SchedScheduled(s: State, step: Step)
    requires Base(s) && Enabled(s, step) && SchedStep(step)
    ensures Scheduled(s, Apply(s, step))
  {
    if s.run[step.c].Given? { EnteredHolds(s, step.c); }
    assert s.run[step.c].Given? ==> s.cproc[step.c] == s.run[step.c].p by { assert CpuOk(s, step.c); }
    SchedWrites(s, step);
  }

  lemma SchedWrites(s: State, step: Step)
    requires Enabled(s, step) && SchedStep(step)
    requires var r := s.run[step.c]; r.Given? ==>
               s.cproc[step.c] == r.p && IsProc(s, r.p) && s.pc[r.p].ilk == -1 && !s.pc[r.p].wlk
    ensures Scheduled(s, Apply(s, step))
  {}

  lemma SchedLockSleep(s: State, s': State)
    requires Shape(s) && LockSleep(s) && Scheduled(s, s')
    ensures LockSleep(s')
  {
    forall p, l | IsProc(s', p) && IsLock(s', l) && Doomed(s', p, ForLock(l))
      ensures s'.locked[l] || LockWaker(s', l, p)
    {
      assert IsProc(s, p) && IsLock(s, l) && Doomed(s, p, ForLock(l));
    }
  }

  lemma SchedTested(s: State, s': State)
    requires Base(s) && Base(s') && Tested(s) && Scheduled(s, s')
    ensures Tested(s')
  {
    forall l | IsLock(s', l) && Executing(s', s'.lk[l])
      ensures Executing(s, s.lk[l]) && s'.cproc[s'.lk[l]] == s.cproc[s.lk[l]]
    {
      assert IsLock(s, l) && CpuOk(s', s'.lk[l]);
    }
  }

  lemma StepLockSleep(s: State, s': State, c: nat, p: nat)
    requires Base(s) && Base(s') && LockSleep(s) && Tested(s) && ThreadStep(s, s', c, p) && Advances(s, s', p)
    ensures LockSleep(s')
  {
    forall q, l | IsProc(s', q) && IsLock(s', l) && Doomed(s', q, ForLock(l))
      ensures s'.locked[l] || LockWaker(s', l, q)
    {
      if s.pc[p].pos == SleepDrop(ForLock(l)) { DropsHeld(s, c, p, l); }
      LockSleepOne(s, s', c, p, q, l);
    }
  }

  lemma DropsHeld(s: State, c: nat, p: nat, l: nat)
    requires Base(s) && Tested(s) && Executes(s, c, p) && s.pc[p].pos == SleepDrop(ForLock(l)) && IsLock(s, l)
    ensures s.locked[l]
  {
    Here(s, c);
    assert IsLock(s, l);
  }

  lemma SleepFrom(s: State, p: nat, choice: bool, l: nat)
    requires Shape(s) && IsProc(s, p) && PlacedAt(p, s.pc[p]) && IsLock(s, l)
    ensures Dest(s, p, choice) == SleepAcq(ForLock(l)) ==> s.pc[p].pos == AcqTest(l) && s.locked[l]
    ensures Dest(s, p, choice) == SleepDrop(ForLock(l)) ==> s.pc[p].pos == SleepAcq(ForLock(l))
  {}

  lemma StepTested(s: State, s': State, c: nat, p: nat)
    requires Base(s) && Base(s') && Tested(s) && ThreadStep(s, s', c, p)
    requires forall l :: IsLock(s, l) && s'.pc[p].pos == SleepAcq(ForLock(l)) ==>
               s.pc[p].pos == AcqTest(l) && s.locked[l]
    requires forall l :: IsLock(s, l) && s'.pc[p].pos == SleepDrop(ForLock(l)) ==> s.pc[p].pos == SleepAcq(ForLock(l))
    ensures Tested(s')
  {
    forall l | IsLock(s', l) && Executing(s', s'.lk[l]) &&
        (s'.pc[s'.cproc[s'.lk[l]]].pos == SleepAcq(ForLock(l))
            || s'.pc[s'.cproc[s'.lk[l]]].pos == SleepDrop(ForLock(l)))
      ensures s'.locked[l]
    {
      TestedOne(s, s', c, p, l);
    }
  }
}
