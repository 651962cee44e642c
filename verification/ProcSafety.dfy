/** What every run of the process machine keeps: locks, CPUs and process states. */
module ProcSafety {
  import opened Proc

  // ----- the invariant -----

  /** CPU c executes a thread only if it has a current process. */
  predicate RunsProc(s: State, c: nat)
    requires Shape(s) && IsCpu(s, c)
  {
    s.run[c] == Thread ==> IsProc(s, s.cproc[c])
  }

  // The process lock, sleep-lock spinlock and wait_lock that CPU c holds, judging by what it executes.

  function HeldProc(s: State, c: nat): int
    requires Shape(s) && IsCpu(s, c) && RunsProc(s, c)
  {
    if s.run[c] == Thread then s.pc[s.cproc[c]].plk else SchedLock(s.run[c])
  }

  function HeldInner(s: State, c: nat): int
    requires Shape(s) && IsCpu(s, c) && RunsProc(s, c)
  {
    if s.run[c] == Thread then s.pc[s.cproc[c]].ilk else -1
  }

  predicate HoldsWait(s: State, c: nat)
    requires Shape(s) && IsCpu(s, c) && RunsProc(s, c)
  {
    s.run[c] == Thread && s.pc[s.cproc[c]].wlk
  }

  /** What CPU c executes agrees with c->proc. */
  ghost predicate CpuOk(s: State, c: nat)
    requires Shape(s) && IsCpu(s, c)
  {
    && (s.cproc[c] == -1 || (IsProc(s, s.cproc[c]) && s.on[s.cproc[c]] == c))
    && match s.run[c]
       case Thread => s.cproc[c] >= 0
       case Scan => s.cproc[c] == -1
       case Locked(p) => s.cproc[c] == -1
       case Marked(p) => s.cproc[c] == -1 && IsProc(s, p) && s.state[p] == Running && s.on[p] == -1
       case Given(p) => s.cproc[c] == p
       case Back(p) => s.cproc[c] == p
       case Drop(p) => s.cproc[c] == -1
  }

  /** c->proc and the process it runs name each other, so no process is on two CPUs. */
  ghost predicate Cpus(s: State)
    requires Shape(s)
  {
    && (forall c :: IsCpu(s, c) ==> CpuOk(s, c))
    && (forall p :: IsProc(s, p) ==> s.on[p] == -1 || (IsCpu(s, s.on[p]) && s.cproc[s.on[p]] == p))
  }

  // Each spinlock is held by exactly the CPU whose position says so.

  ghost predicate ProcLocks(s: State)
    requires Shape(s) && Cpus(s)
  {
    && (forall c :: IsCpu(s, c) ==>
         CpuOk(s, c) && (HeldProc(s, c) == -1 || (IsProc(s, HeldProc(s, c)) && s.plock[HeldProc(s, c)] == c)))
    && (forall p :: IsProc(s, p) ==>
         s.plock[p] == -1 || (IsCpu(s, s.plock[p]) && CpuOk(s, s.plock[p]) && HeldProc(s, s.plock[p]) == p))
  }

  ghost predicate InnerLocks(s: State)
    requires Shape(s) && Cpus(s)
  {
    && (forall c :: IsCpu(s, c) ==>
         CpuOk(s, c) && (HeldInner(s, c) == -1 || (IsLock(s, HeldInner(s, c)) && s.lk[HeldInner(s, c)] == c)))
    && (forall l :: IsLock(s, l) ==>
         s.lk[l] == -1 || (IsCpu(s, s.lk[l]) && CpuOk(s, s.lk[l]) && HeldInner(s, s.lk[l]) == l))
  }

  ghost predicate WaitLock(s: State)
    requires Shape(s) && Cpus(s)
  {
    && (forall c :: IsCpu(s, c) ==> CpuOk(s, c) && (HoldsWait(s, c) ==> s.wlock == c))
    && (s.wlock == -1 || (IsCpu(s, s.wlock) && CpuOk(s, s.wlock) && HoldsWait(s, s.wlock)))
  }

  /** A thread holds the locks that go with its position, and yields only from where it holds none. */
  ghost predicate PlacedAt(p: nat, pc: Pc) {
    && pc == At(p, pc.pos)
    && (pc.pos.YieldSet? || pc.pos.YieldSwtch? || pc.pos.YieldRel? ==> Preemptible(pc.pos.back))
  }

  ghost predicate Placed(s: State)
    requires Shape(s)
  {
    forall p :: IsProc(s, p) ==> PlacedAt(p, s.pc[p])
  }

  /** Where a thread that is not running will go on. */
  predicate Resumes(pc: Pos) { pc.NewRel? || pc.YieldRel? || pc.SleepClear? }

  /** A thread that has given up the CPU: its state says why, and its position agrees. */
  ghost predicate Suspended(s: State, p: nat)
    requires Shape(s) && IsProc(s, p)
  {
    match s.state[p]
    case Unused => s.pc[p].pos.Dead? || s.pc[p].pos.NewRel? || s.pc[p].pos.Outside?
    case Used => s.pc[p].pos == NewRel
    case Sleeping => s.pc[p].pos.SleepClear? && s.chan[p] == ChanOf(s.pc[p].pos.w, p)
    case Runnable => Resumes(s.pc[p].pos)
    case Running => Resumes(s.pc[p].pos) && IsCpu(s, s.plock[p]) && s.run[s.plock[p]] == Marked(p)
    case Zombie => s.pc[p].pos == Dead
  }

  /** A thread being executed: RUNNING, except on its way into the scheduler. */
  ghost predicate Active(s: State, p: nat)
    requires Shape(s) && IsProc(s, p)
  {
    match s.pc[p].pos
    case YieldSwtch(_) => s.state[p] == Runnable
    case SleepSwtch(w) => s.state[p] == Sleeping && s.chan[p] == ChanOf(w, p)
    case SleepState(w) => s.state[p] == Running && s.chan[p] == ChanOf(w, p)
    case ExitDrop => s.state[p] == Zombie
    case ExitSwtch => s.state[p] == Zombie
    case Dead => false
    case _ => s.state[p] == Running
  }

  ghost predicate ProcOk(s: State, p: nat)
    requires Shape(s) && IsProc(s, p)
  {
    if s.on[p] == -1 then Suspended(s, p)
    else
      && IsCpu(s, s.on[p])
      && match s.run[s.on[p]]
         case Thread => Active(s, p)
         case Given(_) => s.state[p] == Running && Resumes(s.pc[p].pos)
         case Back(_) => s.state[p] in {Runnable, Sleeping, Zombie} && Suspended(s, p)
         case _ => false
  }

  ghost predicate Procs(s: State)
    requires Shape(s)
  {
    forall p :: IsProc(s, p) ==> ProcOk(s, p)
  }

  /** The slot a thread in fork() has claimed, or -1. */
  function Claimed(pc: Pos): int
    decreases pc
  {
    match pc
    case ForkRel(np) => np
    case ForkWait(np) => np
    case ForkParent(np) => np
    case ForkDrop(np) => np
    case ForkAcq(np) => np
    case ForkRun(np) => np
    case YieldSet(back) => Claimed(back)
    case YieldSwtch(back) => Claimed(back)
    case YieldRel(back) => Claimed(back)
    case _ => -1
  }

  predicate Live(s: State, p: nat)
    requires Shape(s) && IsProc(s, p)
  {
    s.state[p] == Runnable || s.state[p] == Running || s.state[p] == Sleeping
  }

  /** A slot claimed by fork() is USED and claimed by one thread. */
  ghost predicate Forks(s: State)
    requires Shape(s)
  {
    && (forall p :: IsProc(s, p) && Live(s, p) && Claimed(s.pc[p].pos) >= 0 ==>
          IsProc(s, Claimed(s.pc[p].pos)) && s.state[Claimed(s.pc[p].pos)] == Used)
    && (forall p, q ::
          (IsProc(s, p) && IsProc(s, q) && p != q && Live(s, p) && Live(s, q) && Claimed(s.pc[p].pos) >= 0) ==>
            Claimed(s.pc[p].pos) != Claimed(s.pc[q].pos))
  }

  ghost predicate Base(s: State) {
    Shape(s) && Cpus(s) && ProcLocks(s) && InnerLocks(s) && WaitLock(s) && Placed(s) && Procs(s) && Forks(s)
  }

  // ----- moves of one thread -----

  /**
   From s to s1, a step of CPU c wrote at most the state and channel of x, the
   parents and the sleep-lock flags.
   */
  ghost predicate Wrote(s: State, s1: State, c: nat, x: nat)
    requires Shape(s)
  {
    && Shape(s1) && IsProc(s, x) && |s1.state| == |s.state| && |s1.lk| == |s.lk|
    && s1 == s.(state := s1.state, chan := s1.chan, parent := s1.parent, locked := s1.locked)
    && (s1.state == s.state || (s1.state == s.state[x := s1.state[x]] && s.plock[x] == c))
    && (s1.chan == s.chan || s1.chan == s.chan[x := s1.chan[x]])
  }

  lemma MoveCpus(s: State, s1: State, c: nat, p: nat, x: nat, pc': Pc)
    requires Shape(s) && Cpus(s) && ProcLocks(s) && Executes(s, c, p) && Wrote(s, s1, c, x)
    ensures Shape(Move(s1, c, p, pc')) && Cpus(Move(s1, c, p, pc'))
  {
    var s' := Move(s1, c, p, pc');
    forall d | IsCpu(s', d)
      ensures CpuOk(s', d)
    {
      assert CpuOk(s, d) && CpuOk(s, c) && IsCpu(s, d);
    }
    forall q | IsProc(s', q)
      ensures s'.on[q] == -1 || (IsCpu(s', s'.on[q]) && s'.cproc[s'.on[q]] == q)
    {
      assert IsProc(s, q);
    }
  }

  lemma MoveProcLocks(s: State, s1: State, c: nat, p: nat, x: nat, pc': Pc)
    requires Shape(s) && Cpus(s) && ProcLocks(s) && Executes(s, c, p) && Wrote(s, s1, c, x) && Available(s, p, pc')
    requires Cpus(Move(s1, c, p, pc'))
    ensures ProcLocks(Move(s1, c, p, pc'))
  {
    var s' := Move(s1, c, p, pc');
    assert CpuOk(s, c);
    forall d | IsCpu(s', d)
      ensures CpuOk(s', d) && (HeldProc(s', d) == -1 || (IsProc(s', HeldProc(s', d)) && s'.plock[HeldProc(s', d)] == d))
    {
      assert IsCpu(s, d) && CpuOk(s, d) && CpuOk(s', d);
    }
    forall q | IsProc(s', q)
      ensures s'.plock[q] == -1 || (IsCpu(s', s'.plock[q]) && CpuOk(s', s'.plock[q]) && HeldProc(s', s'.plock[q]) == q)
    {
      assert IsProc(s, q);
    }
  }

  lemma MoveInnerLocks(s: State, s1: State, c: nat, p: nat, x: nat, pc': Pc)
    requires Shape(s) && Cpus(s) && InnerLocks(s) && Executes(s, c, p) && Wrote(s, s1, c, x) && Available(s, p, pc')
    requires Cpus(Move(s1, c, p, pc'))
    ensures InnerLocks(Move(s1, c, p, pc'))
  {
    var s' := Move(s1, c, p, pc');
    assert CpuOk(s, c);
    forall d | IsCpu(s', d)
      ensures CpuOk(s', d) && (HeldInner(s', d) == -1 || (IsLock(s', HeldInner(s', d)) && s'.lk[HeldInner(s', d)] == d))
    {
      assert IsCpu(s, d) && CpuOk(s, d) && CpuOk(s', d);
    }
    forall l | IsLock(s', l)
      ensures s'.lk[l] == -1 || (IsCpu(s', s'.lk[l]) && CpuOk(s', s'.lk[l]) && HeldInner(s', s'.lk[l]) == l)
    {
      assert IsLock(s, l);
    }
  }

  lemma MoveWaitLock(s: State, s1: State, c: nat, p: nat, x: nat, pc': Pc)
    requires Shape(s) && Cpus(s) && WaitLock(s) && Executes(s, c, p) && Wrote(s, s1, c, x) && Available(s, p, pc')
    requires Cpus(Move(s1, c, p, pc'))
    ensures WaitLock(Move(s1, c, p, pc'))
  {
    var s' := Move(s1, c, p, pc');
    assert CpuOk(s, c);
    forall d | IsCpu(s', d)
      ensures CpuOk(s', d) && (HoldsWait(s', d) ==> s'.wlock == d)
    {
      assert IsCpu(s, d) && CpuOk(s, d) && CpuOk(s', d);
    }
  }

  lemma MoveProcs(s: State, s1: State, c: nat, p: nat, x: nat, pc': Pc)
    requires Shape(s) && Cpus(s) && ProcLocks(s) && Procs(s) && Executes(s, c, p) && Wrote(s, s1, c, x)
             && Available(s, p, pc')
    requires Active(Move(s1, c, p, pc'), p) && (x != p ==> ProcOk(Move(s1, c, p, pc'), x))
    ensures Procs(Move(s1, c, p, pc'))
  {
    var s' := Move(s1, c, p, pc');
    assert CpuOk(s, c);
    forall q | IsProc(s', q)
      ensures ProcOk(s', q)
    {
      assert IsProc(s, q) && ProcOk(s, q);
    }
  }

  lemma MovePlaced(s: State, s1: State, c: nat, p: nat, x: nat, pos: Pos)
    requires Shape(s) && Placed(s) && Executes(s, c, p) && Wrote(s, s1, c, x) && PlacedAt(p, At(p, pos))
    ensures Placed(Move(s1, c, p, At(p, pos)))
  {
    var s' := Move(s1, c, p, At(p, pos));
    forall q | IsProc(s', q)
      ensures PlacedAt(q, s'.pc[q])
    {
      assert IsProc(s, q);
    }
  }

  /** A change of state that neither makes nor breaks a claim. */
  predicate Neutral(s: State, s1: State, x: nat)
    requires Shape(s) && Shape(s1) && IsProc(s, x) && IsProc(s1, x)
  {
    || s1.state[x] == s.state[x]
    || (s.state[x] != Used && s1.state[x] != Used && (Live(s1, x) ==> Live(s, x)))
  }

  lemma MoveForks(s: State, s1: State, c: nat, p: nat, x: nat, pc': Pc)
    requires Shape(s) && Cpus(s) && Procs(s) && Forks(s) && Executes(s, c, p) && Wrote(s, s1, c, x) && Neutral(s, s1, x)
    requires Claimed(pc'.pos) == -1 || (Claimed(pc'.pos) == Claimed(s.pc[p].pos) && Live(s, p))
    ensures Forks(Move(s1, c, p, pc'))
  {
    var s' := Move(s1, c, p, pc');
    forall q | IsProc(s', q) && Live(s', q) && Claimed(s'.pc[q].pos) >= 0
      ensures Live(s, q) && Claimed(s'.pc[q].pos) == Claimed(s.pc[q].pos)
      ensures IsProc(s', Claimed(s'.pc[q].pos)) && s'.state[Claimed(s'.pc[q].pos)] == Used
    {
      assert IsProc(s, q);
    }
  }

  /** A move with no effect on claims keeps everything. */
  lemma MoveKeeps(s: State, s1: State, c: nat, p: nat, x: nat, pos: Pos)
    requires Base(s) && Executes(s, c, p) && Wrote(s, s1, c, x) && Available(s, p, At(p, pos))
             && PlacedAt(p, At(p, pos))
    requires Active(Move(s1, c, p, At(p, pos)), p) && (x != p ==> ProcOk(Move(s1, c, p, At(p, pos)), x))
    requires Neutral(s, s1, x)
    requires Claimed(pos) == -1 || (Claimed(pos) == Claimed(s.pc[p].pos) && Live(s, p))
    ensures Base(Move(s1, c, p, At(p, pos)))
  {
    MoveCpus(s, s1, c, p, x, At(p, pos));
    MoveProcLocks(s, s1, c, p, x, At(p, pos));
    MoveInnerLocks(s, s1, c, p, x, At(p, pos));
    MoveWaitLock(s, s1, c, p, x, At(p, pos));
    MovePlaced(s, s1, c, p, x, pos);
    MoveProcs(s, s1, c, p, x, At(p, pos));
    MoveForks(s, s1, c, p, x, At(p, pos));
  }

  // ----- the steps of a thread -----

  /** What is known of the thread a CPU executes. */
  lemma Here(s: State, c: nat)
    requires Base(s) && IsCpu(s, c) && s.run[c] == Thread
    ensures var p := s.cproc[c];
            && Executes(s, c, p) && s.on[p] == c && Active(s, p) && PlacedAt(p, s.pc[p])
            && (s.pc[p].plk == -1 || (IsProc(s, s.pc[p].plk) && s.plock[s.pc[p].plk] == c))
            && (s.pc[p].ilk == -1 || (IsLock(s, s.pc[p].ilk) && s.lk[s.pc[p].ilk] == c))
            && (s.pc[p].wlk ==> s.wlock == c)
  {
    assert CpuOk(s, c);
    assert ProcOk(s, s.cproc[c]);
  }

  /** Positions of a RUNNING thread. */
  predicate Ordinary(pos: Pos) {
    !pos.YieldSwtch? && !pos.SleepSwtch? && !pos.SleepState? && !pos.ExitDrop? && !pos.ExitSwtch? && !pos.Dead?
  }

  /** A move that writes no state or channel. */
  lemma PlainKeeps(s: State, s1: State, c: nat, p: nat, pos: Pos)
    requires Base(s) && Executes(s, c, p) && Available(s, p, At(p, pos)) && PlacedAt(p, At(p, pos))
    requires s1 == s.(locked := s1.locked, parent := s1.parent) && |s1.locked| == |s.locked|
             && |s1.parent| == |s.parent|
    requires s.state[p] == Running && Ordinary(pos)
    requires Claimed(pos) == -1 || Claimed(pos) == Claimed(s.pc[p].pos)
    ensures Base(Move(s1, c, p, At(p, pos)))
  {
    MoveKeeps(s, s1, c, p, p, pos);
  }

  lemma BeginKeeps(s: State, c: nat, call: Call)
    requires Base(s) && Enabled(s, Begin(c, call))
    ensures Base(Apply(s, Begin(c, call)))
  {
    Here(s, c);
    PlainKeeps(s, s, c, s.cproc[c], Entry(s, s.cproc[c], call));
  }

  /** Positions from which a step writes no state and no channel, and the thread stays RUNNING. */
  predicate PlainPos(pos: Pos) {
    || pos.NewRel? || pos.YieldRel? || pos.AcqTest? || pos.AcqSet? || pos.AcqRel? || pos.RelClear? || pos.RelDrop?
    || pos.SleepAcq? || pos.SleepDrop? || pos.SleepRel? || pos.SleepBack?
    || pos.WaitScan? || pos.WaitCheck? || pos.WaitDone? || pos.WaitNext? || pos.WaitQuit?
    || pos.ExitReparent? || pos.ExitAcq?
    || pos.ForkWait? || pos.ForkParent? || pos.ForkDrop? || pos.ForkAcq? || pos.ForkEnd? || pos.KillRel?
  }

  lemma PlainDest(s: State, c: nat, p: nat, choice: bool)
    requires Shape(s) && IsProc(s, p) && IsCpu(s, c) && PlainPos(s.pc[p].pos) && PlacedAt(p, s.pc[p])
    ensures var pos := Dest(s, p, choice);
            && Ordinary(pos) && PlacedAt(p, At(p, pos)) && (Claimed(pos) == -1 || Claimed(pos) == Claimed(s.pc[p].pos))
    ensures var s1 := Write(s, c, p, choice);
            s1 == s.(locked := s1.locked, parent := s1.parent) && |s1.locked| == |s.locked| && |s1.parent| == |s.parent|
  {}

  lemma GoPlain(s: State, c: nat, choice: bool)
    requires Base(s) && Enabled(s, Go(c, choice)) && PlainPos(s.pc[s.cproc[c]].pos)
    ensures Base(Apply(s, Go(c, choice)))
  {
    Here(s, c);
    var p := s.cproc[c];
    PlainDest(s, c, p, choice);
    PlainKeeps(s, Write(s, c, p, choice), c, p, Dest(s, p, choice));
  }

  /** Positions from which a thread writes its own state or channel, or has done so. */
  predicate OwnPos(pos: Pos) {
    pos.YieldSet? || pos.SleepChan? || pos.SleepState? || pos.SleepClear? || pos.ExitZombie? || pos.ExitDrop?
  }

  /** What such a step writes, and where it leads. */
  lemma OwnWrites(s: State, c: nat, p: nat, choice: bool)
    requires Shape(s) && IsCpu(s, c) && IsProc(s, p) && OwnPos(s.pc[p].pos) && PlacedAt(p, s.pc[p]) && Active(s, p)
             && s.plock[p] == c
    ensures var s1, pos := Write(s, c, p, choice), Dest(s, p, choice);
            && Wrote(s, s1, c, p) && Neutral(s, s1, p) && PlacedAt(p, At(p, pos))
            && (Claimed(pos) == -1 || (Claimed(pos) == Claimed(s.pc[p].pos) && Live(s, p)))
            && Active(Move(s1, c, p, At(p, pos)), p)
  {}

  lemma GoOwn(s: State, c: nat, choice: bool)
    requires Base(s) && Enabled(s, Go(c, choice)) && OwnPos(s.pc[s.cproc[c]].pos)
    ensures Base(Apply(s, Go(c, choice)))
  {
    Here(s, c);
    OwnWrites(s, c, s.cproc[c], choice);
    MoveKeeps(s, Write(s, c, s.cproc[c], choice), c, s.cproc[c], s.cproc[c], Dest(s, s.cproc[c], choice));
  }

  /** A process that is not RUNNING, locked by another thread, is on no CPU: it has left its stack. */
  lemma OffCpu(s: State, c: nat, p: nat, x: nat)
    requires Base(s) && Executes(s, c, p) && IsProc(s, x) && x != p && s.plock[x] == c && s.state[x] != Running
    ensures s.on[x] == -1 && Suspended(s, x) && s.pc[p].plk == x
  {
    assert CpuOk(s, c) && ProcOk(s, x) && PlacedAt(x, s.pc[x]);
  }

  /** Making a sleeping process runnable, or freeing a zombie, while holding its lock. */
  lemma ChangeKeeps(s: State, s1: State, c: nat, p: nat, x: nat, pos: Pos)
    requires Base(s) && Executes(s, c, p) && IsProc(s, x) && s.plock[x] == c && s.state[p] == Running
    requires (s.state[x] == Sleeping && s1 == s.(state := s.state[x := Runnable]))
             || (s.state[x] == Zombie && |s1.parent| == |s.parent|
                 && s1 == s.(state := s.state[x := Unused], chan := s.chan[x := NoChan], parent := s1.parent))
    requires Available(s, p, At(p, pos)) && PlacedAt(p, At(p, pos)) && At(p, pos).plk == x && Ordinary(pos)
             && Claimed(pos) == -1
    ensures Base(Move(s1, c, p, At(p, pos)))
  {
    OffCpu(s, c, p, x);
    MoveKeeps(s, s1, c, p, x, pos);
  }

  lemma GoWakeHeld(s: State, c: nat, choice: bool)
    requires Base(s) && Enabled(s, Go(c, choice)) && s.pc[s.cproc[c]].pos.Wake? && s.pc[s.cproc[c]].pos.held
    ensures Base(Apply(s, Go(c, choice)))
  {
    Here(s, c);
    var p := s.cproc[c];
    var x := s.pc[p].pos.i;
    if s.state[x] == Sleeping && s.chan[x] == s.pc[p].pos.ch {
      ChangeKeeps(s, Write(s, c, p, choice), c, p, x, Dest(s, p, choice));
    } else {
      PlainKeeps(s, Write(s, c, p, choice), c, p, Dest(s, p, choice));
    }
  }

  lemma KillWrites(s: State, c: nat, p: nat, i: nat, choice: bool)
    requires Shape(s) && IsCpu(s, c) && IsProc(s, p) && IsProc(s, i) && s.pc[p].pos == KillMark(i)
    ensures Dest(s, p, choice) == KillRel(i)
    ensures Write(s, c, p, choice) == if s.state[i] == Sleeping then s.(state := s.state[i := Runnable]) else s
  {}

  lemma GoKill(s: State, c: nat, choice: bool)
    requires Base(s) && Enabled(s, Go(c, choice)) && s.pc[s.cproc[c]].pos.KillMark?
    ensures Base(Apply(s, Go(c, choice)))
  {
    var p := s.cproc[c];
    var i := s.pc[p].pos.i;
    KillHere(s, c, p, i);
    KillWrites(s, c, p, i, choice);
    if s.state[i] == Sleeping {
      ChangeKeeps(s, Write(s, c, p, choice), c, p, i, Dest(s, p, choice));
    } else {
      PlainKeeps(s, Write(s, c, p, choice), c, p, Dest(s, p, choice));
    }
  }

  lemma KillHere(s: State, c: nat, p: nat, i: nat)
    requires Base(s) && Executes(s, c, p) && s.pc[p].pos == KillMark(i)
    ensures IsProc(s, i) && s.plock[i] == c && s.state[p] == Running && s.pc[p].plk == i
    ensures Available(s, p, At(p, KillRel(i)))
  {
    Here(s, c);
  }

  lemma GoFree(s: State, c: nat, choice: bool)
    requires Base(s) && Enabled(s, Go(c, choice)) && s.pc[s.cproc[c]].pos.WaitFree?
    requires s.pc[s.cproc[c]].pos.k < |s.state| && s.state[s.pc[s.cproc[c]].pos.k] == Zombie
    ensures Base(Apply(s, Go(c, choice)))
  {
    Here(s, c);
    var p := s.cproc[c];
    ChangeKeeps(s, Write(s, c, p, choice), c, p, s.pc[p].pos.k, Dest(s, p, choice));
  }

  lemma GoWakeNext(s: State, c: nat, choice: bool)
    requires Base(s) && Enabled(s, Go(c, choice)) && s.pc[s.cproc[c]].plk == -1
    requires s.pc[s.cproc[c]].pos.Wake?
    ensures Base(Apply(s, Go(c, choice)))
  {
    Here(s, c);
    var p := s.cproc[c];
    PlainKeeps(s, Write(s, c, p, choice), c, p, Dest(s, p, choice));
  }

  // ----- switching to the scheduler -----

  /** The thread of p, its lock held, leaves CPU c to the scheduler. */
  function Switched(s: State, c: nat, p: nat, pos: Pos): State
    requires Shape(s) && IsCpu(s, c) && IsProc(s, p)
  {
    s.(run := s.run[c := Back(p)], pc := s.pc[p := At(p, pos)])
  }

  lemma SwitchLocks(s: State, c: nat, p: nat, pos: Pos)
    requires Shape(s) && Cpus(s) && ProcLocks(s) && InnerLocks(s) && WaitLock(s) && Executes(s, c, p)
    requires s.pc[p].plk == p && s.pc[p].ilk == -1 && !s.pc[p].wlk
    ensures var s' := Switched(s, c, p, pos);
            Shape(s') && Cpus(s') && ProcLocks(s') && InnerLocks(s') && WaitLock(s')
  {
    var s' := Switched(s, c, p, pos);
    assert CpuOk(s, c);
    forall d | IsCpu(s', d)
      ensures CpuOk(s', d) && CpuOk(s, d) && HeldProc(s', d) == HeldProc(s, d)
      ensures HeldInner(s', d) == HeldInner(s, d) && HoldsWait(s', d) == HoldsWait(s, d)
      ensures HeldProc(s', d) == -1 || (IsProc(s', HeldProc(s', d)) && s'.plock[HeldProc(s', d)] == d)
    {
      assert IsCpu(s, d) && CpuOk(s, d);
    }
    forall q | IsProc(s', q)
      ensures s'.on[q] == -1 || (IsCpu(s', s'.on[q]) && s'.cproc[s'.on[q]] == q)
      ensures s'.plock[q] == -1 || (IsCpu(s', s'.plock[q]) && CpuOk(s', s'.plock[q]) && HeldProc(s', s'.plock[q]) == q)
    {
      assert IsProc(s, q);
    }
    forall l | IsLock(s', l)
      ensures s'.lk[l] == -1 || (IsCpu(s', s'.lk[l]) && CpuOk(s', s'.lk[l]) && HeldInner(s', s'.lk[l]) == l)
    {
      assert IsLock(s, l);
    }
  }

  lemma SwitchProcs(s: State, c: nat, p: nat, pos: Pos)
    requires Shape(s) && Cpus(s) && Procs(s) && Executes(s, c, p) && s.on[p] == c
    requires s.state[p] in {Runnable, Sleeping, Zombie} && Suspended(Switched(s, c, p, pos), p)
    ensures Procs(Switched(s, c, p, pos))
  {
    var s' := Switched(s, c, p, pos);
    forall q | IsProc(s', q)
      ensures ProcOk(s', q)
    {
      assert IsProc(s, q) && ProcOk(s, q);
    }
  }

  lemma SwitchPlaced(s: State, c: nat, p: nat, pos: Pos)
    requires Shape(s) && Placed(s) && Executes(s, c, p) && PlacedAt(p, At(p, pos))
    ensures Placed(Switched(s, c, p, pos))
  {
    var s' := Switched(s, c, p, pos);
    forall q | IsProc(s', q)
      ensures PlacedAt(q, s'.pc[q])
    {
      assert IsProc(s, q);
    }
  }

  lemma SwitchForks(s: State, c: nat, p: nat, pos: Pos)
    requires Shape(s) && Forks(s) && Executes(s, c, p) && Claimed(pos) == Claimed(s.pc[p].pos)
    ensures Forks(Switched(s, c, p, pos))
  {
    var s' := Switched(s, c, p, pos);
    forall q | IsProc(s', q)
      ensures Claimed(s'.pc[q].pos) == Claimed(s.pc[q].pos) && IsProc(s, q) && Live(s', q) == Live(s, q)
    {}
  }

  predicate SwtchPos(pos: Pos) { pos.YieldSwtch? || pos.SleepSwtch? || pos.ExitSwtch? }

  lemma SwtchDest(s: State, c: nat, p: nat, choice: bool)
    requires Shape(s) && IsCpu(s, c) && IsProc(s, p) && SwtchPos(s.pc[p].pos) && PlacedAt(p, s.pc[p])
    ensures s.pc[p].plk == p && s.pc[p].ilk == -1 && !s.pc[p].wlk
    ensures PlacedAt(p, At(p, Dest(s, p, choice))) && Claimed(Dest(s, p, choice)) == Claimed(s.pc[p].pos)
    ensures Move(Write(s, c, p, choice), c, p, At(p, Dest(s, p, choice))) == Switched(s, c, p, Dest(s, p, choice))
  {}

  lemma GoSwtch(s: State, c: nat, choice: bool)
    requires Base(s) && Enabled(s, Go(c, choice)) && SwtchPos(s.pc[s.cproc[c]].pos)
    ensures Base(Apply(s, Go(c, choice)))
  {
    Here(s, c);
    SwtchDest(s, c, s.cproc[c], choice);
    SwitchLocks(s, c, s.cproc[c], Dest(s, s.cproc[c], choice));
    SwitchProcs(s, c, s.cproc[c], Dest(s, s.cproc[c], choice));
    SwitchPlaced(s, c, s.cproc[c], Dest(s, s.cproc[c], choice));
    SwitchForks(s, c, s.cproc[c], Dest(s, s.cproc[c], choice));
  }

  // ----- fork() -----

  /** Everything but the claims, for a move that may change them. */
  lemma MoveMost(s: State, s1: State, c: nat, p: nat, x: nat, pos: Pos)
    requires Base(s) && Executes(s, c, p) && Wrote(s, s1, c, x) && Available(s, p, At(p, pos))
             && PlacedAt(p, At(p, pos))
    requires Active(Move(s1, c, p, At(p, pos)), p) && (x != p ==> ProcOk(Move(s1, c, p, At(p, pos)), x))
    requires Shape(Move(s1, c, p, At(p, pos))) && Forks(Move(s1, c, p, At(p, pos)))
    ensures Base(Move(s1, c, p, At(p, pos)))
  {
    MoveCpus(s, s1, c, p, x, At(p, pos));
    MoveProcLocks(s, s1, c, p, x, At(p, pos));
    MoveInnerLocks(s, s1, c, p, x, At(p, pos));
    MoveWaitLock(s, s1, c, p, x, At(p, pos));
    MovePlaced(s, s1, c, p, x, pos);
    MoveProcs(s, s1, c, p, x, At(p, pos));
  }

  /** Giving up the claim on np and changing its state. */
  lemma UnclaimForks(s: State, s1: State, c: nat, p: nat, np: nat, pos: Pos)
    requires Shape(s) && Forks(s) && Executes(s, c, p) && s.state[p] == Running && IsProc(s, np) && np != p
    requires Claimed(s.pc[p].pos) == np && Claimed(pos) == -1 && Claimed(s.pc[np].pos) == -1
    requires |s1.state| == |s.state| && s1 == s.(state := s.state[np := s1.state[np]])
    ensures Shape(Move(s1, c, p, At(p, pos))) && Forks(Move(s1, c, p, At(p, pos)))
  {
    var s' := Move(s1, c, p, At(p, pos));
    forall q | IsProc(s', q) && Live(s', q) && Claimed(s'.pc[q].pos) >= 0
      ensures q != p && q != np && Live(s, q) && Claimed(s'.pc[q].pos) == Claimed(s.pc[q].pos)
      ensures IsProc(s', Claimed(s'.pc[q].pos)) && s'.state[Claimed(s'.pc[q].pos)] == Used
    {
      assert IsProc(s, q) && IsProc(s, p) && Live(s, p);
    }
  }

  /** Claiming np, which nobody else has claimed because it is not USED. */
  lemma ClaimForks(s: State, s1: State, c: nat, p: nat, np: nat, pos: Pos)
    requires Shape(s) && Forks(s) && Executes(s, c, p) && IsProc(s, np) && np != p && s.state[np] == Unused
    requires Claimed(pos) == np
    requires s1 == s.(state := s.state[np := Used])
    ensures Shape(Move(s1, c, p, At(p, pos))) && Forks(Move(s1, c, p, At(p, pos)))
  {
    var s' := Move(s1, c, p, At(p, pos));
    forall q | IsProc(s', q) && Live(s', q) && q != p
      ensures Live(s, q) && Claimed(s'.pc[q].pos) == Claimed(s.pc[q].pos) && Claimed(s'.pc[q].pos) != np
      ensures Claimed(s'.pc[q].pos) >= 0 ==>
                IsProc(s', Claimed(s'.pc[q].pos)) && s'.state[Claimed(s'.pc[q].pos)] == Used
    {
      assert IsProc(s, q);
    }
  }

  /** An UNUSED slot's thread may be set up afresh. */
  lemma FreshThread(s: State, np: nat)
    requires Base(s) && IsProc(s, np) && s.state[np] == Unused && s.on[np] == -1
    ensures Base(s.(pc := s.pc[np := At(np, NewRel)]))
  {
    FreshLocks(s, np);
    FreshProcs(s, np);
    FreshForks(s, np);
  }

  lemma FreshProcs(s: State, np: nat)
    requires Shape(s) && Procs(s) && Placed(s) && IsProc(s, np) && s.state[np] == Unused && s.on[np] == -1
    ensures var s' := s.(pc := s.pc[np := At(np, NewRel)]); Procs(s') && Placed(s')
  {
    var s' := s.(pc := s.pc[np := At(np, NewRel)]);
    forall q | IsProc(s', q)
      ensures ProcOk(s', q) && PlacedAt(q, s'.pc[q])
    {
      assert IsProc(s, q) && ProcOk(s, q) && PlacedAt(q, s.pc[q]);
    }
  }

  lemma FreshForks(s: State, np: nat)
    requires Shape(s) && Forks(s) && IsProc(s, np) && s.state[np] == Unused
    ensures var s' := s.(pc := s.pc[np := At(np, NewRel)]); Forks(s')
  {
    var s' := s.(pc := s.pc[np := At(np, NewRel)]);
    forall q | IsProc(s', q) && Live(s', q)
      ensures IsProc(s, q) && Live(s, q) && s'.pc[q] == s.pc[q]
    {}
  }

  lemma FreshLocks(s: State, np: nat)
    requires Shape(s) && Cpus(s) && ProcLocks(s) && InnerLocks(s) && WaitLock(s) && IsProc(s, np) && s.on[np] == -1
    ensures var s' := s.(pc := s.pc[np := At(np, NewRel)]);
            Shape(s') && Cpus(s') && ProcLocks(s') && InnerLocks(s') && WaitLock(s')
  {
    var s' := s.(pc := s.pc[np := At(np, NewRel)]);
    forall q | IsProc(s', q)
      ensures s'.on[q] == -1 || (IsCpu(s', s'.on[q]) && s'.cproc[s'.on[q]] == q)
    {
      assert IsProc(s, q);
    }
    forall c | IsCpu(s', c)
      ensures CpuOk(s', c) && CpuOk(s, c) && HeldProc(s', c) == HeldProc(s, c)
      ensures HeldInner(s', c) == HeldInner(s, c) && HoldsWait(s', c) == HoldsWait(s, c)
      ensures HeldProc(s', c) == -1 || (IsProc(s', HeldProc(s', c)) && s'.plock[HeldProc(s', c)] == c)
    {
      assert IsCpu(s, c) && CpuOk(s, c);
    }
    forall q | IsProc(s', q)
      ensures s'.plock[q] == -1 || (IsCpu(s', s'.plock[q]) && CpuOk(s', s'.plock[q]) && HeldProc(s', s'.plock[q]) == q)
    {
      assert IsProc(s, q);
    }
    forall l | IsLock(s', l)
      ensures s'.lk[l] == -1 || (IsCpu(s', s'.lk[l]) && CpuOk(s', s'.lk[l]) && HeldInner(s', s'.lk[l]) == l)
    {
      assert IsLock(s, l);
    }
  }

  /** A thread in fork(): it is RUNNING, and any process whose lock it holds is not itself. */
  lemma ForkHere(s: State, c: nat, p: nat, np: nat)
    requires Base(s) && Executes(s, c, p)
    requires s.pc[p].pos == ForkInit(np) || s.pc[p].pos == ForkRel(np) || s.pc[p].pos == ForkRun(np)
    ensures IsProc(s, np) && s.plock[np] == c && s.state[p] == Running && s.pc[p] == Pc(s.pc[p].pos, np, -1, false)
    ensures !s.pc[p].pos.ForkInit? ==> s.state[np] == Used
    ensures s.state[np] != Running ==> np != p && s.on[np] == -1 && Suspended(s, np)
  {
    Here(s, c);
    assert IsProc(s, p) && Live(s, p) && Claimed(s.pc[p].pos) == if s.pc[p].pos.ForkInit? then -1 else np;
    if s.state[np] != Running { OffCpu(s, c, p, np); }
  }

  /** What the steps of fork() write. */
  lemma ForkWrites(s: State, c: nat, p: nat, np: nat, choice: bool)
    requires Shape(s) && IsCpu(s, c) && IsProc(s, p) && IsProc(s, np)
    ensures s.pc[p].pos == ForkInit(np) && s.state[np] == Unused ==>
              Write(s, c, p, choice) == s.(state := s.state[np := Used], pc := s.pc[np := At(np, NewRel)])
                  && Dest(s, p, choice) == ForkRel(np)
    ensures s.pc[p].pos == ForkInit(np) && s.state[np] != Unused ==>
              Write(s, c, p, choice) == s && Dest(s, p, choice) == ForkEnd(np)
    ensures s.pc[p].pos == ForkRel(np) && choice ==>
              Write(s, c, p, choice) == s.(state := s.state[np := Unused]) && Dest(s, p, choice) == ForkEnd(np)
    ensures s.pc[p].pos == ForkRun(np) ==>
              Write(s, c, p, choice) == s.(state := s.state[np := Runnable]) && Dest(s, p, choice) == ForkEnd(np)
  {}

  /** The situation in fork(): a slot locked by this thread, which is not itself and on no CPU. */
  ghost predicate Forking(s: State, c: nat, p: nat, np: nat)
    requires Shape(s)
  {
    && Executes(s, c, p) && s.state[p] == Running && IsProc(s, np) && np != p
    && s.plock[np] == c && s.on[np] == -1 && s.pc[p].plk == np && s.pc[p].ilk == -1 && !s.pc[p].wlk
  }

  lemma ForkMoves(s: State, s1: State, c: nat, p: nat, np: nat, pos: Pos)
    requires Shape(s) && Cpus(s) && Procs(s) && Forking(s, c, p, np) && s.pc[np] == At(np, NewRel)
    requires pos == ForkRel(np) || pos == ForkEnd(np)
    requires |s1.state| == |s.state| && s1 == s.(state := s.state[np := s1.state[np]])
    requires s1.state[np] in {Unused, Used, Runnable}
    ensures Wrote(s, s1, c, np) && Available(s, p, At(p, pos)) && PlacedAt(p, At(p, pos))
    ensures Active(Move(s1, c, p, At(p, pos)), p) && ProcOk(Move(s1, c, p, At(p, pos)), np)
  {
    assert ProcOk(s, p) && ProcOk(s, np);
  }

  lemma ForkClaims(s: State, c: nat, p: nat, np: nat)
    requires Base(s) && Forking(s, c, p, np) && s.state[np] == Unused
    ensures Base(Move(s.(state := s.state[np := Used], pc := s.pc[np := At(np, NewRel)]), c, p, At(p, ForkRel(np))))
  {
    FreshThread(s, np);
    var s0 := s.(pc := s.pc[np := At(np, NewRel)]);
    var s1 := s0.(state := s0.state[np := Used]);
    assert Forking(s0, c, p, np);
    ForkMoves(s0, s1, c, p, np, ForkRel(np));
    ClaimForks(s0, s1, c, p, np, ForkRel(np));
    MoveMost(s0, s1, c, p, np, ForkRel(np));
  }

  lemma GoForkInit(s: State, c: nat, choice: bool)
    requires Base(s) && Enabled(s, Go(c, choice)) && s.pc[s.cproc[c]].pos.ForkInit?
    ensures Base(Apply(s, Go(c, choice)))
  {
    var p := s.cproc[c];
    var np := s.pc[p].pos.np;
    ForkHere(s, c, p, np);
    ForkWrites(s, c, p, np, choice);
    if s.state[np] == Unused {
      ForkClaims(s, c, p, np);
    } else {
      PlainKeeps(s, Write(s, c, p, choice), c, p, Dest(s, p, choice));
    }
  }

  lemma ForkUnclaims(s: State, s1: State, c: nat, p: nat, np: nat)
    requires Base(s) && Forking(s, c, p, np) && Claimed(s.pc[p].pos) == np && s.pc[np].pos == NewRel
    requires s1 == s.(state := s.state[np := Unused]) || s1 == s.(state := s.state[np := Runnable])
    ensures Base(Move(s1, c, p, At(p, ForkEnd(np))))
  {
    assert s.pc[np] == At(np, NewRel) by { assert PlacedAt(np, s.pc[np]); }
    ForkMoves(s, s1, c, p, np, ForkEnd(np));
    UnclaimForks(s, s1, c, p, np, ForkEnd(np));
    MoveMost(s, s1, c, p, np, ForkEnd(np));
  }

  lemma GoForkEnd(s: State, c: nat, choice: bool)
    requires Base(s) && Enabled(s, Go(c, choice))
    requires s.pc[s.cproc[c]].pos.ForkRun? || (s.pc[s.cproc[c]].pos.ForkRel? && choice)
    ensures Base(Apply(s, Go(c, choice)))
  {
    var p := s.cproc[c];
    var np := s.pc[p].pos.np;
    ForkHere(s, c, p, np);
    ForkWrites(s, c, p, np, choice);
    ForkUnclaims(s, Write(s, c, p, choice), c, p, np);
  }

  lemma GoForkRel(s: State, c: nat)
    requires Base(s) && Enabled(s, Go(c, false)) && s.pc[s.cproc[c]].pos.ForkRel?
    ensures Base(Apply(s, Go(c, false)))
  {
    Here(s, c);
    PlainKeeps(s, Write(s, c, s.cproc[c], false), c, s.cproc[c], Dest(s, s.cproc[c], false));
  }

  // ----- the scheduler -----

  predicate SchedStep(step: Step) { !step.Begin? && !step.Go? }

  /** A RUNNABLE process that a scheduler has locked is on no CPU. */
  lemma PickedIsOff(s: State, c: nat)
    requires Shape(s) && Cpus(s) && ProcLocks(s) && Procs(s) && Placed(s) && IsCpu(s, c)
    requires s.run[c].Locked? && IsProc(s, s.run[c].p) && s.state[s.run[c].p] == Runnable
    ensures s.on[s.run[c].p] == -1
  {
    var p := s.run[c].p;
    assert CpuOk(s, c) && ProcOk(s, p) && PlacedAt(p, s.pc[p]);
  }

  lemma SchedCpus(s: State, step: Step)
    requires Shape(s) && Cpus(s) && ProcLocks(s) && Procs(s) && Placed(s) && Enabled(s, step) && SchedStep(step)
    ensures Shape(Apply(s, step)) && Cpus(Apply(s, step))
  {
    var s' := Apply(s, step);
    assert CpuOk(s, step.c);
    if step.Check? && s.state[s.run[step.c].p] == Runnable { PickedIsOff(s, step.c); }
    forall c | IsCpu(s', c)
      ensures CpuOk(s', c)
    {
      assert CpuOk(s, c) && IsCpu(s, c);
    }
    forall p | IsProc(s', p)
      ensures s'.on[p] == -1 || (IsCpu(s', s'.on[p]) && s'.cproc[s'.on[p]] == p)
    {
      assert IsProc(s, p);
    }
  }

  /** A thread that is about to be entered holds its own lock and no other. */
  lemma EnteredHolds(s: State, c: nat)
    requires Shape(s) && Cpus(s) && Procs(s) && Placed(s) && IsCpu(s, c) && s.run[c].Given?
    ensures IsProc(s, s.run[c].p) && s.pc[s.run[c].p] == Pc(s.pc[s.run[c].p].pos, s.run[c].p, -1, false)
  {
    var p := s.run[c].p;
    assert CpuOk(s, c) && ProcOk(s, p) && PlacedAt(p, s.pc[p]);
  }

  lemma SchedHolds(s: State, step: Step, c: nat)
    requires Shape(s) && Cpus(s) && ProcLocks(s) && Enabled(s, step) && SchedStep(step) && IsCpu(s, c)
    requires s.run[step.c].Given? ==> IsProc(s, s.run[step.c].p) && s.pc[s.run[step.c].p].plk == s.run[step.c].p
    requires Shape(Apply(s, step)) && Cpus(Apply(s, step)) && CpuOk(Apply(s, step), c)
    ensures HeldProc(Apply(s, step), c) == -1
            || (IsProc(s, HeldProc(Apply(s, step), c)) && Apply(s, step).plock[HeldProc(Apply(s, step), c)] == c)
  {
    assert CpuOk(s, c) && CpuOk(s, step.c);
  }

  lemma SchedHeld(s: State, step: Step, p: nat)
    requires Shape(s) && Cpus(s) && ProcLocks(s) && Enabled(s, step) && SchedStep(step) && IsProc(s, p)
    requires s.run[step.c].Given? ==> IsProc(s, s.run[step.c].p) && s.pc[s.run[step.c].p].plk == s.run[step.c].p
    requires Shape(Apply(s, step)) && Cpus(Apply(s, step))
    ensures var s' := Apply(s, step);
            s'.plock[p] == -1 || (IsCpu(s', s'.plock[p]) && CpuOk(s', s'.plock[p]) && HeldProc(s', s'.plock[p]) == p)
  {
    assert CpuOk(s, step.c);
    if s.plock[p] != -1 { assert CpuOk(s, s.plock[p]); }
  }

  lemma SchedProcLocks(s: State, step: Step)
    requires Shape(s) && Cpus(s) && ProcLocks(s) && Procs(s) && Placed(s) && Enabled(s, step) && SchedStep(step)
    requires Shape(Apply(s, step)) && Cpus(Apply(s, step))
    ensures ProcLocks(Apply(s, step))
  {
    var s' := Apply(s, step);
    if s.run[step.c].Given? { EnteredHolds(s, step.c); }
    forall c | IsCpu(s', c)
      ensures CpuOk(s', c) && (HeldProc(s', c) == -1 || (IsProc(s', HeldProc(s', c)) && s'.plock[HeldProc(s', c)] == c))
    {
      SchedHolds(s, step, c);
    }
    forall p | IsProc(s', p)
      ensures s'.plock[p] == -1 || (IsCpu(s', s'.plock[p]) && CpuOk(s', s'.plock[p]) && HeldProc(s', s'.plock[p]) == p)
    {
      SchedHeld(s, step, p);
    }
  }

  lemma SchedOtherLocks(s: State, step: Step)
    requires Shape(s) && Cpus(s) && InnerLocks(s) && WaitLock(s) && Procs(s) && Placed(s) && Enabled(s, step)
             && SchedStep(step)
    requires Shape(Apply(s, step)) && Cpus(Apply(s, step))
    ensures InnerLocks(Apply(s, step)) && WaitLock(Apply(s, step))
  {
    var s' := Apply(s, step);
    assert CpuOk(s, step.c);
    if s.run[step.c].Given? { EnteredHolds(s, step.c); }
    forall c | IsCpu(s', c)
      ensures CpuOk(s', c) && HeldInner(s', c) == HeldInner(s, c) && HoldsWait(s', c) == HoldsWait(s, c)
    {
      assert IsCpu(s, c) && CpuOk(s, c) && CpuOk(s', c);
    }
    forall l | IsLock(s', l)
      ensures s'.lk[l] == -1 || (IsCpu(s', s'.lk[l]) && CpuOk(s', s'.lk[l]) && HeldInner(s', s'.lk[l]) == l)
    {
      assert IsLock(s, l);
    }
  }

  lemma SchedProcOk(s: State, step: Step, p: nat)
    requires Shape(s) && Cpus(s) && ProcLocks(s) && Enabled(s, step) && SchedStep(step) && IsProc(s, p) && ProcOk(s, p)
    requires step.Check? && s.state[s.run[step.c].p] == Runnable ==> s.on[s.run[step.c].p] == -1
    requires Shape(Apply(s, step))
    ensures ProcOk(Apply(s, step), p)
  {
    assert CpuOk(s, step.c);
    if s.on[p] != -1 { assert CpuOk(s, s.on[p]); }
  }

  lemma SchedProcs(s: State, step: Step)
    requires Shape(s) && Cpus(s) && ProcLocks(s) && Procs(s) && Placed(s) && Enabled(s, step) && SchedStep(step)
    requires Shape(Apply(s, step))
    ensures Procs(Apply(s, step))
  {
    if step.Check? && s.state[s.run[step.c].p] == Runnable { PickedIsOff(s, step.c); }
    forall p | IsProc(Apply(s, step), p)
      ensures ProcOk(Apply(s, step), p)
    {
      SchedProcOk(s, step, p);
    }
  }

  lemma SchedForks(s: State, step: Step)
    requires Shape(s) && Placed(s) && Forks(s) && Enabled(s, step) && SchedStep(step)
    requires Shape(Apply(s, step))
    ensures Placed(Apply(s, step)) && Forks(Apply(s, step))
  {
    var s' := Apply(s, step);
    forall p | IsProc(s', p)
      ensures IsProc(s, p) && PlacedAt(p, s'.pc[p]) && Live(s', p) == Live(s, p)
              && (s'.state[p] == Used <==> s.state[p] == Used)
    {
      assert IsProc(s, p);
    }
  }

  lemma SchedKeeps(s: State, step: Step)
    requires Base(s) && Enabled(s, step) && SchedStep(step)
    ensures Base(Apply(s, step))
  {
    SchedCpus(s, step);
    SchedProcLocks(s, step);
    SchedOtherLocks(s, step);
    SchedProcs(s, step);
    SchedForks(s, step);
  }

  /** At WaitFree the child is a zombie. */
  ghost predicate Frees(s: State, p: nat)
    requires Shape(s) && IsProc(s, p)
  {
    s.pc[p].pos.WaitFree? ==> s.pc[p].pos.k < |s.state| && s.state[s.pc[p].pos.k] == Zombie
  }

  lemma GoKeeps(s: State, c: nat, choice: bool)
    requires Base(s) && Enabled(s, Go(c, choice)) && Frees(s, s.cproc[c])
    ensures Base(Apply(s, Go(c, choice)))
  {
    Here(s, c);
    var pos := s.pc[s.cproc[c]].pos;
    if PlainPos(pos) {
      GoPlain(s, c, choice);
    } else if OwnPos(pos) {
      GoOwn(s, c, choice);
    } else if SwtchPos(pos) {
      GoSwtch(s, c, choice);
    } else if pos.Wake? {
      if pos.held { GoWakeHeld(s, c, choice); } else { GoWakeNext(s, c, choice); }
    } else if pos.WaitFree? {
      GoFree(s, c, choice);
    } else if pos.KillMark? {
      GoKill(s, c, choice);
    } else if pos.ForkInit? {
      GoForkInit(s, c, choice);
    } else if pos.ForkRel? && !choice {
      GoForkRel(s, c);
    } else {
      GoForkEnd(s, c, choice);
    }
  }
}
