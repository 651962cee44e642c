/**
 kernel/proc.c and kernel/sleeplock.c as a machine: CPUs that run either their
 scheduler or a process's kernel thread, and step one at a time, in any order,
 through acquiring and releasing spinlocks, writing the shared fields, and
 switching. A spinlock is held by a CPU, as in the source.
 */
module Proc {
  datatype PState = Unused | Used | Sleeping | Runnable | Running | Zombie

  /** What a process sleeps on: a sleep-lock, or itself in wait(). */
  datatype Chan = NoChan | OnLock(l: nat) | OnProc(p: nat)

  datatype Reason = ForLock(l: nat) | ForChild

  /** What follows a wakeup(): the end of releasesleep(), the next child in reparent(), or the end of exit(). */
  datatype Next = ToRelease(l: nat) | ToReparent(k: nat) | ToDie

  /** Where a kernel thread is. */
  datatype Pos =
    | Outside                                   // outside these routines, holding no spinlock
    | NewRel                                    // forkret(), holding its own lock
    | YieldSet(back: Pos) | YieldSwtch(back: Pos) | YieldRel(back: Pos)
    | AcqTest(l: nat) | AcqSet(l: nat) | AcqRel(l: nat)
    | RelClear(l: nat) | RelDrop(l: nat)
    | Wake(ch: Chan, i: nat, held: bool, next: Next)
    | SleepAcq(w: Reason) | SleepDrop(w: Reason) | SleepChan(w: Reason) | SleepState(w: Reason)
    | SleepSwtch(w: Reason) | SleepClear(w: Reason) | SleepRel(w: Reason) | SleepBack(w: Reason)
    | WaitScan(k: nat,
          kids: bool) | WaitCheck(k: nat) | WaitFree(k: nat) | WaitDone(k: nat) | WaitNext(k: nat) | WaitQuit
    | ExitReparent(k: nat) | ExitAcq | ExitZombie | ExitDrop | ExitSwtch | Dead
    | ForkInit(np: nat) | ForkRel(np: nat) | ForkWait(np: nat) | ForkParent(np: nat) | ForkDrop(np: nat)
    | ForkAcq(np: nat) | ForkRun(np: nat) | ForkEnd(np: nat)
    | KillMark(i: nat) | KillRel(i: nat)

  /** A position with the spinlocks the thread holds there: a process lock, a sleep-lock's, wait_lock. */
  datatype Pc = Pc(pos: Pos, plk: int, ilk: int, wlk: bool)

  /** What a CPU is executing: its current process's thread, or scheduler(). */
  datatype Run =
    | Thread
    | Scan | Locked(p: nat) | Marked(p: nat) | Given(p: nat) | Back(p: nat) | Drop(p: nat)

  /**
   Per process: state, chan, parent, thread position, the CPU holding p->lock, and
   the CPU whose c->proc is p. Per CPU: c->proc and what it executes. Per
   sleep-lock: the flag and the CPU holding its spinlock. -1 stands for none.
   */
  datatype State = State(
    state: seq<PState>, chan: seq<Chan>, parent: seq<int>, pc: seq<Pc>, plock: seq<int>, on: seq<int>,
    cproc: seq<int>, run: seq<Run>, locked: seq<bool>, lk: seq<int>, wlock: int, init: nat)

  datatype Call = Yield | AcquireSleep(l: nat) | ReleaseSleep(l: nat) | Wait | Exit | Fork(np: nat) | Kill(i: nat)

  /** A step of CPU c; the thread steps are those of its current process. */
  datatype Step =
    | Pick(c: nat, p: nat) | Check(c: nat) | Give(c: nat) | Enter(c: nat) | Take(c: nat) | Leave(c: nat)
    | Begin(c: nat, call: Call)
    | Go(c: nat, choice: bool)

  function LockOf(w: Reason): int { if w.ForLock? then w.l else -1 }
  function ChanOf(w: Reason, p: nat): Chan { if w.ForLock? then OnLock(w.l) else OnProc(p) }

  // ----- which locks a position implies -----

  /** The process lock held by p's thread at a position, or -1. */
  function ThreadLock(p: nat, pc: Pos): int {
    match pc
    case NewRel => p
    case YieldSet(_) => p
    case YieldSwtch(_) => p
    case YieldRel(_) => p
    case SleepDrop(_) => p
    case SleepChan(_) => p
    case SleepState(_) => p
    case SleepSwtch(_) => p
    case SleepClear(_) => p
    case SleepRel(_) => p
    case ExitZombie => p
    case ExitDrop => p
    case ExitSwtch => p
    case Dead => p
    case Wake(_, i, held, _) => if held then i else -1
    case WaitCheck(k) => k
    case WaitFree(k) => k
    case WaitDone(k) => k
    case WaitNext(k) => k
    case ForkInit(np) => np
    case ForkRel(np) => np
    case ForkRun(np) => np
    case ForkEnd(np) => np
    case KillMark(i) => i
    case KillRel(i) => i
    case _ => -1
  }

  function SchedLock(r: Run): int
    requires r != Thread
  {
    if r.Scan? then -1 else r.p
  }

  /** The sleep-lock whose spinlock a thread holds at a position, or -1. */
  function InnerLock(pc: Pos): int {
    match pc
    case AcqTest(l) => l
    case AcqSet(l) => l
    case AcqRel(l) => l
    case RelClear(l) => l
    case RelDrop(l) => l
    case Wake(_, _, _, next) => if next.ToRelease? then next.l else -1
    case SleepAcq(w) => LockOf(w)
    case SleepDrop(w) => LockOf(w)
    case _ => -1
  }

  predicate HasWaitLock(pc: Pos) {
    match pc
    case Wake(_, _, _, next) => !next.ToRelease?
    case SleepAcq(w) => w.ForChild?
    case SleepDrop(w) => w.ForChild?
    case WaitScan(_, _) => true
    case WaitCheck(_) => true
    case WaitFree(_) => true
    case WaitDone(_) => true
    case WaitNext(_) => true
    case WaitQuit => true
    case ExitReparent(_) => true
    case ExitAcq => true
    case ExitZombie => true
    case ExitDrop => true
    case ForkParent(_) => true
    case ForkDrop(_) => true
    case _ => false
  }

  /** Thread p at a position, with the locks that go with it. */
  function At(p: nat, pos: Pos): Pc { Pc(pos, ThreadLock(p, pos), InnerLock(pos), HasWaitLock(pos)) }

  predicate IsProc(s: State, p: int) { 0 <= p < |s.state| }
  predicate IsCpu(s: State, c: int) { 0 <= c < |s.cproc| }
  predicate IsLock(s: State, l: int) { 0 <= l < |s.lk| }

  predicate Shape(s: State) {
    && |s.chan| == |s.parent| == |s.pc| == |s.plock| == |s.on| == |s.state|
    && |s.run| == |s.cproc| && |s.locked| == |s.lk| && s.init < |s.state|
  }

  /** CPU c is executing the thread of process p. */
  predicate Executes(s: State, c: int, p: int)
    requires Shape(s)
  {
    IsCpu(s, c) && IsProc(s, p) && s.run[c] == Thread && s.cproc[c] == p
  }

  // ----- steps -----
  //
  // A thread step takes the thread from one position to the next. It acquires or
  // releases one spinlock, the one by which the two positions differ, or it writes
  // shared fields: one, or as in freeproc() and allocproc() several of a process whose
  // lock the thread holds.

  /** Positions where no spinlock is held, so that a timer interrupt may make the thread yield. */
  predicate Preemptible(pos: Pos) {
    pos.Outside? || pos.SleepBack? || pos.ForkWait? || pos.ForkAcq?
  }

  /** The first position of a call, where its first lock has been acquired. */
  function Entry(s: State, p: nat, call: Call): Pos
    requires Shape(s) && IsProc(s, p)
  {
    match call
    case Yield => YieldSet(s.pc[p].pos)
    case AcquireSleep(l) => AcqTest(l)
    case ReleaseSleep(l) => RelClear(l)
    case Wait => WaitScan(0, false)
    case Exit => ExitReparent(0)
    case Fork(np) => ForkInit(np)
    case Kill(i) => KillMark(i)
  }

  /** releasesleep() is called with the lock held; the init process does not exit. */
  predicate MayCall(s: State, p: nat, call: Call)
    requires Shape(s) && IsProc(s, p)
  {
    match call
    case Yield => Preemptible(s.pc[p].pos)
    case ReleaseSleep(l) => s.pc[p].pos == Outside && l < |s.locked| && s.locked[l]
    case Exit => s.pc[p].pos == Outside && p != s.init
    case _ => s.pc[p].pos == Outside
  }

  /** wakeup()'s loop: lock the next process, test it, unlock it; then go on with what called it. */
  function WakeDest(s: State, p: nat, ch: Chan, i: nat, held: bool, next: Next): Pos
    requires Shape(s)
  {
    if i >= |s.state| then
      match next case ToRelease(l) => RelDrop(l) case ToReparent(k) => ExitReparent(k + 1) case ToDie => ExitAcq
    else if !held then
      if i == p then Wake(ch, i + 1, false, next) else Wake(ch, i, true, next)
    else if s.state[i] == Sleeping && s.chan[i] == ch then Wake(ch, i, true, next)
    else Wake(ch, i + 1, false, next)
  }

  /**
   The next position of p's thread. `choice` stands for what the model leaves open:
   whether p has been killed, whether wait()'s copyout() fails, whether fork() runs
   out of memory.
   */
  function Dest(s: State, p: nat, choice: bool): Pos
    requires Shape(s) && IsProc(s, p)
  {
    match s.pc[p].pos
    case Outside => Outside
    case NewRel => Outside
    // yield()
    case YieldSet(back) => YieldSwtch(back)
    case YieldSwtch(back) => YieldRel(back)
    case YieldRel(back) => back
    // acquiresleep()
    case AcqTest(l) => if l < |s.locked| && s.locked[l] then SleepAcq(ForLock(l)) else AcqSet(l)
    case AcqSet(l) => AcqRel(l)
    case AcqRel(l) => Outside
    // releasesleep()
    case RelClear(l) => Wake(OnLock(l), 0, false, ToRelease(l))
    case RelDrop(l) => Outside
    // wakeup()
    case Wake(ch, i, held, next) => WakeDest(s, p, ch, i, held, next)
    // sleep()
    case SleepAcq(w) => SleepDrop(w)
    case SleepDrop(w) => SleepChan(w)
    case SleepChan(w) => SleepState(w)
    case SleepState(w) => SleepSwtch(w)
    case SleepSwtch(w) => SleepClear(w)
    case SleepClear(w) => SleepRel(w)
    case SleepRel(w) => SleepBack(w)
    case SleepBack(w) => if w.ForLock? then AcqTest(w.l) else WaitScan(0, false)
    // wait()
    case WaitScan(k, kids) =>
      if k >= |s.state| then (if !kids || choice then WaitQuit else SleepAcq(ForChild))
      else if s.parent[k] == p then WaitCheck(k) else WaitScan(k + 1, kids)
    case WaitCheck(k) =>
      if k < |s.state| && s.state[k] == Zombie then (if choice then WaitDone(k) else WaitFree(k)) else WaitNext(k)
    case WaitFree(k) => WaitDone(k)
    case WaitDone(k) => WaitQuit
    case WaitNext(k) => WaitScan(k + 1, true)
    case WaitQuit => Outside
    // exit()
    case ExitReparent(k) =>
      if k >= |s.state| then Wake(if s.parent[p] >= 0 then OnProc(s.parent[p]) else NoChan, 0, false, ToDie)
      else if s.parent[k] == p then Wake(OnProc(s.init), 0, false, ToReparent(k)) else ExitReparent(k + 1)
    case ExitAcq => ExitZombie
    case ExitZombie => ExitDrop
    case ExitDrop => ExitSwtch
    case ExitSwtch => Dead
    case Dead => Dead
    // fork()
    case ForkInit(np) => if np < |s.state| && s.state[np] == Unused then ForkRel(np) else ForkEnd(np)
    case ForkRel(np) => if choice then ForkEnd(np) else ForkWait(np)
    case ForkWait(np) => ForkParent(np)
    case ForkParent(np) => ForkDrop(np)
    case ForkDrop(np) => ForkAcq(np)
    case ForkAcq(np) => ForkRun(np)
    case ForkRun(np) => ForkEnd(np)
    case ForkEnd(np) => Outside
    // kill()
    case KillMark(i) => KillRel(i)
    case KillRel(i) => Outside
  }

  function SetState(s: State, p: nat, st: PState): State {
    if p < |s.state| then s.(state := s.state[p := st]) else s
  }

  /** What the step of p's thread writes, apart from locks and its own position. */
  function Write(s: State, c: nat, p: nat, choice: bool): (s': State)
    requires Shape(s) && IsProc(s, p) && IsCpu(s, c)
    ensures Shape(s') && |s'.state| == |s.state| && |s'.lk| == |s.lk| && |s'.cproc| == |s.cproc|
  {
    match s.pc[p].pos
    case YieldSet(_) => SetState(s, p, Runnable)
    case YieldSwtch(_) => s.(run := s.run[c := Back(p)])
    case AcqSet(l) => if l < |s.locked| then s.(locked := s.locked[l := true]) else s
    case RelClear(l) => if l < |s.locked| then s.(locked := s.locked[l := false]) else s
    case Wake(ch, i, held, _) =>
      if held && i < |s.state| && s.state[i] == Sleeping && s.chan[i] == ch then SetState(s, i, Runnable) else s
    case SleepChan(w) => s.(chan := s.chan[p := ChanOf(w, p)])
    case SleepState(w) => SetState(s, p, Sleeping)
    case SleepSwtch(w) => s.(run := s.run[c := Back(p)])
    case SleepClear(w) => s.(chan := s.chan[p := NoChan])
    case WaitFree(k) =>
      if k < |s.state| then s.(state := s.state[k := Unused], parent := s.parent[k := -1],
            chan := s.chan[k := NoChan]) else s
    case ExitReparent(k) =>
      if k < |s.state| && s.parent[k] == p then s.(parent := s.parent[k := s.init]) else s
    case ExitZombie => SetState(s, p, Zombie)
    case ExitSwtch => s.(run := s.run[c := Back(p)])
    case ForkInit(np) =>
      if np < |s.state| && s.state[np] == Unused then SetState(s, np, Used).(pc := s.pc[np := At(np, NewRel)]) else s
    case ForkRel(np) => if choice then SetState(s, np, Unused) else s
    case ForkParent(np) => if np < |s.state| then s.(parent := s.parent[np := p]) else s
    case ForkRun(np) => SetState(s, np, Runnable)
    case KillMark(i) => if i < |s.state| && s.state[i] == Sleeping then SetState(s, i, Runnable) else s
    case _ => s
  }

  /** The locks that go with a position exist, and those the thread does not have yet are free. */
  predicate Available(s: State, p: nat, pc': Pc)
    requires Shape(s) && IsProc(s, p)
  {
    && -1 <= pc'.plk < |s.plock| && -1 <= pc'.ilk < |s.lk|
    && (pc'.plk >= 0 && pc'.plk != s.pc[p].plk ==> s.plock[pc'.plk] == -1)
    && (pc'.ilk >= 0 && pc'.ilk != s.pc[p].ilk ==> s.lk[pc'.ilk] == -1)
    && (pc'.wlk && !s.pc[p].wlk ==> s.wlock == -1)
  }

  /** A lock table after CPU c gave up h and took h'. */
  function Relock(lock: seq<int>, h: int, h': int, c: int): (r: seq<int>)
    ensures |r| == |lock|
  {
    if h == h' then lock
    else
      var l1 := if 0 <= h < |lock| then lock[h := -1] else lock;
      if 0 <= h' < |lock| then l1[h' := c] else l1
  }

  /** CPU c moves the thread of p to a position, exchanging locks accordingly. */
  function Move(s: State, c: nat, p: nat, pc': Pc): State
    requires Shape(s) && IsProc(s, p)
  {
    s.(pc := s.pc[p := pc'],
       plock := Relock(s.plock, s.pc[p].plk, pc'.plk, c),
       lk := Relock(s.lk, s.pc[p].ilk, pc'.ilk, c),
       wlock := if s.pc[p].wlk == pc'.wlk then s.wlock else if pc'.wlk then c else -1)
  }

  predicate Enabled(s: State, step: Step) {
    Shape(s) && IsCpu(s, step.c) &&
    var c := step.c;
    match step
    case Pick(_, p) => s.run[c] == Scan && IsProc(s, p) && s.plock[p] == -1
    case Check(_) => s.run[c].Locked? && IsProc(s, s.run[c].p)
    case Give(_) => s.run[c].Marked? && IsProc(s, s.run[c].p)
    case Enter(_) => s.run[c].Given?
    case Take(_) => s.run[c].Back? && IsProc(s, s.run[c].p)
    case Leave(_) => s.run[c].Drop? && IsProc(s, s.run[c].p)
    case Begin(_, call) =>
      && s.run[c] == Thread && IsProc(s, s.cproc[c]) && MayCall(s, s.cproc[c], call)
      && Available(s, s.cproc[c], At(s.cproc[c], Entry(s, s.cproc[c], call)))
    case Go(_, choice) =>
      && s.run[c] == Thread && IsProc(s, s.cproc[c]) && !s.pc[s.cproc[c]].pos.Outside?
      && Available(s, s.cproc[c], At(s.cproc[c], Dest(s, s.cproc[c], choice)))
  }

  function Apply(s: State, step: Step): State
    requires Enabled(s, step)
  {
    var c := step.c;
    match step
    case Pick(_, p) => s.(plock := s.plock[p := c], run := s.run[c := Locked(p)])
    case Check(_) =>
      var p := s.run[c].p;
      if s.state[p] == Runnable then s.(state := s.state[p := Running], run := s.run[c := Marked(p)])
      else s.(run := s.run[c := Drop(p)])
    case Give(_) =>
      var p := s.run[c].p;
      s.(cproc := s.cproc[c := p], on := s.on[p := c], run := s.run[c := Given(p)])
    case Enter(_) => s.(run := s.run[c := Thread])
    case Take(_) =>
      var p := s.run[c].p;
      s.(cproc := s.cproc[c := -1], on := s.on[p := -1], run := s.run[c := Drop(p)])
    case Leave(_) =>
      var p := s.run[c].p;
      s.(plock := s.plock[p := -1], run := s.run[c := Scan])
    case Begin(_, call) => var p := s.cproc[c]; Move(s, c, p, At(p, Entry(s, p, call)))
    case Go(_, choice) => var p := s.cproc[c]; Move(Write(s, c, p, choice), c, p, At(p, Dest(s, p, choice)))
  }
}
