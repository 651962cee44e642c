/**
 The storage stack as a concurrent machine: the buffer cache of kernel/bio.c, the
 log of kernel/log.c and the disk, with any number of threads stepping in any
 order and a power failure possible between any two steps.

 A step is one critical section under bcache.lock or log.lock, one change to a
 buffer by the thread that has it locked, or one block write. Choosing any unused
 buffer on a miss covers the least-recently-used choice of bget().
 */
module Storage {
  import opened Words
  import opened LogCore

  const ROOTDEV: nat := 1
  const NBUF: nat := 3 * MAXOPBLOCKS

  datatype Holder = Nobody | Thread(t: nat)

  /**
   `refs` counts threads that have a reference but not the sleep-lock, waiting
   for it or about to drop it. `dirty` says that the holder changed the data
   since the block was last logged or written.
   */
  datatype Buf = Buf(dev: nat, blockno: nat, valid: bool, refcnt: nat, refs: nat,
                     holder: Holder, data: Block, dirty: bool)

  /** A thread's file-system call: `used` blocks of its reservation are in the log. */
  datatype Op = NoOp | InOp(used: nat)

  datatype Phase =
    | Running               // no commit in progress
    | Filling(k: nat)       // write_log has copied k blocks
    | Installing(k: nat)    // header written, k blocks installed and unpinned
    | Unpinning(k: nat)     // block k installed, not yet unpinned
    | Erased                // log cleared, committing still set
    | Booting               // after a crash, before read_head
    | Recovering(k: nat)    // recovery has installed k blocks

  /**
   `logical` is the effect of every log_write so far; `committed` is what
   `logical` was at the last completed header write.
   */
  datatype LogState = LogState(
    g: Geometry, disk: Disk, lh: seq<uint>, ops: seq<Op>,
    outstanding: nat, committing: bool, phase: Phase, worker: nat,
    logical: Disk, committed: Disk)

  datatype State = State(bufs: seq<Buf>, m: LogState)

  datatype Step =
    | BeginOp(t: nat) | EndOp(t: nat)
    | BgetHit(i: nat) | BgetRecycle(i: nat, b: nat)
    | Lock(t: nat, i: nat) | Fill(t: nat, i: nat)
    | Modify(t: nat, i: nat, data: Block) | LogWrite(t: nat, i: nat)
    | Unlock(t: nat, i: nat) | Unref(i: nat)
    | WriteLog(i: nat, j: nat) | WriteHead(i: nat)
    | Install(i: nat, j: nat) | Bunpin(j: nat) | Erase(i: nat) | EndCommit
    | Crash | ReadHead(i: nat) | RecInstall(i: nat, j: nat) | RecErase(i: nat)

  // ----- reservations -----

  function Share(o: Op): int { if o.InOp? then MAXOPBLOCKS - o.used else 0 }

  /** Log blocks promised to calls in progress and not yet used. */
  function Reserved(ops: seq<Op>): int {
    if ops == [] then 0 else Reserved(ops[..|ops| - 1]) + Share(ops[|ops| - 1])
  }

  /** How many calls are in progress. */
  function Active(ops: seq<Op>): nat {
    if ops == [] then 0 else Active(ops[..|ops| - 1]) + if ops[|ops| - 1].InOp? then 1 else 0
  }

  lemma {:induction false} OpsUpdate(ops: seq<Op>, t: nat, o: Op)
    requires t < |ops|
    ensures Reserved(ops[t := o]) == Reserved(ops) - Share(ops[t]) + Share(o)
    ensures Active(ops[t := o]) == Active(ops) - (if ops[t].InOp? then 1 else 0) + if o.InOp? then 1 else 0
  {
    var n := |ops| - 1;
    if t < n {
      OpsUpdate(ops[..n], t, o);
      assert ops[t := o][..n] == ops[..n][t := o];
    } else {
      assert ops[t := o][..n] == ops[..n];
    }
  }

  lemma {:induction false} OpsBounds(ops: seq<Op>)
    requires forall t :: 0 <= t < |ops| && ops[t].InOp? ==> ops[t].used <= MAXOPBLOCKS
    ensures 0 <= Reserved(ops) <= MAXOPBLOCKS * Active(ops)
    ensures forall t :: 0 <= t < |ops| ==> Share(ops[t]) <= Reserved(ops)
    ensures forall t :: 0 <= t < |ops| && ops[t].InOp? ==> Active(ops) > 0
  {
    if ops != [] { OpsBounds(ops[..|ops| - 1]); }
  }

  lemma {:induction false} IdleOps(ops: seq<Op>)
    requires forall t :: 0 <= t < |ops| ==> ops[t].NoOp?
    ensures Reserved(ops) == 0 && Active(ops) == 0
  {
    if ops != [] { IdleOps(ops[..|ops| - 1]); }
  }

  // ----- the transition function -----

  predicate Rebooting(m: LogState) { m.phase.Booting? || m.phase.Recovering? }

  predicate HeldBy(s: State, t: nat, i: nat) {
    i < |s.bufs| && s.bufs[i].holder == Thread(t)
  }

  /** Thread t has buffer i locked and its contents are loaded. */
  predicate Loaded(s: State, t: nat, i: nat) {
    HeldBy(s, t, i) && s.bufs[i].dev == ROOTDEV && s.bufs[i].valid
  }

  /** Buffer i is loaded and holds block b. */
  predicate Has(s: State, t: nat, i: nat, b: int) {
    Loaded(s, t, i) && s.bufs[i].blockno == b
  }

  /** The test at the top of log_write() that ends in a panic. */
  predicate TooBig(m: LogState) { |m.lh| >= LOGSIZE || |m.lh| >= m.g.size - 1 }

  /**
   Block b is not in the transaction on disk. The superblock, which is read before recovery, is
   such a block, as no call logs it.
   */
  ghost predicate Unlisted(m: LogState, b: nat) {
    m.g.start < |m.disk| && HeadFits(m.disk[m.g.start]) && b !in Head(m.disk[m.g.start])
  }

  ghost predicate Enabled(s: State, step: Step) {
    var m := s.m;
    match step
    case BeginOp(t) =>
      t < |m.ops| && m.ops[t].NoOp? && !Rebooting(m) && !m.committing
      && |m.lh| + (m.outstanding + 1) * MAXOPBLOCKS <= LOGSIZE
    case EndOp(t) =>
      t < |m.ops| && m.ops[t].InOp? && m.outstanding > 0
      && forall i :: 0 <= i < |s.bufs| && s.bufs[i].dirty ==> s.bufs[i].holder != Thread(t)
    case BgetHit(i) => i < |s.bufs| && s.bufs[i].dev == ROOTDEV
    case BgetRecycle(i, b) =>
      i < |s.bufs| && s.bufs[i].refcnt == 0 && b < |m.disk|
      && forall j :: 0 <= j < |s.bufs| && s.bufs[j].dev == ROOTDEV ==> s.bufs[j].blockno != b
    case Lock(t, i) =>
      i < |s.bufs| && s.bufs[i].holder == Nobody && s.bufs[i].refs > 0 && (Rebooting(m) ==> t == m.worker)
    case Fill(t, i) =>
      HeldBy(s, t, i) && !s.bufs[i].valid && s.bufs[i].dev == ROOTDEV && s.bufs[i].blockno < |m.disk|
      && (Rebooting(m) && !InLog(m.g, s.bufs[i].blockno) && !Unlisted(m, s.bufs[i].blockno) ==>
            m.phase.Recovering? && m.phase.k < |m.lh| && s.bufs[i].blockno == m.lh[m.phase.k])
    case Modify(t, i, data) =>
      Loaded(s, t, i) && t < |m.ops| && m.ops[t].InOp?
      && IsHome(m.g, |m.disk|, s.bufs[i].blockno)
    case LogWrite(t, i) =>
      Loaded(s, t, i) && t < |m.ops| && m.ops[t].InOp?
      && IsHome(m.g, |m.disk|, s.bufs[i].blockno) && |m.logical| == |m.disk| < 0x1_0000_0000
      && !TooBig(m) && (s.bufs[i].blockno !in m.lh ==> m.ops[t].used < MAXOPBLOCKS)
    case Unlock(t, i) => HeldBy(s, t, i) && !s.bufs[i].dirty
    case Unref(i) => i < |s.bufs| && s.bufs[i].refs > 0 && s.bufs[i].refcnt > 0
    case WriteLog(i, j) =>
      m.phase.Filling? && m.phase.k < |m.lh| && m.g.start + m.phase.k + 1 < |m.disk|
      && Has(s, m.worker, i, m.g.start + m.phase.k + 1) && Has(s, m.worker, j, m.lh[m.phase.k])
    case WriteHead(i) =>
      m.phase == Filling(|m.lh|) && |m.lh| <= LOGSIZE && m.g.start < |m.disk| && Has(s, m.worker, i, m.g.start)
    case Install(i, j) =>
      m.phase.Installing? && m.phase.k < |m.lh| && m.lh[m.phase.k] < |m.disk|
      && Has(s, m.worker, i, m.g.start + m.phase.k + 1) && Has(s, m.worker, j, m.lh[m.phase.k])
    case Bunpin(j) =>
      m.phase.Unpinning? && m.phase.k < |m.lh| && Has(s, m.worker, j, m.lh[m.phase.k]) && s.bufs[j].refcnt > 0
    case Erase(i) =>
      m.phase == Installing(|m.lh|) && m.g.start < |m.disk| && Has(s, m.worker, i, m.g.start)
    case EndCommit => m.phase == Erased
    case Crash => true
    case ReadHead(i) =>
      m.phase == Booting && Has(s, m.worker, i, m.g.start) && HeadFits(s.bufs[i].data)
    case RecInstall(i, j) =>
      m.phase.Recovering? && m.phase.k < |m.lh| && m.lh[m.phase.k] < |m.disk|
      && Has(s, m.worker, i, m.g.start + m.phase.k + 1) && Has(s, m.worker, j, m.lh[m.phase.k])
    case RecErase(i) =>
      m.phase == Recovering(|m.lh|) && m.g.start < |m.disk| && Has(s, m.worker, i, m.g.start)
  }

  function EmptyBuf(): Buf { Buf(0, 0, false, 0, 0, Nobody, ZeroBlock(), false) }

  ghost function Apply(s: State, step: Step): State
    requires Enabled(s, step)
  {
    var m := s.m;
    match step
    case BeginOp(t) => s.(m := m.(ops := m.ops[t := InOp(0)], outstanding := m.outstanding + 1))
    case EndOp(t) =>
      var m1 := m.(ops := m.ops[t := NoOp], outstanding := m.outstanding - 1);
      s.(m := if m.outstanding == 1
              then m1.(committing := true, worker := t, phase := if m.lh == [] then Erased else Filling(0))
              else m1)
    case BgetHit(i) =>
      var b := s.bufs[i];
      Put(s, i, b.(refcnt := b.refcnt + 1, refs := b.refs + 1))
    case BgetRecycle(i, b) =>
      Put(s, i, s.bufs[i].(dev := ROOTDEV, blockno := b, valid := false, refcnt := 1, refs := 1))
    case Lock(t, i) =>
      var b := s.bufs[i];
      Put(s, i, b.(holder := Thread(t), refs := b.refs - 1))
    case Fill(t, i) =>
      var b := s.bufs[i];
      var stale := Rebooting(m) && !InLog(m.g, b.blockno) && !Unlisted(m, b.blockno);
      Put(s, i, b.(data := m.disk[b.blockno], valid := true, dirty := stale))
    case Modify(t, i, data) => Put(s, i, s.bufs[i].(data := data, dirty := true))
    case LogWrite(t, i) =>
      var b := s.bufs[i];
      var m1 := m.(logical := m.logical[b.blockno := b.data]);
      if b.blockno in m.lh then
        Put(s, i, b.(dirty := false)).(m := m1)
      else
        Put(s, i, b.(dirty := false, refcnt := b.refcnt + 1))
          .(m := m1.(lh := m.lh + [b.blockno], ops := m.ops[t := InOp(m.ops[t].used + 1)]))
    case Unlock(t, i) =>
      var b := s.bufs[i];
      Put(s, i, b.(holder := Nobody, refs := b.refs + 1))
    case Unref(i) =>
      var b := s.bufs[i];
      Put(s, i, b.(refs := b.refs - 1, refcnt := b.refcnt - 1))
    case WriteLog(i, j) =>
      Put(s, i, s.bufs[i].(data := s.bufs[j].data))
        .(m := m.(disk := m.disk[m.g.start + m.phase.k + 1 := s.bufs[j].data], phase := Filling(m.phase.k + 1)))
    case WriteHead(i) =>
      var data := PutHead(s.bufs[i].data, m.lh);
      Put(s, i, s.bufs[i].(data := data))
        .(m := m.(disk := m.disk[m.g.start := data], phase := Installing(0), committed := m.logical))
    case Install(i, j) =>
      Put(s, j, s.bufs[j].(data := s.bufs[i].data))
        .(m := m.(disk := m.disk[m.lh[m.phase.k] := s.bufs[i].data], phase := Unpinning(m.phase.k)))
    case Bunpin(j) =>
      Put(s, j, s.bufs[j].(refcnt := s.bufs[j].refcnt - 1)).(m := m.(phase := Installing(m.phase.k + 1)))
    case Erase(i) =>
      var data := PutHead(s.bufs[i].data, []);
      Put(s, i, s.bufs[i].(data := data)).(m := m.(disk := m.disk[m.g.start := data], lh := [], phase := Erased))
    case EndCommit => s.(m := m.(phase := Running, committing := false))
    case Crash =>
      State(seq(|s.bufs|, _ => EmptyBuf()),
            m.(lh := [], ops := seq(|m.ops|, _ => NoOp), outstanding := 0, committing := false,
               phase := Booting, worker := 0, logical := m.committed))
    case ReadHead(i) => s.(m := m.(lh := Head(s.bufs[i].data), phase := Recovering(0)))
    case RecInstall(i, j) =>
      Put(s, j, s.bufs[j].(data := s.bufs[i].data, dirty := false))
        .(m := m.(disk := m.disk[m.lh[m.phase.k] := s.bufs[i].data], phase := Recovering(m.phase.k + 1)))
    case RecErase(i) =>
      var data := PutHead(s.bufs[i].data, []);
      Put(s, i, s.bufs[i].(data := data)).(m := m.(disk := m.disk[m.g.start := data], lh := [], phase := Running))
  }

  function Put(s: State, i: nat, b: Buf): State
    requires i < |s.bufs|
  {
    s.(bufs := s.bufs[i := b])
  }
}
