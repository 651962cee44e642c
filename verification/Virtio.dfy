/**
 kernel/virtio_disk.c as a machine: threads in virtio_disk_rw(), the interrupt
 handler and the device, which takes requests from the avail ring and completes
 them in any order. All but the device run under vdisk_lock.
 */
module Virtio {
  const NUM := 8
  const TWO16 := 0x1_0000

  /** Where the request for a buffer is, with its three descriptors. */
  datatype Stage = Filled | Entered | Waiting
  datatype Phase = Idle | Busy(stage: Stage, i: nat, j: nat, k: nat)

  /**
   free[], the descriptors' next fields and NEXT flags, the two rings with their
   16-bit indices, info[] (the buffer, or -1, and the status), b->disk per buffer and
   the lock (a buffer's thread, INTR or -1). `pending` is what the device has taken.
   The last seven fields are history: how many entries were ever made available,
   taken, used and seen, of which the indices are the remainders; which requests the
   device has completed, and with what status; and whose every descriptor is.
   */
  datatype State = State(
    free: seq<bool>, next: seq<nat>, more: seq<bool>,
    avail: seq<nat>, availIdx: nat, devIdx: nat, used: seq<nat>, usedIdx: nat, drvIdx: nat,
    info: seq<int>, status: seq<nat>, disk: seq<bool>, phase: seq<Phase>, lock: int, pending: set<nat>,
    made: nat, taken: nat, done: nat, seen: nat, completed: seq<bool>, report: seq<nat>,
    owner: seq<int>)

  const INTR := -2

  datatype Step =
    | Start(b: nat) | Enter(b: nat) | Publish(b: nat) | Finish(b: nat)
    | Take | Complete(h: nat, st: nat)
    | IntrBegin | IntrNext | IntrEnd

  predicate Shape(s: State) {
    && |s.free| == |s.next| == |s.more| == |s.avail| == |s.used| == |s.info| == |s.status| == |s.owner| == NUM
    && |s.phase| == |s.disk| == |s.completed| == |s.report|
  }

  predicate IsBuf(s: State, b: int) { 0 <= b < |s.disk| }

  /** alloc_desc(): the lowest free descriptor from i on, or NUM. */
  function LowestFree(free: seq<bool>, i: nat): (d: nat)
    requires i <= |free|
    ensures i <= d <= |free| && (d < |free| ==> free[d]) && forall e :: i <= e < d ==> !free[e]
    decreases |free| - i
  {
    if i == |free| || free[i] then i else LowestFree(free, i + 1)
  }

  /** The three descriptors that alloc3_desc() takes, or |free| where there is none. */
  function First(free: seq<bool>): (d: nat)
    ensures d <= |free| && (d < |free| ==> free[d])
  {
    LowestFree(free, 0)
  }

  function Second(free: seq<bool>): (d: nat)
    ensures d <= |free| && (d < |free| ==> First(free) < d && free[d])
  {
    if First(free) < |free| then LowestFree(free, First(free) + 1) else |free|
  }

  function Third(free: seq<bool>): (d: nat)
    ensures d <= |free| && (d < |free| ==> First(free) < Second(free) < d && free[d])
  {
    if Second(free) < |free| then LowestFree(free, Second(free) + 1) else |free|
  }

  /** The descriptors free_chain() frees from i on: along the next fields as long as the flags say so. */
  function Chain(s: State, i: nat, n: nat): seq<nat>
    requires Shape(s)
    decreases n
  {
    if n == 0 || i >= NUM then [] else [i] + (if s.more[i] then Chain(s, s.next[i], n - 1) else [])
  }

  function SetAll<T>(s: seq<T>, ds: seq<nat>, x: T): (r: seq<T>)
    ensures |r| == |s|
  {
    if ds == [] then s
    else
      var t := SetAll(s, ds[1..], x);
      if ds[0] < |t| then t[ds[0] := x] else t
  }

  /** free_desc() of each of these descriptors: it is cleared and free. */
  function ChainFreed(s: State, ds: seq<nat>): (s': State)
    ensures Shape(s) ==> Shape(s')
  {
    s.(free := SetAll(s.free, ds, true), next := SetAll(s.next, ds, 0), more := SetAll(s.more, ds, false))
  }

  /** The test in virtio_disk_intr() that ends in a panic if it fails. */
  predicate StatusOk(s: State)
    requires Shape(s)
  {
    var id := s.used[s.drvIdx % NUM];
    id < NUM ==> s.status[id] == 0
  }

  predicate Enabled(s: State, step: Step) {
    Shape(s) &&
    match step
    case Start(b) =>
      IsBuf(s, b) && s.lock == -1 && s.phase[b] == Idle && Third(s.free) < NUM
    case Enter(b) => IsBuf(s, b) && s.lock == b && s.phase[b].Busy? && s.phase[b].stage == Filled
    case Publish(b) => IsBuf(s, b) && s.lock == b && s.phase[b].Busy? && s.phase[b].stage == Entered
    case Finish(b) => IsBuf(s, b) && s.lock == -1 && s.phase[b].Busy? && s.phase[b].stage == Waiting
        && s.phase[b].i < NUM && !s.disk[b]
    case Take => s.devIdx != s.availIdx
    case Complete(h, _) => h in s.pending
    case IntrBegin => s.lock == -1
    case IntrNext => s.lock == INTR && s.drvIdx != s.usedIdx && StatusOk(s)
    case IntrEnd => s.lock == INTR && s.drvIdx == s.usedIdx
  }

  function Inc(idx: nat): nat { (idx + 1) % TWO16 }

  /** The three descriptors formatted and recorded, and the buffer given to the device. */
  function Started(s: State, b: nat, i: nat, j: nat, k: nat): State
    requires Shape(s) && IsBuf(s, b) && i < NUM && j < NUM && k < NUM
  {
    s.(free := s.free[i := false][j := false][k := false],
       next := s.next[i := j][j := k][k := 0], more := s.more[i := true][j := true][k := false],
       info := s.info[i := b], status := s.status[i := 0xff], disk := s.disk[b := true],
       lock := b, phase := s.phase[b := Busy(Filled, i, j, k)],
       completed := s.completed[b := false], owner := s.owner[i := b][j := b][k := b])
  }

  function Apply(s: State, step: Step): State
    requires Enabled(s, step)
  {
    match step
    case Start(b) =>
      Started(s, b, First(s.free), Second(s.free), Third(s.free))
    case Enter(b) =>
      s.(avail := s.avail[s.availIdx % NUM := s.phase[b].i], phase := s.phase[b := s.phase[b].(stage := Entered)])
    case Publish(b) =>
      // then sleep(), which releases the lock
      s.(availIdx := Inc(s.availIdx), made := s.made + 1, lock := -1,
            phase := s.phase[b := s.phase[b].(stage := Waiting)])
    case Finish(b) =>
      var ds := Chain(s, s.phase[b].i, NUM);
      ChainFreed(s, ds).(info := s.info[s.phase[b].i := -1], owner := SetAll(s.owner, ds, -1),
            phase := s.phase[b := Idle])
    case Take =>
      s.(pending := s.pending + {s.avail[s.devIdx % NUM]}, devIdx := Inc(s.devIdx), taken := s.taken + 1)
    case Complete(h, st) =>
      s.(pending := s.pending - {h}, used := s.used[s.usedIdx % NUM := h], usedIdx := Inc(s.usedIdx),
            done := s.done + 1,
         status := if h < NUM then s.status[h := st] else s.status,
         report := if h < NUM && IsBuf(s, s.info[h]) then s.report[s.info[h] := st] else s.report,
         completed := if h < NUM && IsBuf(s, s.info[h]) then s.completed[s.info[h] := true] else s.completed)
    case IntrBegin => s.(lock := INTR)
    case IntrNext =>
      var id := s.used[s.drvIdx % NUM];
      s.(disk := if id < NUM
          && IsBuf(s, s.info[id]) then s.disk[s.info[id] := false] else s.disk, drvIdx := Inc(s.drvIdx),
            seen := s.seen + 1)
    case IntrEnd => s.(lock := -1)
  }

  // ----- the invariant -----

  predicate Holds(p: Phase, d: nat) { p.Busy? && (d == p.i || d == p.j || d == p.k) }

  /** The three descriptors of a request are linked into a chain, and its own. */
  ghost predicate ChainOk(s: State, b: nat)
    requires Shape(s) && IsBuf(s, b) && s.phase[b].Busy?
  {
    var p := s.phase[b];
    && p.i < p.j < p.k < NUM && s.next[p.i] == p.j && s.next[p.j] == p.k && s.more[p.i] && s.more[p.j] && !s.more[p.k]
    && s.info[p.i] == b && s.owner[p.i] == b && s.owner[p.j] == b && s.owner[p.k] == b
  }

  /** Every descriptor is free, or in the chain of exactly one request. */
  ghost predicate Owners(s: State)
    requires Shape(s)
  {
    && (forall b :: IsBuf(s, b) && s.phase[b].Busy? ==> ChainOk(s, b))
    && (forall d :: 0 <= d < NUM ==>
          if s.free[d] then s.owner[d] == -1 else IsBuf(s, s.owner[d]) && Holds(s.phase[s.owner[d]], d))
  }

  /** Only the thread that holds the lock is between taking descriptors and sleeping. */
  ghost predicate Locks(s: State)
    requires Shape(s)
  {
    && (forall b :: IsBuf(s, b) && s.phase[b].Busy? && s.phase[b].stage != Waiting ==>
         s.lock == b && s.disk[b] && !s.completed[b])
    && (forall b :: IsBuf(s, b) && s.phase[b].Busy? && !s.disk[b] ==> s.completed[b] && s.report[b] == 0)
    && (forall b :: IsBuf(s, b) && s.lock == b ==> s.phase[b].Busy? && s.phase[b].stage != Waiting)
    && (forall b :: IsBuf(s, b) && s.phase[b].Busy? && s.phase[b].stage == Entered ==>
         AvailAt(s, s.made) == s.phase[b].i)
  }

  predicate Counts(s: State) {
    && s.availIdx == s.made % TWO16 && s.devIdx == s.taken % TWO16 && s.usedIdx == s.done % TWO16
       && s.drvIdx == s.seen % TWO16
    && s.taken <= s.made && s.seen <= s.done
  }

  /** The n'th entry made available, or used, while it is in the ring. */
  function AvailAt(s: State, n: nat): nat
    requires Shape(s)
  {
    s.avail[n % NUM]
  }

  function UsedAt(s: State, n: nat): nat
    requires Shape(s)
  {
    s.used[n % NUM]
  }

  /** h is the head of a request its thread waits for, completed by the device or not. */
  ghost predicate Awaited(s: State, h: int, completed: bool)
    requires Shape(s)
  {
    0 <= h < NUM && IsBuf(s, s.info[h]) &&
    var b := s.info[h];
    s.phase[b].Busy? && s.phase[b].stage == Waiting && s.phase[b].i == h && s.disk[b] && s.completed[b] == completed
  }

  /** Entries made available and not yet taken by the device are different requests not completed. */
  ghost predicate AvailWindow(s: State)
    requires Shape(s)
  {
    && (forall n :: s.taken <= n < s.made ==> Awaited(s, AvailAt(s, n), false) && AvailAt(s, n) !in s.pending)
    && (forall n, m :: s.taken <= n < m < s.made ==> AvailAt(s, n) != AvailAt(s, m))
  }

  ghost predicate PendingOk(s: State)
    requires Shape(s)
  {
    forall h :: h in s.pending ==> Awaited(s, h, false)
  }

  /** The status of the request with head h is what the device reported of it. */
  predicate Reported(s: State, h: int)
    requires Shape(s)
  {
    0 <= h < NUM && IsBuf(s, s.info[h]) && s.status[h] == s.report[s.info[h]]
  }

  /** Entries used and not yet seen by the driver are different completed requests, with the device's status. */
  ghost predicate UsedWindow(s: State)
    requires Shape(s)
  {
    && (forall n :: s.seen <= n < s.done ==> Awaited(s, UsedAt(s, n), true) && Reported(s, UsedAt(s, n)))
    && (forall n, m :: s.seen <= n < m < s.done ==> UsedAt(s, n) != UsedAt(s, m))
  }

  ghost predicate Inv(s: State) {
    Shape(s) && Owners(s) && Locks(s) && Counts(s) && AvailWindow(s) && PendingOk(s) && UsedWindow(s)
  }
}
