/**
 log_write()'s "too big a transaction" test against begin_op()'s promise that each
 call may list MAXOPBLOCKS blocks. Exactly when can a call that keeps to its share
 meet the panic? The log region that mkfs makes, of LOGSIZE blocks with the header,
 holds one block less than begin_op() promises out; and the test comes before the
 search for a block that is listed already, which needs no room.
 */
module StorageGuard {
  import opened Counting
  import opened Words
  import opened LogCore
  import opened Storage
  import opened StorageSafety

  /** Some run from s0 ends in s. */
  ghost predicate ReachedFrom(s0: State, s: State) {
    exists steps, states :: IsRun(steps, states) && states[0] == s0 && states[|steps|] == s
  }

  /** Thread t calls log_write() on buffer i, within its share: a block not listed yet has to fit in it. */
  ghost predicate InBudget(s: State, t: nat, i: nat) {
    && Loaded(s, t, i) && t < |s.m.ops| && s.m.ops[t].InOp? && IsHome(s.m.g, |s.m.disk|, s.bufs[i].blockno)
    && (s.bufs[i].blockno !in s.m.lh ==> s.m.ops[t].used < MAXOPBLOCKS)
  }

  /** That call meets the panic. */
  ghost predicate Fires(s: State, t: nat, i: nat) { InBudget(s, t, i) && TooBig(s.m) }

  /** On a block that is not listed, on one that is, and with part of the share left. */
  ghost predicate FiresOnNew(s: State) { exists t: nat, i: nat :: Fires(s, t, i) && s.bufs[i].blockno !in s.m.lh }
  ghost predicate FiresOnListed(s: State) { exists t: nat, i: nat :: Fires(s, t, i) && s.bufs[i].blockno in s.m.lh }
  ghost predicate FiresWithin(s: State) { exists t: nat, i: nat :: Fires(s, t, i) && s.m.ops[t].used < MAXOPBLOCKS }

  lemma ReachStart(s0: State)
    requires Boot(s0)
    ensures ReachedFrom(s0, s0)
  {
    assert IsRun([], [s0]) && [s0][0] == s0;
  }

  lemma ReachStep(s0: State, s: State, step: Step)
    requires ReachedFrom(s0, s) && Enabled(s, step)
    ensures ReachedFrom(s0, Apply(s, step))
  {
    var steps, states :| IsRun(steps, states) && states[0] == s0 && states[|steps|] == s;
    var steps', states' := steps + [step], states + [Apply(s, step)];
    forall n | 0 <= n < |steps'|
      ensures StepAt(steps', states', n)
    {
      if n < |steps| { assert StepAt(steps, states, n); }
    }
    assert IsRun(steps', states') && states'[0] == s0 && states'[|steps'|] == Apply(s, step);
  }

  /** The first block after the log region. */
  function Base(g: Geometry): nat { g.start + g.size }

  /** How much thread t has used when k blocks are listed, each thread using up its share in turn. */
  function Used(k: nat, t: nat): nat {
    if k <= t * MAXOPBLOCKS then 0 else if k <= (t + 1) * MAXOPBLOCKS then k - t * MAXOPBLOCKS else MAXOPBLOCKS
  }

  predicate Idle(b: Buf) { b.refcnt == 0 && b.refs == 0 && b.holder == Nobody && !b.dirty }

  /** Nothing but the header and the first k blocks after the log is in the cache. */
  predicate OnlyUpTo(g: Geometry, b: Buf, k: nat) {
    b.dev == ROOTDEV ==> b.blockno == g.start || Base(g) <= b.blockno < Base(g) + k
  }

  /** Room for this: three threads, some buffers and LOGSIZE blocks after the log. */
  predicate Roomy(s: State) {
    && |s.m.ops| >= 3 && |s.bufs| >= 1 && s.m.g.size >= 1
    && |s.m.logical| == |s.m.disk| < 0x1_0000_0000 && Base(s.m.g) + LOGSIZE <= |s.m.disk|
  }

  /** Buffer i has the i-th block after the log, locked by the thread that listed it, and pinned. */
  predicate Listing(g: Geometry, b: Buf, i: nat) {
    && b.dev == ROOTDEV && b.blockno == Base(g) + i && b.valid && !b.dirty
    && b.refcnt == 2 && b.refs == 0 && b.holder == Thread(i / MAXOPBLOCKS)
  }

  /** Three calls in progress and k blocks listed. */
  ghost predicate Listed(s: State, k: nat) {
    && Roomy(s) && !s.m.committing && s.m.phase == Running && |s.m.lh| == k <= LOGSIZE && k <= |s.bufs|
    && s.m.outstanding == 3 && (forall t :: 3 <= t < |s.m.ops| ==> s.m.ops[t].NoOp?)
    && (forall i :: 0 <= i < k ==> s.m.lh[i] == Base(s.m.g) + i)
    && (forall t :: 0 <= t < 3 ==> s.m.ops[t] == InOp(Used(k, t)))
    && (forall i :: k <= i < |s.bufs| ==> Idle(s.bufs[i]))
    && (forall i :: 0 <= i < |s.bufs| ==> OnlyUpTo(s.m.g, s.bufs[i], k))
    && (forall i :: 0 <= i < k ==> Listing(s.m.g, s.bufs[i], i))
    && (forall i :: k <= i < |s.bufs| && i > 0 ==> s.bufs[i].dev != ROOTDEV)
  }

  /** Buffer i once thread t has read block b into it. */
  function ReadInto(s: State, i: nat, b: nat, t: nat): State
    requires i < |s.bufs| && b < |s.m.disk|
  {
    Put(s, i, Buf(ROOTDEV, b, true, 1, 0, Thread(t), s.m.disk[b], false))
  }

  lemma Load(s0: State, s: State, i: nat, b: nat, t: nat)
    requires ReachedFrom(s0, s) && i < |s.bufs| && Idle(s.bufs[i]) && b < |s.m.disk|
    requires forall j :: 0 <= j < |s.bufs| && s.bufs[j].dev == ROOTDEV ==> s.bufs[j].blockno != b
    requires Rebooting(s.m) ==> t == s.m.worker && InLog(s.m.g, b)
    ensures ReachedFrom(s0, ReadInto(s, i, b, t))
  {
    ReachStep(s0, s, BgetRecycle(i, b));
    var s1 := Apply(s, BgetRecycle(i, b));
    ReachStep(s0, s1, Lock(t, i));
    var s2 := Apply(s1, Lock(t, i));
    ReachStep(s0, s2, Fill(t, i));
    assert Apply(s2, Fill(t, i)) == ReadInto(s, i, b, t);
  }

  /** Thread t has read block b into buffer i and logged it. */
  function LogInto(s: State, i: nat, b: uint, t: nat): State
    requires i < |s.bufs| && b < |s.m.disk| == |s.m.logical| && t < |s.m.ops| && s.m.ops[t].InOp?
  {
    Put(s, i, Buf(ROOTDEV, b, true, 2, 0, Thread(t), s.m.disk[b], false))
      .(m := s.m.(logical := s.m.logical[b := s.m.disk[b]], lh := s.m.lh + [b],
            ops := s.m.ops[t := InOp(s.m.ops[t].used + 1)]))
  }

  lemma LoadAndLog(s0: State, s: State, i: nat, b: uint, t: nat)
    requires ReachedFrom(s0, s) && i < |s.bufs| && Idle(s.bufs[i]) && IsHome(s.m.g, |s.m.disk|, b)
    requires forall j :: 0 <= j < |s.bufs| && s.bufs[j].dev == ROOTDEV ==> s.bufs[j].blockno != b
    requires !Rebooting(s.m) && |s.m.logical| == |s.m.disk| < 0x1_0000_0000 && b !in s.m.lh && !TooBig(s.m)
    requires t < |s.m.ops| && s.m.ops[t].InOp? && s.m.ops[t].used < MAXOPBLOCKS
    ensures ReachedFrom(s0, LogInto(s, i, b, t))
  {
    Load(s0, s, i, b, t);
    var s1 := ReadInto(s, i, b, t);
    ReachStep(s0, s1, LogWrite(t, i));
    assert Apply(s1, LogWrite(t, i)) == LogInto(s, i, b, t);
  }

  lemma ListedNext(s: State, k: nat, b: uint, t: nat)
    requires Listed(s, k) && k + 1 < s.m.g.size && k < LOGSIZE && k < |s.bufs|
    requires b == Base(s.m.g) + k && t == k / MAXOPBLOCKS
    ensures Listed(LogInto(s, k, b, t), k + 1)
  {
    UseOne(k);
  }

  lemma ListOne(s0: State, s: State, k: nat) returns (s': State)
    requires ReachedFrom(s0, s) && Listed(s, k) && k + 1 < s.m.g.size && k < LOGSIZE && k < |s.bufs|
    ensures ReachedFrom(s0, s') && Listed(s', k + 1) && s'.m.g == s.m.g && |s'.bufs| == |s.bufs|
  {
    var t: nat, b: uint := k / MAXOPBLOCKS, Base(s.m.g) + k;
    assert s.m.ops[t] == InOp(Used(k, t)) && Used(k, t) < MAXOPBLOCKS;
    LoadAndLog(s0, s, k, b, t);
    ListedNext(s, k, b, t);
    s' := LogInto(s, k, b, t);
  }

  lemma UseOne(k: nat)
    requires k < LOGSIZE
    ensures forall t :: 0 <= t < 3 ==> Used(k + 1, t) == if t == k / MAXOPBLOCKS then Used(k, t) + 1 else Used(k, t)
  {}

  lemma {:induction false} ListMany(s0: State, s: State, k: nat, n: nat) returns (s': State)
    requires ReachedFrom(s0, s) && Listed(s, k) && k <= n < s.m.g.size && n <= LOGSIZE && n <= |s.bufs|
    ensures ReachedFrom(s0, s') && Listed(s', n) && s'.m.g == s.m.g && |s'.bufs| == |s.bufs|
    decreases n - k
  {
    if k == n {
      s' := s;
    } else {
      var s1 := ListOne(s0, s, k);
      s' := ListMany(s0, s1, k + 1, n);
    }
  }

  // ----- from power-on to three calls in progress -----

  /** Power-on with an empty log. */
  ghost predicate CleanBoot(s: State) {
    Boot(s) && Roomy(s) && s.m.worker == 0 && HeadIs(s.m.g, s.m.disk, [])
  }

  /** The state after recovery of an empty log, its header's buffer let go again. */
  function Recovered(s: State): State
    requires |s.bufs| > 0 && s.m.g.start < |s.m.disk|
  {
    var data := PutHead(s.m.disk[s.m.g.start], []);
    Put(s, 0, Buf(ROOTDEV, s.m.g.start, true, 0, 0, Nobody, data, false))
      .(m := s.m.(disk := s.m.disk[s.m.g.start := data], phase := Running))
  }

  lemma Recover(s0: State)
    requires CleanBoot(s0)
    ensures ReachedFrom(s0, Recovered(s0))
  {
    ReachStart(s0);
    Load(s0, s0, 0, s0.m.g.start, 0);
    var s1 := ReadInto(s0, 0, s0.m.g.start, 0);
    ReachStep(s0, s1, ReadHead(0));
    var s2 := Apply(s1, ReadHead(0));
    ReachStep(s0, s2, RecErase(0));
    var s3 := Apply(s2, RecErase(0));
    LetGo(s0, s3);
    assert Recovered(s0) == Put(s3, 0, s3.bufs[0].(holder := Nobody, refcnt := 0));
  }

  lemma LetGo(s0: State, s: State)
    requires ReachedFrom(s0, s) && HeldBy(s, 0, 0) && !s.bufs[0].dirty && s.bufs[0].refs == 0 && s.bufs[0].refcnt == 1
    ensures ReachedFrom(s0, Put(s, 0, s.bufs[0].(holder := Nobody, refcnt := 0)))
  {
    ReachStep(s0, s, Unlock(0, 0));
    var s1 := Apply(s, Unlock(0, 0));
    ReachStep(s0, s1, Unref(0));
    assert Apply(s1, Unref(0)) == Put(s, 0, s.bufs[0].(holder := Nobody, refcnt := 0));
  }

  /** The first n threads have begun a call. */
  function Begun(s: State, n: nat): State
    requires n <= |s.m.ops|
  {
    s.(m := s.m.(ops := seq(|s.m.ops|, t requires 0 <= t < |s.m.ops| => if t < n then InOp(0) else s.m.ops[t]),
          outstanding := n))
  }

  lemma Begin(s0: State, s: State, n: nat)
    requires n < 3 <= |s.m.ops| && ReachedFrom(s0, Begun(s, n))
    requires s.m.phase == Running && !s.m.committing && s.m.lh == [] && s.m.ops[n].NoOp?
    ensures ReachedFrom(s0, Begun(s, n + 1))
  {
    ReachStep(s0, Begun(s, n), BeginOp(n));
    assert Apply(Begun(s, n), BeginOp(n)).m.ops == Begun(s, n + 1).m.ops;
  }

  lemma BeginThree(s0: State) returns (s: State)
    requires CleanBoot(s0)
    ensures ReachedFrom(s0, s) && Listed(s, 0) && s.m.g == s0.m.g && |s.bufs| == |s0.bufs|
  {
    Recover(s0);
    var r := Recovered(s0);
    assert Begun(r, 0).m.ops == r.m.ops;
    Begin(s0, r, 0);
    Begin(s0, r, 1);
    Begin(s0, r, 2);
    s := Begun(r, 3);
  }

  /** The list is as long as it can be. */
  lemma ListAll(s0: State) returns (s: State, k: nat)
    requires CleanBoot(s0) && |s0.bufs| >= LOGSIZE
    ensures ReachedFrom(s0, s) && Listed(s, k) && s.m.g == s0.m.g && |s.bufs| == |s0.bufs| && TooBig(s.m)
    ensures k == if s0.m.g.size <= LOGSIZE then s0.m.g.size - 1 else LOGSIZE
  {
    var s1 := BeginThree(s0);
    k := if s0.m.g.size <= LOGSIZE then s0.m.g.size - 1 else LOGSIZE;
    s := ListMany(s0, s1, 0, k);
  }

  lemma FirstIsListed(s: State, k: nat)
    requires Listed(s, k) && k > 0
    ensures InBudget(s, 0, 0) && s.bufs[0].blockno in s.m.lh
  {
    assert s.m.lh[0] == Base(s.m.g) == s.bufs[0].blockno;
    assert s.m.ops[0] == InOp(Used(k, 0));
  }

  /** With the list full, the next thread reads one more block. */
  lemma OneMore(s0: State, s: State, k: nat) returns (s': State)
    requires ReachedFrom(s0, s) && Listed(s, k) && k < LOGSIZE && k < |s.bufs|
    ensures ReachedFrom(s0, s') && s'.m == s.m && InBudget(s', k / MAXOPBLOCKS, k) && s'.bufs[k].blockno !in s.m.lh
    ensures s'.m.ops[k / MAXOPBLOCKS].used < MAXOPBLOCKS
  {
    var t: nat, b := k / MAXOPBLOCKS, Base(s.m.g) + k;
    assert s.m.ops[t] == InOp(Used(k, t)) && Used(k, t) < MAXOPBLOCKS;
    Load(s0, s, k, b, t);
    s' := ReadInto(s, k, b, t);
  }

  /**
   Some run leads to a panic on a block that is not listed yet if and only if the
   log region has no room for LOGSIZE blocks besides its header.
   */
  lemma NewBlockFiresIff(s0: State)
    requires CleanBoot(s0) && |s0.bufs| >= LOGSIZE
    ensures (exists s :: ReachedFrom(s0, s) && FiresOnNew(s)) <==> s0.m.g.size <= LOGSIZE
    ensures (exists s :: ReachedFrom(s0, s) && FiresWithin(s)) <==> s0.m.g.size <= LOGSIZE
  {
    if s0.m.g.size <= LOGSIZE {
      var s1, k := ListAll(s0);
      var s := OneMore(s0, s1, k);
      assert Fires(s, k / MAXOPBLOCKS, k);
      assert ReachedFrom(s0, s) && FiresOnNew(s) && FiresWithin(s);
    } else {
      forall s | ReachedFrom(s0, s)
        ensures !FiresOnNew(s) && !FiresWithin(s)
      {
        NeverFires(s0, s);
      }
    }
  }

  /**
   And some run leads to a panic on a block that is listed already, which needs no
   room, however large the region is, as long as it can hold any block at all.
   */
  lemma ListedBlockFiresIff(s0: State)
    requires CleanBoot(s0) && |s0.bufs| >= LOGSIZE
    ensures (exists s :: ReachedFrom(s0, s) && FiresOnListed(s)) <==> s0.m.g.size > 1
  {
    if s0.m.g.size > 1 {
      var s, k := ListAll(s0);
      FirstIsListed(s, k);
      assert Fires(s, 0, 0);
      assert ReachedFrom(s0, s) && FiresOnListed(s);
    } else {
      forall s | ReachedFrom(s0, s)
        ensures !FiresOnListed(s)
      {
        ReachedInv(s0, s);
      }
    }
  }

  lemma ReachedInv(s0: State, s: State)
    requires ReachedFrom(s0, s)
    ensures Inv(s) && s.m.g == s0.m.g && |s.bufs| == |s0.bufs|
  {
    var steps, states :| IsRun(steps, states) && states[0] == s0 && states[|steps|] == s;
    RunInv(steps, states, |steps|);
    CommittedIs(steps, states, |steps|);
    SameBuffers(steps, states, |steps|);
  }

  /** In a region with room, only a call that has used up its share can meet the panic, and on a listed block. */
  lemma NeverFires(s0: State, s: State)
    requires CleanBoot(s0) && ReachedFrom(s0, s) && s0.m.g.size > LOGSIZE
    ensures forall t: nat, i: nat :: Fires(s, t, i) ==> s.m.ops[t].used == MAXOPBLOCKS && s.bufs[i].blockno in s.m.lh
  {
    ReachedInv(s0, s);
    OpsBounds(s.m.ops);
    forall t: nat, i: nat | Fires(s, t, i)
      ensures s.m.ops[t].used == MAXOPBLOCKS
    {
      assert Share(s.m.ops[t]) <= Reserved(s.m.ops);
    }
  }

  // ----- a commit without buffers -----

  /** write_log() is to read a log block that is not in the cache, and bget() finds every buffer in use. */
  ghost predicate NoBuffer(s: State) {
    && s.m.phase.Filling? && s.m.phase.k < |s.m.lh|
    && (forall i :: 0 <= i < |s.bufs| ==> s.bufs[i].refcnt > 0)
    && forall i :: 0 <= i < |s.bufs| && s.bufs[i].dev == ROOTDEV ==> s.bufs[i].blockno != s.m.g.start + s.m.phase.k + 1
  }

  /** And no thread has any buffer: the list alone has pinned them all. */
  ghost predicate Starved(s: State) {
    NoBuffer(s) && forall i :: 0 <= i < |s.bufs| ==> s.bufs[i].refs == 0 && s.bufs[i].holder == Nobody
  }

  /** The first k buffers have been let go by the threads that listed their blocks. */
  function LetGoOf(s: State, k: nat): State
    requires k <= |s.bufs|
  {
    s.(bufs := seq(|s.bufs|, i requires 0 <= i < |s.bufs| =>
                     if i < k then s.bufs[i].(holder := Nobody, refcnt := 1) else s.bufs[i]))
  }

  lemma {:induction false} LetAllGo(s0: State, s: State, n: nat, k: nat)
    requires ReachedFrom(s0, s) && Listed(s, n) && k <= n
    ensures ReachedFrom(s0, LetGoOf(s, k))
  {
    if k == 0 {
      assert LetGoOf(s, 0).bufs == s.bufs;
    } else {
      LetAllGo(s0, s, n, k - 1);
      var i, s1 := k - 1, LetGoOf(s, k - 1);
      assert Listing(s.m.g, s.bufs[i], i);
      ReachStep(s0, s1, Unlock(i / MAXOPBLOCKS, i));
      var s2 := Apply(s1, Unlock(i / MAXOPBLOCKS, i));
      ReachStep(s0, s2, Unref(i));
      assert Apply(s2, Unref(i)).bufs == LetGoOf(s, k).bufs;
    }
  }

  lemma EndOne(s0: State, s: State, t: nat)
    requires ReachedFrom(s0, s) && t < |s.m.ops| && s.m.ops[t].InOp? && s.m.outstanding > 0
    requires forall i :: 0 <= i < |s.bufs| ==> s.bufs[i].holder == Nobody
    ensures ReachedFrom(s0, Apply(s, EndOp(t)))
  {
    ReachStep(s0, s, EndOp(t));
  }

  /** The calls end and the commit of n listed blocks begins, with no thread holding a buffer. */
  lemma CommitBegins(s0: State, s: State, n: nat) returns (s': State)
    requires ReachedFrom(s0, s) && Listed(s, n) && n > 0
    ensures ReachedFrom(s0, s') && s'.bufs == LetGoOf(s, n).bufs
    ensures s'.m.phase == Filling(0) && s'.m.lh == s.m.lh && s'.m.g == s.m.g && s'.m.disk == s.m.disk
  {
    LetAllGo(s0, s, n, n);
    var s1 := LetGoOf(s, n);
    forall i | 0 <= i < |s1.bufs|
      ensures s1.bufs[i].holder == Nobody
    {
      if i < n { assert Listing(s.m.g, s.bufs[i], i); } else { assert Idle(s.bufs[i]); }
    }
    assert forall t :: 0 <= t < 3 ==> s1.m.ops[t] == InOp(Used(n, t));
    EndOne(s0, s1, 0);
    var s2 := Apply(s1, EndOp(0));
    EndOne(s0, s2, 1);
    var s3 := Apply(s2, EndOp(1));
    EndOne(s0, s3, 2);
    s' := Apply(s3, EndOp(2));
  }

  /** With a block listed for every buffer, the commit starves. */
  lemma Starves(s0: State, s: State, n: nat) returns (s': State)
    requires ReachedFrom(s0, s) && Listed(s, n) && n == |s.bufs| < s.m.g.size
    ensures ReachedFrom(s0, s') && Starved(s')
  {
    s' := CommitBegins(s0, s, n);
    forall i | 0 <= i < |s'.bufs|
      ensures s'.bufs[i].refcnt > 0 && s'.bufs[i].refs == 0 && s'.bufs[i].holder == Nobody
      ensures s'.bufs[i].blockno > s.m.g.start + 1
    {
      assert Listing(s.m.g, s.bufs[i], i);
    }
  }

  lemma {:induction false} SameBuffers(steps: seq<Step>, states: seq<State>, n: nat)
    requires IsRun(steps, states) && n < |states|
    ensures |states[n].bufs| == |states[0].bufs|
  {
    if n > 0 {
      SameBuffers(steps, states, n - 1);
      assert StepAt(steps, states, n - 1);
    }
  }

  /** Where block b is in the list. */
  ghost function Place(lh: seq<uint>, b: nat): (k: nat)
    requires b in lh
    ensures k < |lh| && lh[k] == b
  {
    var k: nat :| k < |lh| && lh[k] == b;
    k
  }

  lemma PinnedIsListed(m: LogState, b: Buf)
    requires StorageSafety.Shape(m) && BufOk(m, b) && b.refcnt > 0 && b.refs == 0 && b.holder == Nobody
    ensures b.dev == ROOTDEV && b.blockno in m.lh
  {}

  /** If all buffers are in use by pins alone, each of them has a listed block of its own. */
  lemma PinsBound(s: State)
    requires Inv(s) && Starved(s)
    ensures |s.bufs| <= |s.m.lh| <= LOGSIZE && |s.m.lh| < s.m.g.size
  {
    forall i | 0 <= i < |s.bufs|
      ensures s.bufs[i].dev == ROOTDEV && s.bufs[i].blockno in s.m.lh
    {
      PinnedIsListed(s.m, s.bufs[i]);
    }
    var places: seq<nat> := seq(|s.bufs|, i requires 0 <= i < |s.bufs| => Place(s.m.lh, s.bufs[i].blockno));
    assert Distinct(places);
    DistinctBound(places, |s.m.lh|);
  }

  /**
   Pins alone: some run leads to a commit without a buffer though no thread has one, if and
   only if the transaction can grow to as many blocks as there are buffers.
   */
  lemma StarvedIff(s0: State)
    requires CleanBoot(s0)
    ensures (exists s :: ReachedFrom(s0, s) && Starved(s)) <==> |s0.bufs| <= LOGSIZE && |s0.bufs| < s0.m.g.size
  {
    if |s0.bufs| <= LOGSIZE && |s0.bufs| < s0.m.g.size {
      var s1 := BeginThree(s0);
      var s2 := ListMany(s0, s1, 0, |s0.bufs|);
      var s := Starves(s0, s2, |s0.bufs|);
      assert ReachedFrom(s0, s) && Starved(s);
    } else {
      forall s | ReachedFrom(s0, s)
        ensures !Starved(s)
      {
        ReachedInv(s0, s);
        if Starved(s) { PinsBound(s); }
      }
    }
  }

  // ----- pins and readers -----

  /** The j-th block other than the first log block and the first block after the log. */
  function Other(g: Geometry, j: nat): nat {
    if j < g.start + 1 then j else if j + 1 < Base(g) then j + 1 else j + 2
  }

  lemma Others(g: Geometry, j: nat, l: nat)
    requires g.size > 1
    ensures Other(g, j) <= j + 2 && Other(g, j) != g.start + 1 && Other(g, j) != Base(g)
    ensures j < l ==> Other(g, j) < Other(g, l)
  {}

  /** Buffer i is referred to and has its block. */
  predicate InHand(g: Geometry, b: Buf, i: nat) {
    b.dev == ROOTDEV && b.refcnt > 0 && b.blockno == if i == 0 then Base(g) else Other(g, i - 1)
  }

  /** A commit of one block has begun, and the first n buffers are in hand. */
  ghost predicate Reading(s: State, n: nat) {
    && s.m.g.size > 1 && s.m.phase == Filling(0) && |s.m.lh| == 1 && 0 < n <= |s.bufs| < |s.m.disk|
    && (forall i :: 0 <= i < n ==> InHand(s.m.g, s.bufs[i], i))
    && (forall i :: n <= i < |s.bufs| ==> Idle(s.bufs[i]) && s.bufs[i].dev != ROOTDEV)
  }

  /** A reader takes one more buffer, which needs no begin_op(). */
  lemma ReadOne(s0: State, s: State, n: nat) returns (s': State)
    requires ReachedFrom(s0, s) && Reading(s, n) && n < |s.bufs|
    ensures ReachedFrom(s0, s') && Reading(s', n + 1) && |s'.bufs| == |s.bufs|
  {
    var b := Other(s.m.g, n - 1);
    Others(s.m.g, n - 1, n);
    forall j | 0 <= j < |s.bufs| && s.bufs[j].dev == ROOTDEV
      ensures s.bufs[j].blockno != b
    {
      assert InHand(s.m.g, s.bufs[j], j);
      if j > 0 { Others(s.m.g, j - 1, n - 1); }
    }
    Load(s0, s, n, b, 3);
    s' := ReadInto(s, n, b, 3);
  }

  lemma {:induction false} ReadMany(s0: State, s: State, n: nat) returns (s': State)
    requires ReachedFrom(s0, s) && Reading(s, n)
    ensures ReachedFrom(s0, s') && Reading(s', |s'.bufs|)
    decreases |s.bufs| - n
  {
    if n == |s.bufs| {
      s' := s;
    } else {
      var s1 := ReadOne(s0, s, n);
      s' := ReadMany(s0, s1, n + 1);
    }
  }

  lemma ReadersStarve(s: State)
    requires Reading(s, |s.bufs|)
    ensures NoBuffer(s)
  {
    forall i | 0 <= i < |s.bufs|
      ensures s.bufs[i].refcnt > 0 && s.bufs[i].blockno != s.m.g.start + 1
    {
      assert InHand(s.m.g, s.bufs[i], i);
      if i > 0 { Others(s.m.g, i - 1, i); }
    }
  }

  /** One block is listed, the calls end, and readers take the other buffers. */
  lemma FirstCommit(s0: State) returns (s: State)
    requires CleanBoot(s0) && s0.m.g.size > 1 && |s0.bufs| < |s0.m.disk|
    ensures ReachedFrom(s0, s) && NoBuffer(s)
  {
    var s1 := BeginThree(s0);
    var s2 := ListMany(s0, s1, 0, 1);
    var s3 := CommitBegins(s0, s2, 1);
    assert Listing(s2.m.g, s2.bufs[0], 0);
    SameDisks(s0, s2);
    assert Reading(s3, 1);
    s := ReadMany(s0, s3, 1);
    ReadersStarve(s);
  }

  /** A buffer in use has a block of the disk. */
  ghost predicate UsedHasBlock(s: State) {
    forall i :: 0 <= i < |s.bufs| && s.bufs[i].refcnt > 0 ==> s.bufs[i].dev == ROOTDEV
  }

  lemma UsedStep(s: State, step: Step)
    requires UsedHasBlock(s) && Enabled(s, step)
    ensures UsedHasBlock(Apply(s, step)) && |Apply(s, step).m.disk| == |s.m.disk|
  {}

  lemma {:induction false} RunUsed(steps: seq<Step>, states: seq<State>, n: nat)
    requires IsRun(steps, states) && n < |states|
    ensures UsedHasBlock(states[n]) && |states[n].m.disk| == |states[0].m.disk|
  {
    if n > 0 {
      RunUsed(steps, states, n - 1);
      assert StepAt(steps, states, n - 1);
      UsedStep(states[n - 1], steps[n - 1]);
    }
  }

  lemma SameDisks(s0: State, s: State)
    requires ReachedFrom(s0, s)
    ensures UsedHasBlock(s) && |s.m.disk| == |s0.m.disk|
  {
    var steps, states :| IsRun(steps, states) && states[0] == s0 && states[|steps|] == s;
    RunUsed(steps, states, |steps|);
  }

  /** All buffers in use have different blocks, none of them the one wanted. */
  lemma BuffersBound(s: State)
    requires Inv(s) && UsedHasBlock(s) && NoBuffer(s)
    ensures |s.bufs| < |s.m.disk| && s.m.g.size > 1
  {
    var b := s.m.g.start + s.m.phase.k + 1;
    var blocks: seq<nat> := seq(|s.bufs|, i requires 0 <= i < |s.bufs| => s.bufs[i].blockno) + [b];
    forall i | 0 <= i < |s.bufs|
      ensures s.bufs[i].dev == ROOTDEV && s.bufs[i].blockno < |s.m.disk|
    {
      assert BufOk(s.m, s.bufs[i]);
    }
    assert Distinct(blocks);
    DistinctBound(blocks, |s.m.disk|);
  }

  /**
   Whoever has buffers: some run leads to a commit without a buffer if and only if the log
   has room for a block at all and the cache is smaller than the disk.
   */
  lemma NoBufferIff(s0: State)
    requires CleanBoot(s0)
    ensures (exists s :: ReachedFrom(s0, s) && NoBuffer(s)) <==> s0.m.g.size > 1 && |s0.bufs| < |s0.m.disk|
  {
    if s0.m.g.size > 1 && |s0.bufs| < |s0.m.disk| {
      var s := FirstCommit(s0);
      assert ReachedFrom(s0, s) && NoBuffer(s);
    } else {
      forall s | ReachedFrom(s0, s)
        ensures !NoBuffer(s)
      {
        ReachedInv(s0, s);
        SameDisks(s0, s);
        if NoBuffer(s) { BuffersBound(s); }
      }
    }
  }

  /**
   With the NBUF buffers of kernel/param.h: as long as threads may hold buffers, a run leads to
   bget()'s panic during a commit, whatever the size of a log that can hold a block. Even if
   none does, a run leads to one panic or the other: log_write()'s on a new block if the region
   has at most LOGSIZE blocks, and bget()'s, by pins alone, if it has more.
   */
  lemma OnePanicOrTheOther(s0: State)
    requires CleanBoot(s0) && |s0.bufs| == NBUF
    ensures (exists s :: ReachedFrom(s0, s) && NoBuffer(s)) <==> s0.m.g.size > 1
    ensures (exists s :: ReachedFrom(s0, s) && FiresOnNew(s)) <==> !exists s :: ReachedFrom(s0, s) && Starved(s)
  {
    NoBufferIff(s0);
    NewBlockFiresIff(s0);
    StarvedIff(s0);
  }

  // ----- calls that log a small set of blocks -----

  /** Steps n0 to n are part of one call of thread t. */
  ghost predicate During(steps: seq<Step>, n0: nat, n: nat, t: nat) {
    && n0 < n <= |steps| && steps[n0] == BeginOp(t)
    && forall k :: n0 < k < n ==> steps[k] != EndOp(t) && !steps[k].Crash?
  }

  ghost predicate LogsOnly(steps: seq<Step>, states: seq<State>, n0: nat, n: nat, t: nat, blocks: set<nat>)
    requires n <= |steps| < |states|
  {
    forall k :: n0 < k < n && steps[k].LogWrite? && steps[k].t == t && steps[k].i < |states[k].bufs| ==>
      states[k].bufs[steps[k].i].blockno in blocks
  }

  /** `mine` are the blocks thread t's call has listed: as many as it has used up, and all still listed. */
  ghost predicate Mine(s: State, t: nat, mine: set<nat>, blocks: set<nat>) {
    t < |s.m.ops| && s.m.ops[t] == InOp(|mine|) && mine <= blocks && forall b :: b in mine ==> b in s.m.lh
  }

  /** While thread t's call is in progress the list only grows, and its share is used by its own new blocks. */
  lemma StepListed(s: State, step: Step, t: nat)
    requires Inv(s) && Enabled(s, step) && t < |s.m.ops| && s.m.ops[t].InOp? && step != EndOp(t) && !step.Crash?
    ensures var s' := Apply(s, step);
            && |s'.m.ops| == |s.m.ops| && (forall b :: b in s.m.lh ==> b in s'.m.lh)
            && if step.LogWrite? && step.t == t && s.bufs[step.i].blockno !in s.m.lh
               then s'.m.ops[t] == InOp(s.m.ops[t].used + 1) && s.bufs[step.i].blockno in s'.m.lh
               else s'.m.ops[t] == s.m.ops[t]
  {
    OpsBounds(s.m.ops);
  }

  lemma MineStep(s: State, step: Step, t: nat, mine: set<nat>, blocks: set<nat>) returns (mine': set<nat>)
    requires Inv(s) && Enabled(s, step) && Mine(s, t, mine, blocks) && step != EndOp(t) && !step.Crash?
    requires step.LogWrite? && step.t == t ==> s.bufs[step.i].blockno in blocks
    ensures Mine(Apply(s, step), t, mine', blocks)
  {
    StepListed(s, step, t);
    mine' := mine;
    if step.LogWrite? && step.t == t && s.bufs[step.i].blockno !in s.m.lh {
      mine' := mine + {s.bufs[step.i].blockno};
    }
  }

  lemma MineBegins(s: State, t: nat, blocks: set<nat>)
    requires Enabled(s, BeginOp(t))
    ensures Mine(Apply(s, BeginOp(t)), t, {}, blocks)
  {}

  lemma {:induction false} ListedBlocks(steps: seq<Step>, states: seq<State>, n0: nat, n: nat, t: nat, blocks: set<nat>)
      returns (mine: set<nat>)
    requires IsRun(steps, states) && During(steps, n0, n, t) && LogsOnly(steps, states, n0, n, t, blocks)
    ensures Mine(states[n], t, mine, blocks)
    decreases n
  {
    RunInv(steps, states, n - 1);
    assert StepAt(steps, states, n - 1);
    if n - 1 == n0 {
      mine := {};
      MineBegins(states[n - 1], t, blocks);
    } else {
      var before := ListedBlocks(steps, states, n0, n - 1, t, blocks);
      mine := MineStep(states[n - 1], steps[n - 1], t, before, blocks);
    }
  }

  /**
   A call that logs blocks of a set of at most MAXOPBLOCKS keeps to its share, however
   often it logs them and whatever others do: each of its log_writes is in budget.
   */
  lemma SmallCallsFit(steps: seq<Step>, states: seq<State>, n0: nat, n: nat, t: nat, blocks: set<nat>, i: nat)
    requires IsRun(steps, states) && During(steps, n0, n, t) && LogsOnly(steps, states, n0, n, t, blocks)
    requires |blocks| <= MAXOPBLOCKS && Loaded(states[n], t, i) && states[n].bufs[i].blockno in blocks
    requires IsHome(states[n].m.g, |states[n].m.disk|, states[n].bufs[i].blockno)
    ensures InBudget(states[n], t, i) && states[n].m.ops[t].used <= |blocks|
  {
    var mine := ListedBlocks(steps, states, n0, n, t, blocks);
    var b := states[n].bufs[i].blockno;
    SubsetSize(mine, blocks);
    if b !in states[n].m.lh { SubsetSize(mine + {b}, blocks); }
  }
}
