/** What every run of the storage machine keeps. */
module StorageSafety {
  import opened Words
  import opened LogCore
  import opened Storage

  /** Block b is listed at position n or later. */
  ghost predicate InFrom(lh: seq<uint>, n: nat, b: int) {
    exists k :: n <= k < |lh| && lh[k] == b
  }

  /** Positions of the list from here on are pinned in the cache. */
  function PinFrom(m: LogState): nat {
    match m.phase
    case Running => 0
    case Filling(_) => 0
    case Installing(k) => k
    case Unpinning(k) => k
    case Erased => |m.lh|
    case Booting => |m.lh|
    case Recovering(_) => |m.lh|
  }

  /** Positions of the list from here on are newer in the cache than on disk. */
  function StaleFrom(m: LogState): nat {
    if m.phase.Unpinning? then m.phase.k + 1 else PinFrom(m)
  }

  ghost predicate IsPinned(m: LogState, b: int) { InFrom(m.lh, PinFrom(m), b) }

  /** Buffer b holds the contents of block n. */
  predicate Holds(b: Buf, n: int) { b.dev == ROOTDEV && b.blockno == n && b.valid }

  ghost predicate Cached(bufs: seq<Buf>, n: int) {
    exists i :: 0 <= i < |bufs| && Holds(bufs[i], n)
  }

  /** The newest logged contents of a home block; a log block's contents on disk. */
  function Latest(m: LogState, b: nat): Block
    requires b < |m.disk| == |m.logical|
  {
    if InLog(m.g, b) then m.disk[b] else m.logical[b]
  }

  // ----- the log's part of the invariant -----

  ghost predicate Shape(m: LogState) {
    && Fits(m.g, m.disk) && |m.logical| == |m.committed| == |m.disk|
    && Loggable(m.g, |m.disk|, m.lh)
    && (m.phase.Filling? || m.phase.Installing? || m.phase.Recovering? ==> m.phase.k <= |m.lh|)
    && (m.phase.Unpinning? ==> m.phase.k < |m.lh|)
  }

  ghost predicate DiskAgrees(m: LogState)
    requires Shape(m)
  {
    !Rebooting(m) ==>
      forall b :: IsHome(m.g, |m.disk|, b) && !InFrom(m.lh, StaleFrom(m), b) ==> m.disk[b] == m.logical[b]
  }

  ghost predicate LogOnDisk(m: LogState)
    requires Shape(m)
  {
    && RecoversTo(m.g, m.disk, m.committed)
    && match m.phase
       case Running => HeadIs(m.g, m.disk, [])
       case Filling(k) =>
         HeadIs(m.g, m.disk, []) && forall n :: 0 <= n < k ==> Logged(m.g, m.disk, n) == m.logical[m.lh[n]]
       case Installing(k) => HeadIs(m.g, m.disk, m.lh) && SameHome(m.g, m.committed, m.logical)
       case Unpinning(k) => HeadIs(m.g, m.disk, m.lh) && SameHome(m.g, m.committed, m.logical)
       case Erased => HeadIs(m.g, m.disk, []) && SameHome(m.g, m.committed, m.logical) && m.lh == []
       case Booting => SameHome(m.g, m.committed, m.logical) && m.lh == []
       case Recovering(k) =>
         && HeadIs(m.g, m.disk, m.lh) && SameHome(m.g, m.committed, m.logical)
         && forall n :: 0 <= n < k ==> m.disk[m.lh[n]] == m.committed[m.lh[n]]
  }

  ghost predicate OpsOk(m: LogState) {
    && m.outstanding == Active(m.ops)
    && (forall t :: 0 <= t < |m.ops| && m.ops[t].InOp? ==> m.ops[t].used <= MAXOPBLOCKS)
    && (!Rebooting(m) ==> |m.lh| + Reserved(m.ops) <= LOGSIZE)
    && (m.committing <==> m.phase.Filling? || m.phase.Installing? || m.phase.Unpinning? || m.phase.Erased?)
    && (m.committing || Rebooting(m) ==> m.outstanding == 0)
  }

  ghost predicate LogInv(m: LogState) {
    Shape(m) && DiskAgrees(m) && LogOnDisk(m) && OpsOk(m)
  }

  // ----- the cache's part -----

  /** At most one buffer per block of a real device. */
  ghost predicate OneBufferPerBlock(bufs: seq<Buf>) {
    forall i, j :: 0 <= i < j < |bufs| && bufs[i].dev == ROOTDEV && bufs[j].dev == ROOTDEV ==>
      bufs[i].blockno != bufs[j].blockno
  }

  ghost predicate DirtyAllowed(m: LogState, b: Buf) {
    && b.dev == ROOTDEV && b.valid && IsHome(m.g, |m.disk|, b.blockno) && b.holder.Thread?
    && if Rebooting(m) then m.phase.Recovering? && m.phase.k < |m.lh| && b.blockno == m.lh[m.phase.k]
       else b.holder.t < |m.ops| && m.ops[b.holder.t].InOp?
  }

  /** What holds of each buffer by itself. */
  ghost predicate BufOk(m: LogState, b: Buf)
    requires Shape(m)
  {
    && b.refcnt == b.refs + (if b.holder == Nobody then 0 else 1)
                   + (if b.dev == ROOTDEV && IsPinned(m, b.blockno) then 1 else 0)
    && (b.dev == ROOTDEV ==> b.blockno < |m.disk|)
    && (b.dev == ROOTDEV && b.valid && !b.dirty ==> b.data == Latest(m, b.blockno))
    && (b.dirty ==> DirtyAllowed(m, b))
  }

  /** A pinned block is in the cache, so it cannot be read from the disk again. */
  ghost predicate PinsCached(bufs: seq<Buf>, m: LogState) {
    forall k :: PinFrom(m) <= k < |m.lh| ==> Cached(bufs, m.lh[k])
  }

  ghost predicate CacheInv(bufs: seq<Buf>, m: LogState)
    requires Shape(m)
  {
    OneBufferPerBlock(bufs) && PinsCached(bufs, m) && forall i :: 0 <= i < |bufs| ==> BufOk(m, bufs[i])
  }

  ghost predicate Inv(s: State) { LogInv(s.m) && CacheInv(s.bufs, s.m) }

  // ----- steps on one buffer -----

  /** Replacing one buffer keeps the cache consistent if the new one is, and no pinned block is dropped. */
  lemma PutKeeps(bufs: seq<Buf>, m: LogState, i: nat, b: Buf)
    requires Shape(m) && CacheInv(bufs, m) && i < |bufs|
    requires BufOk(m, b)
    requires b.dev == ROOTDEV ==>
               forall j :: 0 <= j < |bufs| && j != i && bufs[j].dev == ROOTDEV ==> bufs[j].blockno != b.blockno
    requires Holds(bufs[i], bufs[i].blockno) && IsPinned(m, bufs[i].blockno) ==> Holds(b, bufs[i].blockno)
    ensures CacheInv(bufs[i := b], m)
  {
    forall k | PinFrom(m) <= k < |m.lh|
      ensures Cached(bufs[i := b], m.lh[k])
    {
      var j :| 0 <= j < |bufs| && Holds(bufs[j], m.lh[k]);
      assert bufs[i := b][j] == if j == i then b else bufs[j];
    }
  }

  lemma SameBlock(bufs: seq<Buf>, i: nat)
    requires OneBufferPerBlock(bufs) && i < |bufs| && bufs[i].dev == ROOTDEV
    ensures forall j :: 0 <= j < |bufs| && j != i && bufs[j].dev == ROOTDEV ==> bufs[j].blockno != bufs[i].blockno
  {}

  lemma BgetKeeps(s: State, step: Step)
    requires Inv(s) && Enabled(s, step) && (step.BgetHit? || step.BgetRecycle?)
    ensures Inv(Apply(s, step))
  {
    var i := step.i;
    if step.BgetHit? { SameBlock(s.bufs, i); } else { NotPinned(s, step.b); }
    PutKeeps(s.bufs, s.m, i, Apply(s, step).bufs[i]);
  }

  /** A block with no buffer is not pinned. */
  lemma NotPinned(s: State, b: nat)
    requires Inv(s)
    requires forall j :: 0 <= j < |s.bufs| && s.bufs[j].dev == ROOTDEV ==> s.bufs[j].blockno != b
    ensures !IsPinned(s.m, b)
  {
    if IsPinned(s.m, b) { PinnedIsCached(s.bufs, s.m, b); }
  }

  lemma PinnedIsCached(bufs: seq<Buf>, m: LogState, b: nat)
    requires PinsCached(bufs, m) && IsPinned(m, b)
    ensures Cached(bufs, b)
  {
    var k :| PinFrom(m) <= k < |m.lh| && m.lh[k] == b;
    assert Cached(bufs, m.lh[k]);
  }

  lemma LockKeeps(s: State, step: Step)
    requires Inv(s) && Enabled(s, step) && (step.Lock? || step.Unlock? || step.Unref?)
    ensures Inv(Apply(s, step))
  {
    var i := step.i;
    if s.bufs[i].dev == ROOTDEV { SameBlock(s.bufs, i); }
    PutKeeps(s.bufs, s.m, i, Apply(s, step).bufs[i]);
  }

  lemma FillKeeps(s: State, t: nat, i: nat)
    requires Inv(s) && Enabled(s, Fill(t, i))
    ensures Inv(Apply(s, Fill(t, i)))
  {
    var b := s.bufs[i];
    SameBlock(s.bufs, i);
    if IsPinned(s.m, b.blockno) { PinnedIsCached(s.bufs, s.m, b.blockno); }
    PutKeeps(s.bufs, s.m, i, Apply(s, Fill(t, i)).bufs[i]);
  }

  lemma ModifyKeeps(s: State, t: nat, i: nat, data: Block)
    requires Inv(s) && Enabled(s, Modify(t, i, data))
    ensures Inv(Apply(s, Modify(t, i, data)))
  {
    SameBlock(s.bufs, i);
    OpsBounds(s.m.ops);
    PutKeeps(s.bufs, s.m, i, Apply(s, Modify(t, i, data)).bufs[i]);
  }

  // ----- steps of the log -----

  /** No call is in progress, so no client has unlogged changes. */
  lemma Quiet(s: State)
    requires Inv(s) && s.m.outstanding == 0 && !Rebooting(s.m)
    ensures forall t :: 0 <= t < |s.m.ops| ==> s.m.ops[t].NoOp?
    ensures forall i :: 0 <= i < |s.bufs| ==> !s.bufs[i].dirty
  {
    OpsBounds(s.m.ops);
    forall i | 0 <= i < |s.bufs|
      ensures !s.bufs[i].dirty
    {
      assert BufOk(s.m, s.bufs[i]);
    }
  }

  lemma BeginOpKeeps(s: State, t: nat)
    requires Inv(s) && Enabled(s, BeginOp(t))
    ensures Inv(Apply(s, BeginOp(t)))
  {
    var m' := Apply(s, BeginOp(t)).m;
    OpsUpdate(s.m.ops, t, InOp(0));
    OpsBounds(s.m.ops);
    forall i | 0 <= i < |s.bufs|
      ensures BufOk(m', s.bufs[i])
    {
      assert BufOk(s.m, s.bufs[i]);
    }
  }

  lemma EndOpKeeps(s: State, t: nat)
    requires Inv(s) && Enabled(s, EndOp(t))
    ensures Inv(Apply(s, EndOp(t)))
  {
    var m' := Apply(s, EndOp(t)).m;
    OpsUpdate(s.m.ops, t, NoOp);
    OpsBounds(s.m.ops);
    OpsBounds(m'.ops);
    forall i | 0 <= i < |s.bufs|
      ensures BufOk(m', s.bufs[i])
    {
      assert BufOk(s.m, s.bufs[i]);
    }
  }

  /** An absorbed log_write changes no list; a new block is pinned as it is listed. */
  lemma LogWriteKeeps(s: State, t: nat, i: nat)
    requires Inv(s) && Enabled(s, LogWrite(t, i))
    ensures Inv(Apply(s, LogWrite(t, i)))
  {
    LogWriteLog(s, t, i);
    LogWritePins(s, t, i);
    forall j | 0 <= j < |s.bufs|
      ensures BufOk(Apply(s, LogWrite(t, i)).m, Apply(s, LogWrite(t, i)).bufs[j])
    {
      LogWriteBuf(s, t, i, j);
    }
  }

  lemma LogWriteBuf(s: State, t: nat, i: nat, j: nat)
    requires Inv(s) && Enabled(s, LogWrite(t, i)) && j < |s.bufs|
    requires Shape(Apply(s, LogWrite(t, i)).m)
    ensures BufOk(Apply(s, LogWrite(t, i)).m, Apply(s, LogWrite(t, i)).bufs[j])
  {
    OpsBounds(s.m.ops);
    SameBlock(s.bufs, i);
    assert BufOk(s.m, s.bufs[j]);
    ListAppend(s.m.lh, s.bufs[i].blockno, s.bufs[j].blockno);
  }

  lemma LogWritePins(s: State, t: nat, i: nat)
    requires Inv(s) && Enabled(s, LogWrite(t, i))
    ensures PinsCached(Apply(s, LogWrite(t, i)).bufs, Apply(s, LogWrite(t, i)).m)
  {
    var s' := Apply(s, LogWrite(t, i));
    OpsBounds(s.m.ops);
    assert Holds(s'.bufs[i], s.bufs[i].blockno);
    forall k | PinFrom(s'.m) <= k < |s'.m.lh|
      ensures Cached(s'.bufs, s'.m.lh[k])
    {
      if k < |s.m.lh| {
        assert Cached(s.bufs, s.m.lh[k]);
        var j :| 0 <= j < |s.bufs| && Holds(s.bufs[j], s.m.lh[k]);
        assert Holds(s'.bufs[j], s'.m.lh[k]);
      }
    }
  }

  lemma ListAppend(lh: seq<uint>, b: uint, c: int)
    ensures InFrom(lh + [b], 0, c) <==> InFrom(lh, 0, c) || b == c
  {
    var l' := lh + [b];
    if k :| 0 <= k < |lh| && lh[k] == c { assert l'[k] == c; }
    assert l'[|lh|] == b;
  }

  lemma LogWriteLog(s: State, t: nat, i: nat)
    requires Inv(s) && Enabled(s, LogWrite(t, i))
    ensures LogInv(Apply(s, LogWrite(t, i)).m)
  {
    var m, m', b := s.m, Apply(s, LogWrite(t, i)).m, s.bufs[i].blockno;
    OpsUpdate(m.ops, t, InOp(m.ops[t].used + 1));
    OpsBounds(m.ops);
    assert m.phase == Running;
    forall c | IsHome(m.g, |m.disk|, c) && !InFrom(m'.lh, 0, c)
      ensures m'.disk[c] == m'.logical[c]
    {
      ListAppend(m.lh, b, c);
      if b in m.lh {
        var k :| 0 <= k < |m.lh| && m.lh[k] == b;
      }
    }
  }

  // ----- block writes of a commit -----

  /**
   Writing block x of the disk through its locked buffer, with no unlogged
   changes about, keeps the cache consistent.
   */
  lemma BlockWriteKeeps(bufs: seq<Buf>, m: LogState, m': LogState, i: nat, v: Block)
    requires Shape(m) && Shape(m') && CacheInv(bufs, m) && i < |bufs|
    requires Holds(bufs[i], bufs[i].blockno)
    requires m'.g == m.g && |m'.disk| == |m.disk|
    requires forall j :: 0 <= j < |bufs| ==> !bufs[j].dirty
    requires forall c :: IsPinned(m', c) <==> IsPinned(m, c)
    requires forall c :: 0 <= c < |m.disk| && c != bufs[i].blockno ==> Latest(m', c) == Latest(m, c)
    requires Latest(m', bufs[i].blockno) == v
    ensures CacheInv(bufs[i := bufs[i].(data := v)], m')
  {
    var bufs' := bufs[i := bufs[i].(data := v)];
    SameBlock(bufs, i);
    forall j | 0 <= j < |bufs'|
      ensures BufOk(m', bufs'[j])
    {
      assert BufOk(m, bufs[j]);
    }
    forall k | PinFrom(m') <= k < |m'.lh|
      ensures Cached(bufs', m'.lh[k])
    {
      assert IsPinned(m', m'.lh[k]);
      PinnedIsCached(bufs, m, m'.lh[k]);
      var j :| 0 <= j < |bufs| && Holds(bufs[j], m'.lh[k]);
      assert Holds(bufs'[j], m'.lh[k]);
    }
  }

  lemma WriteLogKeeps(s: State, i: nat, j: nat)
    requires Inv(s) && Enabled(s, WriteLog(i, j))
    ensures Inv(Apply(s, WriteLog(i, j)))
  {
    var m, m' := s.m, Apply(s, WriteLog(i, j)).m;
    var k := m.phase.k;
    Quiet(s);
    assert BufOk(m, s.bufs[j]);
    assert IsHome(m.g, |m.disk|, m.lh[k]);
    WriteLogBlockKeeps(m.g, m.disk, m.committed, k, s.bufs[j].data);
    assert m'.disk[m.g.start] == m.disk[m.g.start];
    forall n | 0 <= n < k + 1
      ensures Logged(m.g, m'.disk, n) == m.logical[m.lh[n]]
    {
      if n < k { assert Logged(m.g, m.disk, n) == m.logical[m.lh[n]]; }
    }
    BlockWriteKeeps(s.bufs, m, m', i, s.bufs[j].data);
  }

  /** The commit point: the logged state becomes the committed one. */
  lemma WriteHeadKeeps(s: State, i: nat)
    requires Inv(s) && Enabled(s, WriteHead(i))
    ensures Inv(Apply(s, WriteHead(i)))
  {
    var m, m' := s.m, Apply(s, WriteHead(i)).m;
    Quiet(s);
    assert BufOk(m, s.bufs[i]);
    WriteHeadLog(m);
    BlockWriteKeeps(s.bufs, m, m', i, PutHead(s.bufs[i].data, m.lh));
  }

  lemma WriteHeadLog(m: LogState)
    requires LogInv(m) && m.phase == Filling(|m.lh|)
    ensures LogInv(m.(disk := m.disk[m.g.start := PutHead(m.disk[m.g.start], m.lh)], phase := Installing(0),
                      committed := m.logical))
  {
    forall b | IsHome(m.g, |m.disk|, b) && b !in m.lh
      ensures m.committed[b] == m.logical[b]
    {
      assert !InFrom(m.lh, 0, b);
    }
    WriteHeadCommits(m.g, m.disk, m.committed, m.lh, m.logical);
  }

  lemma InstallLog(m: LogState, k: nat)
    requires LogInv(m) && m.phase == Installing(k) && k < |m.lh|
    ensures var v := Logged(m.g, m.disk, k);
            && LogInv(m.(disk := m.disk[m.lh[k] := v], phase := Unpinning(k)))
            && v == m.logical[m.lh[k]] && IsHome(m.g, |m.disk|, m.lh[k])
  {
    InstallKeeps(m.g, m.disk, m.committed, k);
    assert Logged(m.g, m.disk, k) == m.committed[m.lh[k]];
    forall b | IsHome(m.g, |m.disk|, b) && b != m.lh[k] && !InFrom(m.lh, k + 1, b)
      ensures m.disk[b] == m.logical[b]
    {
      assert !InFrom(m.lh, k, b);
    }
  }

  lemma InstallStepKeeps(s: State, i: nat, j: nat)
    requires Inv(s) && Enabled(s, Install(i, j))
    ensures Inv(Apply(s, Install(i, j)))
  {
    Quiet(s);
    assert BufOk(s.m, s.bufs[i]);
    InstallLog(s.m, s.m.phase.k);
    BlockWriteKeeps(s.bufs, s.m, Apply(s, Install(i, j)).m, j, s.bufs[i].data);
  }

  lemma EraseKeeps(s: State, i: nat)
    requires Inv(s) && Enabled(s, Erase(i))
    ensures Inv(Apply(s, Erase(i)))
  {
    var m, m' := s.m, Apply(s, Erase(i)).m;
    Quiet(s);
    assert BufOk(m, s.bufs[i]);
    forall k | 0 <= k < |m.lh|
      ensures m.disk[m.lh[k]] == Logged(m.g, m.disk, k)
    {
      assert IsHome(m.g, |m.disk|, m.lh[k]) && !InFrom(m.lh, |m.lh|, m.lh[k]);
    }
    ClearHeadKeeps(m.g, m.disk, m.committed);
    BlockWriteKeeps(s.bufs, m, m', i, PutHead(s.bufs[i].data, []));
  }

  lemma UnpinOne(m: LogState, k: nat, c: int)
    requires Shape(m) && m.phase == Unpinning(k) && k < |m.lh|
    ensures IsPinned(m.(phase := Installing(k + 1)), c) <==> IsPinned(m, c) && c != m.lh[k]
  {
    if n :| k <= n < |m.lh| && m.lh[n] == c && c != m.lh[k] { assert k + 1 <= n; }
  }

  lemma BunpinCache(bufs: seq<Buf>, m: LogState, k: nat, j: nat)
    requires Shape(m) && CacheInv(bufs, m) && m.phase == Unpinning(k) && k < |m.lh|
    requires forall i :: 0 <= i < |bufs| ==> !bufs[i].dirty
    requires j < |bufs| && Holds(bufs[j], m.lh[k]) && bufs[j].refcnt > 0
    ensures CacheInv(bufs[j := bufs[j].(refcnt := bufs[j].refcnt - 1)], m.(phase := Installing(k + 1)))
  {
    var bufs' := bufs[j := bufs[j].(refcnt := bufs[j].refcnt - 1)];
    var m' := m.(phase := Installing(k + 1));
    SameBlock(bufs, j);
    forall n | 0 <= n < |bufs'|
      ensures BufOk(m', bufs'[n])
    {
      assert BufOk(m, bufs[n]);
      UnpinOne(m, k, bufs[n].blockno);
      UnpinOne(m, k, m.lh[k]);
      assert IsPinned(m, m.lh[k]);
    }
    forall n | k < n < |m.lh|
      ensures Cached(bufs', m.lh[n])
    {
      assert Cached(bufs, m.lh[n]);
      var b :| 0 <= b < |bufs| && Holds(bufs[b], m.lh[n]);
      assert Holds(bufs'[b], m.lh[n]);
    }
  }

  lemma BunpinKeeps(s: State, j: nat)
    requires Inv(s) && Enabled(s, Bunpin(j))
    ensures Inv(Apply(s, Bunpin(j)))
  {
    Quiet(s);
    BunpinCache(s.bufs, s.m, s.m.phase.k, j);
  }

  lemma EndCommitKeeps(s: State)
    requires Inv(s) && Enabled(s, EndCommit)
    ensures Inv(Apply(s, EndCommit))
  {
    var m' := Apply(s, EndCommit).m;
    forall i | 0 <= i < |s.bufs|
      ensures BufOk(m', s.bufs[i])
    {
      assert BufOk(s.m, s.bufs[i]);
    }
  }

  // ----- crashing and recovering -----

  /** Memory is lost; the disk is left as it is. */
  lemma CrashKeeps(s: State)
    requires Inv(s)
    ensures Inv(Apply(s, Crash))
  {
    IdleOps(Apply(s, Crash).m.ops);
  }

  lemma ReadHeadKeeps(s: State, i: nat)
    requires Inv(s) && Enabled(s, ReadHead(i))
    ensures Inv(Apply(s, ReadHead(i)))
  {
    var m' := Apply(s, ReadHead(i)).m;
    assert BufOk(s.m, s.bufs[i]);
    assert m'.lh == Head(s.m.disk[s.m.g.start]);
    forall j | 0 <= j < |s.bufs|
      ensures BufOk(m', s.bufs[j])
    {
      assert BufOk(s.m, s.bufs[j]);
    }
  }

  lemma RecInstallLog(m: LogState, k: nat)
    requires LogInv(m) && m.phase == Recovering(k) && k < |m.lh|
    ensures var v := Logged(m.g, m.disk, k);
            && LogInv(m.(disk := m.disk[m.lh[k] := v], phase := Recovering(k + 1)))
            && v == m.logical[m.lh[k]] && IsHome(m.g, |m.disk|, m.lh[k])
  {
    InstallKeeps(m.g, m.disk, m.committed, k);
    assert Logged(m.g, m.disk, k) == m.committed[m.lh[k]];
    assert IsHome(m.g, |m.disk|, m.lh[k]);
  }

  lemma RecInstallCache(bufs: seq<Buf>, m: LogState, k: nat, j: nat, v: Block)
    requires Shape(m) && CacheInv(bufs, m) && m.phase == Recovering(k) && k < |m.lh|
    requires j < |bufs| && Holds(bufs[j], m.lh[k]) && v == m.logical[m.lh[k]]
    ensures CacheInv(bufs[j := bufs[j].(data := v, dirty := false)],
                     m.(disk := m.disk[m.lh[k] := v], phase := Recovering(k + 1)))
  {
    var bufs' := bufs[j := bufs[j].(data := v, dirty := false)];
    var m' := m.(disk := m.disk[m.lh[k] := v], phase := Recovering(k + 1));
    SameBlock(bufs, j);
    assert IsHome(m.g, |m.disk|, m.lh[k]);
    forall n | 0 <= n < |bufs'|
      ensures BufOk(m', bufs'[n])
    {
      assert BufOk(m, bufs[n]);
    }
  }

  lemma RecInstallKeeps(s: State, i: nat, j: nat)
    requires Inv(s) && Enabled(s, RecInstall(i, j))
    ensures Inv(Apply(s, RecInstall(i, j)))
  {
    assert BufOk(s.m, s.bufs[i]);
    RecInstallLog(s.m, s.m.phase.k);
    RecInstallCache(s.bufs, s.m, s.m.phase.k, j, s.bufs[i].data);
  }

  /** Recovery ends with the home blocks equal to the committed state. */
  lemma RecEraseKeeps(s: State, i: nat)
    requires Inv(s) && Enabled(s, RecErase(i))
    ensures Inv(Apply(s, RecErase(i)))
    ensures SameHome(s.m.g, Apply(s, RecErase(i)).m.disk, s.m.committed)
  {
    var m, m' := s.m, Apply(s, RecErase(i)).m;
    assert BufOk(m, s.bufs[i]);
    forall k | 0 <= k < |m.lh|
      ensures m.disk[m.lh[k]] == Logged(m.g, m.disk, k)
    {
      assert m.disk[m.lh[k]] == m.committed[m.lh[k]];
    }
    ClearHeadKeeps(m.g, m.disk, m.committed);
    IdleAfterRecovery(m);
    forall j | 0 <= j < |s.bufs|
      ensures !s.bufs[j].dirty
    {
      assert BufOk(m, s.bufs[j]);
    }
    BlockWriteKeeps(s.bufs, m, m', i, PutHead(s.bufs[i].data, []));
  }

  lemma IdleAfterRecovery(m: LogState)
    requires OpsOk(m) && Rebooting(m)
    ensures Reserved(m.ops) == 0
  {
    OpsBounds(m.ops);
    IdleOps(m.ops);
  }

  // ----- whole runs -----

  lemma CommitStepKeeps(s: State, step: Step)
    requires Inv(s) && Enabled(s, step)
    requires step.WriteLog? || step.WriteHead? || step.Install? || step.Bunpin? || step.Erase? || step.EndCommit?
    ensures Inv(Apply(s, step))
  {
    match step
    case WriteLog(i, j) => WriteLogKeeps(s, i, j);
    case WriteHead(i) => WriteHeadKeeps(s, i);
    case Install(i, j) => InstallStepKeeps(s, i, j);
    case Bunpin(j) => BunpinKeeps(s, j);
    case Erase(i) => EraseKeeps(s, i);
    case EndCommit => EndCommitKeeps(s);
  }

  lemma RecoveryStepKeeps(s: State, step: Step)
    requires Inv(s) && Enabled(s, step)
    requires IsRecoveryStep(step)
    ensures Inv(Apply(s, step))
  {
    match step
    case Crash => CrashKeeps(s);
    case ReadHead(i) => ReadHeadKeeps(s, i);
    case RecInstall(i, j) => RecInstallKeeps(s, i, j);
    case RecErase(i) => RecEraseKeeps(s, i);
  }

  predicate IsBufferStep(step: Step) {
    step.BgetHit? || step.BgetRecycle? || step.Lock? || step.Fill? || step.Modify? || step.Unlock? || step.Unref?
  }

  lemma BufferStepKeeps(s: State, step: Step)
    requires Inv(s) && Enabled(s, step) && IsBufferStep(step)
    ensures Inv(Apply(s, step))
  {
    match step
    case BgetHit(i) => BgetKeeps(s, step);
    case BgetRecycle(i, b) => BgetKeeps(s, step);
    case Fill(t, i) => FillKeeps(s, t, i);
    case Modify(t, i, data) => ModifyKeeps(s, t, i, data);
    case _ => LockKeeps(s, step);
  }

  predicate IsRecoveryStep(step: Step) { step.Crash? || step.ReadHead? || step.RecInstall? || step.RecErase? }

  /** Every step keeps the invariant. */
  lemma StepKeeps(s: State, step: Step)
    requires Inv(s) && Enabled(s, step)
    ensures Inv(Apply(s, step))
  {
    if IsBufferStep(step) {
      BufferStepKeeps(s, step);
    } else if IsRecoveryStep(step) {
      RecoveryStepKeeps(s, step);
    } else {
      match step
      case BeginOp(t) => BeginOpKeeps(s, t);
      case EndOp(t) => EndOpKeeps(s, t);
      case LogWrite(t, i) => LogWriteKeeps(s, t, i);
      case _ => CommitStepKeeps(s, step);
    }
  }

  /** A machine just switched on, its disk in any state a crash may have left. */
  ghost predicate Boot(s: State) {
    && s.m.phase == Booting && s.m.lh == [] && s.m.outstanding == 0 && !s.m.committing
    && (forall t :: 0 <= t < |s.m.ops| ==> s.m.ops[t].NoOp?)
    && (forall i :: 0 <= i < |s.bufs| ==> IsEmpty(s.bufs[i]))
    && s.m.logical == s.m.committed && RecoversTo(s.m.g, s.m.disk, s.m.committed)
  }

  /** A buffer as binit() leaves it: device 0, block 0, nobody's. */
  predicate IsEmpty(b: Buf) {
    b.dev == 0 && b.blockno == 0 && !b.valid && b.refcnt == 0 && b.refs == 0 && b.holder == Nobody && !b.dirty
  }

  ghost predicate IsRun(steps: seq<Step>, states: seq<State>) {
    |states| == |steps| + 1 && Boot(states[0]) && forall n :: 0 <= n < |steps| ==> StepAt(steps, states, n)
  }

  ghost predicate StepAt(steps: seq<Step>, states: seq<State>, n: nat)
    requires n < |steps| < |states|
  {
    Enabled(states[n], steps[n]) && states[n + 1] == Apply(states[n], steps[n])
  }

  /** The invariant holds in every state of every run. */
  lemma {:induction false} RunInv(steps: seq<Step>, states: seq<State>, n: nat)
    requires IsRun(steps, states) && n < |states|
    ensures Inv(states[n])
  {
    if n == 0 {
      IdleOps(states[0].m.ops);
    } else {
      RunInv(steps, states, n - 1);
      assert StepAt(steps, states, n - 1);
      StepKeeps(states[n - 1], steps[n - 1]);
    }
  }

  /** The number of the state in which the latest header write was about to happen, plus one; 0 if none. */
  function LastCommit(steps: seq<Step>, n: nat): (c: nat)
    requires n <= |steps|
    ensures c <= n && (c > 0 ==> steps[c - 1].WriteHead?)
    ensures forall k :: c <= k < n ==> !steps[k].WriteHead?
  {
    if n == 0 then 0 else if steps[n - 1].WriteHead? then n else LastCommit(steps, n - 1)
  }

  /** The file-system state that the latest completed header write committed. */
  function CommittedAt(steps: seq<Step>, states: seq<State>, n: nat): Disk
    requires n <= |steps| < |states|
  {
    if LastCommit(steps, n) == 0 then states[0].m.committed else states[LastCommit(steps, n) - 1].m.logical
  }

  lemma {:induction false} CommittedIs(steps: seq<Step>, states: seq<State>, n: nat)
    requires IsRun(steps, states) && n < |states|
    ensures states[n].m.committed == CommittedAt(steps, states, n) && states[n].m.g == states[0].m.g
  {
    if n > 0 {
      var k := n - 1;
      CommittedIs(steps, states, k);
      assert StepAt(steps, states, k);
      CommittedNext(steps, states, k, n);
    }
  }

  lemma CommittedNext(steps: seq<Step>, states: seq<State>, k: nat, n: nat)
    requires k < |steps| < |states| && n == k + 1 && StepAt(steps, states, k)
    requires states[k].m.committed == CommittedAt(steps, states, k)
    ensures states[n].m.committed == CommittedAt(steps, states, n) && states[n].m.g == states[k].m.g
  {
    StepCommits(states[k], steps[k]);
  }

  /** Only the header write changes what is committed. */
  lemma StepCommits(s: State, step: Step)
    requires Enabled(s, step)
    ensures var m' := Apply(s, step).m;
            m'.g == s.m.g && m'.committed == if step.WriteHead? then s.m.logical else s.m.committed
  {}

  ghost predicate NoneInProgress(m: LogState) { forall t :: 0 <= t < |m.ops| ==> m.ops[t].NoOp? }

  lemma CommitIsQuiet(s: State, step: Step)
    requires Inv(s) && Enabled(s, step) && step.WriteHead?
    ensures NoneInProgress(s.m)
  {
    Quiet(s);
  }

  /**
   Crash atomicity, over every run and every point of it, recovery included: a
   power failure here would leave a disk that recovers to exactly what was
   logged when the last completed header write took place, and no call was in
   progress at that moment.
   */
  lemma CrashAtomicity(steps: seq<Step>, states: seq<State>, n: nat)
    requires IsRun(steps, states) && n < |states|
    ensures RecoversTo(states[0].m.g, states[n].m.disk, CommittedAt(steps, states, n))
    ensures LastCommit(steps, n) > 0 ==> NoneInProgress(states[LastCommit(steps, n) - 1].m)
  {
    RunInv(steps, states, n);
    CommittedIs(steps, states, n);
    var c := LastCommit(steps, n);
    if c > 0 {
      RunInv(steps, states, c - 1);
      assert StepAt(steps, states, c - 1);
      CommitIsQuiet(states[c - 1], steps[c - 1]);
    }
  }

  /** When recovery completes, the home blocks are the committed ones. */
  lemma RecoveryCompletes(steps: seq<Step>, states: seq<State>, n: nat)
    requires IsRun(steps, states) && n < |steps| && steps[n].RecErase?
    ensures SameHome(states[0].m.g, states[n + 1].m.disk, CommittedAt(steps, states, n))
    ensures SameHome(states[0].m.g, states[n + 1].m.logical, CommittedAt(steps, states, n))
  {
    RunInv(steps, states, n);
    CommittedIs(steps, states, n);
    assert StepAt(steps, states, n);
    RecEraseKeeps(states[n], steps[n].i);
  }

  /**
   Cache agreement: whoever has a buffer locked and loaded and has not changed
   it since sees the latest logged contents of its block.
   */
  lemma CacheAgreement(steps: seq<Step>, states: seq<State>, n: nat, t: nat, i: nat)
    requires IsRun(steps, states) && n < |states|
    requires Loaded(states[n], t, i) && !states[n].bufs[i].dirty
    ensures var s, b := states[n], states[n].bufs[i].blockno;
            && b < |s.m.disk| == |s.m.logical|
            && s.bufs[i].data == Latest(s.m, b)
            && (!Rebooting(s.m) && !IsPinned(s.m, b) && !InLog(s.m.g, b) ==> s.bufs[i].data == s.m.disk[b])
  {
    RunInv(steps, states, n);
    assert BufOk(states[n].m, states[n].bufs[i]);
  }

  /** No block of the file system's device is ever in two buffers. */
  lemma OneBuffer(steps: seq<Step>, states: seq<State>, n: nat, i: nat, j: nat)
    requires IsRun(steps, states) && n < |states| && i < j < |states[n].bufs|
    requires states[n].bufs[i].dev == ROOTDEV && states[n].bufs[j].dev == ROOTDEV
    ensures states[n].bufs[i].blockno != states[n].bufs[j].blockno
  {
    RunInv(steps, states, n);
  }

  /** A pinned block keeps its buffer: bget() never recycles it. */
  lemma PinnedNotRecycled(steps: seq<Step>, states: seq<State>, n: nat, b: nat)
    requires IsRun(steps, states) && n < |states| && IsPinned(states[n].m, b)
    ensures exists i :: 0 <= i < |states[n].bufs| && Holds(states[n].bufs[i], b) && states[n].bufs[i].refcnt > 0
  {
    RunInv(steps, states, n);
    var s := states[n];
    PinnedIsCached(s.bufs, s.m, b);
    var i :| 0 <= i < |s.bufs| && Holds(s.bufs[i], b);
    assert BufOk(s.m, s.bufs[i]);
  }

  /** Log space: what is listed plus what is promised fits, and a commit runs alone. */
  lemma Reservation(steps: seq<Step>, states: seq<State>, n: nat)
    requires IsRun(steps, states) && n < |states|
    ensures var m := states[n].m;
            && (!Rebooting(m) ==> |m.lh| + Reserved(m.ops) <= LOGSIZE)
            && (m.committing ==> m.outstanding == 0 && NoneInProgress(m))
            && 0 <= Reserved(m.ops)
  {
    RunInv(steps, states, n);
    OpsBounds(states[n].m.ops);
  }

  lemma FrozenStep(s: State, step: Step)
    requires OpsOk(s.m) && s.m.committing && NoneInProgress(s.m) && Enabled(s, step) && !step.Crash?
    ensures var m, m' := s.m, Apply(s, step).m;
            m'.logical == m.logical && m'.ops == m.ops && (m'.lh == m.lh || step.Erase?)
  {}

  /** From write_log to the clearing of the log, neither the list nor the logged contents change. */
  lemma CommitIsFrozen(steps: seq<Step>, states: seq<State>, n: nat)
    requires IsRun(steps, states) && n < |steps| && states[n].m.committing && !steps[n].Crash?
    ensures var m, m' := states[n].m, states[n + 1].m;
            m'.logical == m.logical && m'.ops == m.ops && (m'.lh == m.lh || steps[n].Erase?)
  {
    RunInv(steps, states, n);
    OpsBounds(states[n].m.ops);
    assert StepAt(steps, states, n);
    FrozenStep(states[n], steps[n]);
  }

  /**
   log_write()'s test never fires for a call with part of its share left, provided
   the log region has room for LOGSIZE blocks besides its header. StorageGuard has
   the exact conditions, for calls with nothing left too.
   */
  lemma GuardNeverFires(steps: seq<Step>, states: seq<State>, n: nat, t: nat)
    requires IsRun(steps, states) && n < |states|
    requires t < |states[n].m.ops| && states[n].m.ops[t].InOp? && states[n].m.ops[t].used < MAXOPBLOCKS
    requires states[n].m.g.size > LOGSIZE
    ensures !TooBig(states[n].m)
  {
    RunInv(steps, states, n);
    OpsBounds(states[n].m.ops);
  }
}
