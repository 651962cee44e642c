/** What every run of the virtqueue machine keeps. */
module VirtioSafety {
  import opened Counting
  import opened Virtio

  // ----- ring slots -----

  lemma SlotOf(n: nat)
    ensures n % TWO16 % NUM == n % NUM && Inc(n % TWO16) == (n + 1) % TWO16
  {}

  lemma SlotsApart(n: nat, m: nat)
    requires 0 < m - n < NUM
    ensures n % NUM != m % NUM
  {}

  lemma IndexTells(n: nat, m: nat)
    requires n <= m <= n + NUM
    ensures n % TWO16 == m % TWO16 <==> n == m
  {}

  /** Different entries below NUM, and one more, are at most NUM. */
  lemma WindowShort(entry: nat -> nat, lo: nat, hi: nat, extra: nat)
    requires lo <= hi && extra < NUM && forall n :: lo <= n < hi ==> entry(n) < NUM && entry(n) != extra
    requires forall n, m :: lo <= n < m < hi ==> entry(n) != entry(m)
    ensures hi - lo < NUM
  {
    var t: seq<nat> := seq(hi - lo + 1, i requires 0 <= i <= hi - lo => if i < hi - lo then entry(lo + i) else extra);
    DistinctBound(t, NUM);
  }

  lemma AvailShort(s: State, b: nat)
    requires Shape(s) && Owners(s) && AvailWindow(s) && Counts(s) && IsBuf(s, b) && s.phase[b].Busy?
             && s.phase[b].stage != Waiting
    ensures s.made - s.taken < NUM
  {
    assert ChainOk(s, b);
    WindowShort(n => AvailAt(s, n), s.taken, s.made, s.phase[b].i);
  }

  lemma UsedShort(s: State, h: nat)
    requires Shape(s) && UsedWindow(s) && Counts(s) && Awaited(s, h, false)
    ensures s.done - s.seen < NUM
  {
    WindowShort(n => UsedAt(s, n), s.seen, s.done, h);
  }

  // ----- steps that leave the windows alone -----

  /** Whatever is awaited in s is so in s', and the rings have the same entries in their windows. */
  ghost predicate SameWindows(s: State, s': State)
    requires Shape(s) && Shape(s')
  {
    && s'.taken == s.taken && s'.made == s.made && s'.done == s.done && s'.seen == s.seen && s'.pending == s.pending
    && (forall n :: s.taken <= n < s.made ==> AvailAt(s', n) == AvailAt(s, n))
    && (forall n :: s.seen <= n < s.done ==> UsedAt(s', n) == UsedAt(s, n))
    && s'.report == s.report
    && (forall h, c :: Awaited(s, h, c) ==>
          Awaited(s', h, c) && s'.status[h] == s.status[h] && s'.info[h] == s.info[h])
  }

  lemma WindowsStay(s: State, s': State)
    requires Shape(s) && Shape(s') && AvailWindow(s) && PendingOk(s) && UsedWindow(s) && SameWindows(s, s')
    ensures AvailWindow(s') && PendingOk(s') && UsedWindow(s')
  {
    forall n | s'.taken <= n < s'.made
      ensures Awaited(s', AvailAt(s', n), false) && AvailAt(s', n) !in s'.pending
    {
      assert Awaited(s, AvailAt(s, n), false);
    }
    forall n, m | s'.taken <= n < m < s'.made
      ensures AvailAt(s', n) != AvailAt(s', m)
    {
      assert AvailAt(s, n) != AvailAt(s, m);
    }
    forall n | s'.seen <= n < s'.done
      ensures Awaited(s', UsedAt(s', n), true) && Reported(s', UsedAt(s', n))
    {
      assert Awaited(s, UsedAt(s, n), true);
    }
    forall n, m | s'.seen <= n < m < s'.done
      ensures UsedAt(s', n) != UsedAt(s', m)
    {
      assert UsedAt(s, n) != UsedAt(s, m);
    }
  }

  lemma StartInv(s: State, b: nat)
    requires Inv(s) && Enabled(s, Start(b))
    ensures Inv(Apply(s, Start(b)))
  {
    StartedInv(s, b, First(s.free), Second(s.free), Third(s.free));
  }

  lemma StartedInv(s: State, b: nat, i: nat, j: nat, k: nat)
    requires Inv(s) && IsBuf(s, b) && s.phase[b] == Idle && s.lock == -1 && i < j < k < NUM && s.free[i] && s.free[j]
             && s.free[k]
    ensures Inv(Started(s, b, i, j, k))
  {
    StartChains(s, b, i, j, k);
    StartLocks(s, b, i, j, k);
    StartWindows(s, b, i, j, k);
    WindowsStay(s, Started(s, b, i, j, k));
  }

  /** Three different free descriptors become the chain of a request. */
  lemma StartChains(s: State, b: nat, i: nat, j: nat, k: nat)
    requires Shape(s) && Owners(s) && IsBuf(s, b) && s.phase[b] == Idle && i < j < k < NUM && s.free[i] && s.free[j]
             && s.free[k]
    ensures Owners(Started(s, b, i, j, k))
  {
    var s' := Started(s, b, i, j, k);
    forall c | IsBuf(s', c) && s'.phase[c].Busy?
      ensures ChainOk(s', c)
    {
      if c != b { assert ChainOk(s, c); }
    }
    forall d | 0 <= d < NUM
      ensures if s'.free[d] then s'.owner[d] == -1 else IsBuf(s', s'.owner[d]) && Holds(s'.phase[s'.owner[d]], d)
    {
      assert if s.free[d] then s.owner[d] == -1 else IsBuf(s, s.owner[d]) && Holds(s.phase[s.owner[d]], d);
    }
  }

  lemma StartLocks(s: State, b: nat, i: nat, j: nat, k: nat)
    requires Shape(s) && Locks(s) && IsBuf(s, b) && s.phase[b] == Idle && s.lock == -1 && i < NUM && j < NUM && k < NUM
    ensures Locks(Started(s, b, i, j, k))
  {}

  lemma StartWindows(s: State, b: nat, i: nat, j: nat, k: nat)
    requires Shape(s) && Owners(s) && IsBuf(s, b) && s.phase[b] == Idle && i < j < k < NUM && s.free[i]
    ensures SameWindows(s, Started(s, b, i, j, k))
  {
    var s' := Started(s, b, i, j, k);
    forall h, c | Awaited(s, h, c)
      ensures Awaited(s', h, c) && s'.status[h] == s.status[h]
    {
      assert ChainOk(s, s.info[h]);
    }
  }

  /** The entry is written to a slot outside the window, so none is lost. */
  lemma EnterInv(s: State, b: nat)
    requires Inv(s) && Enabled(s, Enter(b))
    ensures Inv(Apply(s, Enter(b)))
  {
    var s' := Apply(s, Enter(b));
    AvailShort(s, b);
    SlotOf(s.made);
    forall n | s.taken <= n < s.made
      ensures AvailAt(s', n) == AvailAt(s, n)
    {
      SlotsApart(n, s.made);
    }
    PhaseInv(s, s', b);
    WindowsStay(s, s');
  }

  /** A change of stage changes no chain. */
  lemma PhaseInv(s: State, s': State, b: nat)
    requires Shape(s) && Shape(s') && Owners(s) && |s'.disk| == |s.disk| && IsBuf(s, b) && s.phase[b].Busy?
             && s'.phase == s.phase[b := s'.phase[b]]
    requires s'.phase[b].Busy? && s'.phase[b] == s.phase[b].(stage := s'.phase[b].stage)
    requires s'.free == s.free && s'.next == s.next && s'.more == s.more && s'.info == s.info && s'.owner == s.owner
    ensures Owners(s')
  {
    forall c | IsBuf(s', c) && s'.phase[c].Busy?
      ensures ChainOk(s', c)
    {
      assert ChainOk(s, c);
    }
    forall d | 0 <= d < NUM
      ensures if s'.free[d] then s'.owner[d] == -1 else IsBuf(s', s'.owner[d]) && Holds(s'.phase[s'.owner[d]], d)
    {
      assert if s.free[d] then s.owner[d] == -1 else IsBuf(s, s.owner[d]) && Holds(s.phase[s.owner[d]], d);
    }
  }

  lemma PublishInv(s: State, b: nat)
    requires Inv(s) && Enabled(s, Publish(b))
    ensures Inv(Apply(s, Publish(b)))
  {
    var s' := Apply(s, Publish(b));
    SlotOf(s.made);
    PhaseInv(s, s', b);
    WindowsStay(s, s'.(made := s.made));
    assert ChainOk(s, b);
    forall n | s'.taken <= n < s'.made
      ensures Awaited(s', AvailAt(s', n), false) && AvailAt(s', n) !in s'.pending
              && (n < s.made ==> AvailAt(s', n) != AvailAt(s, s.made))
    {
      assert AvailAt(s', n) == AvailAt(s, n);
      if n < s.made { assert Awaited(s, AvailAt(s, n), false); }
    }
    forall n, m | s'.taken <= n < m < s'.made
      ensures AvailAt(s', n) != AvailAt(s', m)
    {
      assert AvailAt(s', n) == AvailAt(s, n) && AvailAt(s', m) == AvailAt(s, m);
    }
    UsedSame(s, s');
  }

  lemma UsedSame(s: State, s': State)
    requires Shape(s) && Shape(s') && UsedWindow(s) && s'.used == s.used && s'.done == s.done && s'.seen == s.seen
             && s'.status == s.status && s'.info == s.info && s'.report == s.report
    requires forall h :: Awaited(s, h, true) ==> Awaited(s', h, true)
    ensures UsedWindow(s')
  {
    forall n | s'.seen <= n < s'.done
      ensures Awaited(s', UsedAt(s', n), true) && Reported(s', UsedAt(s', n))
    {
      assert UsedAt(s', n) == UsedAt(s, n);
    }
    forall n, m | s'.seen <= n < m < s'.done
      ensures UsedAt(s', n) != UsedAt(s', m)
    {
      assert UsedAt(s', n) == UsedAt(s, n) && UsedAt(s', m) == UsedAt(s, m);
    }
  }

  // ----- the device -----

  lemma TakeInv(s: State)
    requires Inv(s) && Enabled(s, Take)
    ensures Inv(Apply(s, Take))
  {
    SlotOf(s.taken);
    assert s.taken < s.made;
    assert s.avail[s.devIdx % NUM] == AvailAt(s, s.taken);
    var s' := Apply(s, Take);
    forall n | s'.taken <= n < s'.made
      ensures Awaited(s', AvailAt(s', n), false) && AvailAt(s', n) !in s'.pending
    {
      assert AvailAt(s', n) == AvailAt(s, n);
    }
    forall n, m | s'.taken <= n < m < s'.made
      ensures AvailAt(s', n) != AvailAt(s', m)
    {
      assert AvailAt(s', n) == AvailAt(s, n) && AvailAt(s', m) == AvailAt(s, m);
    }
    UsedSame(s, s');
  }

  lemma CompleteInv(s: State, h: nat, st: nat)
    requires Inv(s) && Enabled(s, Complete(h, st))
    ensures Inv(Apply(s, Complete(h, st)))
  {
    var s' := Apply(s, Complete(h, st));
    assert Awaited(s, h, false);
    UsedShort(s, h);
    SlotOf(s.done);
    CompleteAvail(s, h, st);
    CompleteUsed(s, h, st);
    forall g | g in s'.pending
      ensures Awaited(s', g, false)
    {
      assert Awaited(s, g, false);
    }
    forall c | IsBuf(s', c) && s'.phase[c].Busy?
      ensures ChainOk(s', c)
    {
      assert ChainOk(s, c);
    }
  }

  lemma CompleteAvail(s: State, h: nat, st: nat)
    requires Shape(s) && AvailWindow(s) && Awaited(s, h, false) && h in s.pending
    ensures AvailWindow(Apply(s, Complete(h, st)))
  {
    var s' := Apply(s, Complete(h, st));
    forall n | s'.taken <= n < s'.made
      ensures Awaited(s', AvailAt(s', n), false) && AvailAt(s', n) !in s'.pending
    {
      assert AvailAt(s', n) == AvailAt(s, n) && Awaited(s, AvailAt(s, n), false);
    }
    forall n, m | s'.taken <= n < m < s'.made
      ensures AvailAt(s', n) != AvailAt(s', m)
    {
      assert AvailAt(s', n) == AvailAt(s, n) && AvailAt(s', m) == AvailAt(s, m);
    }
  }

  /** The device's entry goes to a slot outside the window, so no completion is lost. */
  lemma CompleteUsed(s: State, h: nat, st: nat)
    requires Shape(s) && UsedWindow(s) && Awaited(s, h, false) && h in s.pending && s.done - s.seen < NUM
             && s.usedIdx % NUM == s.done % NUM
    ensures UsedWindow(Apply(s, Complete(h, st)))
  {
    var s' := Apply(s, Complete(h, st));
    forall n | s'.seen <= n < s'.done
      ensures Awaited(s', UsedAt(s', n), true) && Reported(s', UsedAt(s', n))
              && (n < s.done ==> UsedAt(s', n) == UsedAt(s, n) != h)
    {
      if n < s.done {
        SlotsApart(n, s.done);
        assert Awaited(s, UsedAt(s, n), true);
      }
    }
    forall n, m | s'.seen <= n < m < s'.done
      ensures UsedAt(s', n) != UsedAt(s', m)
    {
      if m < s.done { assert UsedAt(s, n) != UsedAt(s, m); }
    }
  }

  // ----- the interrupt handler -----

  /** The handler marks the buffer of a completed request, and that of no other. */
  lemma IntrNextInv(s: State)
    requires Inv(s) && Enabled(s, IntrNext)
    ensures Inv(Apply(s, IntrNext))
  {
    var s' := Apply(s, IntrNext);
    SlotOf(s.seen);
    assert s.seen < s.done && Awaited(s, UsedAt(s, s.seen), true);
    IntrNextUsed(s);
    AvailSame(s, s');
    forall c | IsBuf(s', c) && s'.phase[c].Busy?
      ensures ChainOk(s', c)
    {
      assert ChainOk(s, c);
    }
  }

  /** Other entries are for other buffers. */
  lemma IntrNextUsed(s: State)
    requires Shape(s) && UsedWindow(s) && Enabled(s, IntrNext) && s.seen < s.done && s.drvIdx % NUM == s.seen % NUM
    ensures UsedWindow(Apply(s, IntrNext))
  {
    var s', id := Apply(s, IntrNext), UsedAt(s, s.seen);
    assert Awaited(s, id, true);
    forall n | s'.seen <= n < s'.done
      ensures UsedAt(s', n) == UsedAt(s, n) != id && Awaited(s', UsedAt(s', n), true) && Reported(s', UsedAt(s', n))
    {
      assert Awaited(s, UsedAt(s, n), true);
    }
    forall n, m | s'.seen <= n < m < s'.done
      ensures UsedAt(s', n) != UsedAt(s', m)
    {
      assert UsedAt(s, n) != UsedAt(s, m);
    }
  }

  lemma AvailSame(s: State, s': State)
    requires Shape(s) && Shape(s') && AvailWindow(s) && s'.avail == s.avail && s'.taken == s.taken && s'.made == s.made
             && s'.pending == s.pending
    requires forall h :: Awaited(s, h, false) ==> Awaited(s', h, false)
    ensures AvailWindow(s')
  {
    forall n | s'.taken <= n < s'.made
      ensures Awaited(s', AvailAt(s', n), false) && AvailAt(s', n) !in s'.pending
    {
      assert AvailAt(s', n) == AvailAt(s, n);
    }
    forall n, m | s'.taken <= n < m < s'.made
      ensures AvailAt(s', n) != AvailAt(s', m)
    {
      assert AvailAt(s', n) == AvailAt(s, n) && AvailAt(s', m) == AvailAt(s, m);
    }
  }

  lemma IntrInv(s: State, step: Step)
    requires Inv(s) && Enabled(s, step) && (step.IntrBegin? || step.IntrEnd?)
    ensures Inv(Apply(s, step))
  {
    var s' := Apply(s, step);
    WindowsStay(s, s');
    forall c | IsBuf(s', c) && s'.phase[c].Busy?
      ensures ChainOk(s', c)
    {
      assert ChainOk(s, c);
    }
  }

  // ----- the end of a request -----

  /** free_chain() frees the three descriptors of the chain. */
  lemma ChainIs(s: State, b: nat)
    requires Shape(s) && IsBuf(s, b) && s.phase[b].Busy? && ChainOk(s, b)
    ensures Chain(s, s.phase[b].i, NUM) == [s.phase[b].i, s.phase[b].j, s.phase[b].k]
  {
    var p := s.phase[b];
    assert Chain(s, p.k, NUM - 2) == [p.k];
    assert Chain(s, p.j, NUM - 1) == [p.j] + [p.k];
  }

  lemma SetThree<T>(s: seq<T>, i: nat, j: nat, k: nat, x: T)
    requires i < |s| && j < |s| && k < |s|
    ensures SetAll(s, [i, j, k], x) == s[k := x][j := x][i := x]
  {
    assert [k][1..] == [] && SetAll(s, [k], x) == s[k := x];
    assert [j, k][1..] == [k] && SetAll(s, [j, k], x) == s[k := x][j := x];
    assert [i, j, k][1..] == [j, k];
  }

  lemma FinishInv(s: State, b: nat)
    requires Inv(s) && Enabled(s, Finish(b))
    ensures Inv(Apply(s, Finish(b)))
  {
    var s', p := Apply(s, Finish(b)), s.phase[b];
    assert ChainOk(s, b);
    ChainIs(s, b);
    SetThree(s.free, p.i, p.j, p.k, true);
    SetThree(s.next, p.i, p.j, p.k, 0);
    SetThree(s.more, p.i, p.j, p.k, false);
    SetThree(s.owner, p.i, p.j, p.k, -1);
    FinishOwners(s, s', b);
    forall h, c | Awaited(s, h, c)
      ensures Awaited(s', h, c)
    {
      assert ChainOk(s, s.info[h]);
    }
    WindowsStay(s, s');
  }

  lemma FinishOwners(s: State, s': State, b: nat)
    requires Shape(s) && Shape(s') && Owners(s) && |s'.disk| == |s.disk| && IsBuf(s, b) && s.phase[b].Busy?
             && s'.phase == s.phase[b := Idle] && ChainOk(s, b)
    requires var p := s.phase[b];
             && s'.free == s.free[p.k := true][p.j := true][p.i := true]
                && s'.owner == s.owner[p.k := -1][p.j := -1][p.i := -1]
             && s'.next == s.next[p.k := 0][p.j := 0][p.i := 0]
                && s'.more == s.more[p.k := false][p.j := false][p.i := false]
             && s'.info == s.info[p.i := -1]
    ensures Owners(s')
  {
    forall c | IsBuf(s', c) && s'.phase[c].Busy?
      ensures ChainOk(s', c)
    {
      assert ChainOk(s, c);
    }
    forall d | 0 <= d < NUM
      ensures if s'.free[d] then s'.owner[d] == -1 else IsBuf(s', s'.owner[d]) && Holds(s'.phase[s'.owner[d]], d)
    {
      assert if s.free[d] then s.owner[d] == -1 else IsBuf(s, s.owner[d]) && Holds(s.phase[s.owner[d]], d);
    }
  }

  // ----- every run -----

  lemma StepInv(s: State, step: Step)
    requires Inv(s) && Enabled(s, step)
    ensures Inv(Apply(s, step))
  {
    match step
    case Start(b) => StartInv(s, b);
    case Enter(b) => EnterInv(s, b);
    case Publish(b) => PublishInv(s, b);
    case Finish(b) => FinishInv(s, b);
    case Take => TakeInv(s);
    case Complete(h, st) => CompleteInv(s, h, st);
    case IntrNext => IntrNextInv(s);
    case _ => IntrInv(s, step);
  }

  /** After virtio_disk_init(): all descriptors free, both rings empty. */
  ghost predicate Initial(s: State) {
    && Shape(s) && s.lock == -1 && s.pending == {}
    && s.made == 0 && s.taken == 0 && s.done == 0 && s.seen == 0 && s.availIdx == 0 && s.devIdx == 0 && s.usedIdx == 0
       && s.drvIdx == 0
    && (forall d :: 0 <= d < NUM ==> s.free[d] && s.owner[d] == -1)
    && (forall b :: IsBuf(s, b) ==> s.phase[b] == Idle)
  }

  ghost predicate Reaches(s: State, steps: seq<Step>, s': State)
    decreases |steps|
  {
    if steps == [] then s' == s else Enabled(s, steps[0]) && Reaches(Apply(s, steps[0]), steps[1..], s')
  }

  lemma {:induction false} RunInv(s: State, steps: seq<Step>, s': State)
    requires Inv(s) && Reaches(s, steps, s')
    ensures Inv(s')
    decreases |steps|
  {
    if steps != [] {
      StepInv(s, steps[0]);
      RunInv(Apply(s, steps[0]), steps[1..], s');
    }
  }

  ghost predicate Reachable(s: State) {
    Shape(s) && exists s0, steps :: Initial(s0) && Reaches(s0, steps, s)
  }

  lemma ReachableInv(s: State)
    requires Reachable(s)
    ensures Inv(s)
  {
    var s0, steps :| Initial(s0) && Reaches(s0, steps, s);
    RunInv(s0, steps, s);
  }

  /** A descriptor is free, or in the chain of exactly one request. */
  lemma FreeOrInOneChain(s: State, d: nat)
    requires Reachable(s) && d < NUM
    ensures s.free[d] <==> forall b :: IsBuf(s, b) ==> !Holds(s.phase[b], d)
    ensures forall b, c :: IsBuf(s, b) && IsBuf(s, c) && Holds(s.phase[b], d) && Holds(s.phase[c], d) ==> b == c
  {
    ReachableInv(s);
    forall b | IsBuf(s, b) && Holds(s.phase[b], d)
      ensures s.owner[d] == b
    {
      assert ChainOk(s, b);
    }
  }

  /** free_chain() frees three different descriptors that are in use: free_desc() does not panic. */
  lemma NoDoubleFree(s: State, b: nat)
    requires Reachable(s) && Enabled(s, Finish(b))
    ensures var ds := Chain(s, s.phase[b].i, NUM);
            |ds| == 3 && ds[0] < ds[1] < ds[2] < NUM && !s.free[ds[0]] && !s.free[ds[1]] && !s.free[ds[2]]
  {
    ReachableInv(s);
    assert ChainOk(s, b);
    ChainIs(s, b);
  }

  /** No entry the device has not taken is overwritten, even when indices wrap. */
  lemma AvailNotOverwritten(s: State, b: nat, n: nat)
    requires Reachable(s) && Enabled(s, Enter(b)) && s.taken <= n < s.made
    ensures AvailAt(Apply(s, Enter(b)), n) == AvailAt(s, n)
  {
    ReachableInv(s);
    AvailShort(s, b);
    SlotOf(s.made);
    SlotsApart(n, s.made);
  }

  /** virtio_disk_rw() returns only after the device has completed its own request, and with success. */
  lemma ReturnsCompleted(s: State, b: nat)
    requires Reachable(s) && Enabled(s, Finish(b))
    ensures s.completed[b] && s.report[b] == 0
  {
    ReachableInv(s);
  }

  /**
   The handler goes on exactly while entries are left. The next entry is for a request that the
   device has completed, and the handler panics if and only if the device reported that one failed.
   */
  lemma HandlerSafe(s: State)
    requires Reachable(s)
    ensures s.drvIdx != s.usedIdx <==> s.seen < s.done
    ensures s.drvIdx != s.usedIdx ==>
              var id := s.used[s.drvIdx % NUM];
              id < NUM && IsBuf(s, s.info[id]) && s.completed[s.info[id]]
                  && (StatusOk(s) <==> s.report[s.info[id]] == 0)
  {
    ReachableInv(s);
    SlotOf(s.seen);
    UsedBounded(s);
    IndexTells(s.seen, s.done);
    if s.seen < s.done { assert Awaited(s, UsedAt(s, s.seen), true); }
  }

  lemma UsedBounded(s: State)
    requires Inv(s)
    ensures s.done - s.seen <= NUM
  {
    if s.seen < s.done {
      assert Awaited(s, UsedAt(s, s.seen), true);
      forall n | s.seen + 1 <= n < s.done
        ensures UsedAt(s, n) < NUM && UsedAt(s, n) != UsedAt(s, s.seen)
      {
        assert Awaited(s, UsedAt(s, n), true);
      }
      WindowShort(n => UsedAt(s, n), s.seen + 1, s.done, UsedAt(s, s.seen));
    }
  }
}
