/** The loops of kernel/virtio_disk.c over the descriptors. */
module VirtioDriver {
  import opened Virtio
  import opened VirtioSafety

  /** After the first free descriptors are taken, the lowest free one is the next. */
  lemma {:induction false} LowestAfter(free: seq<bool>, f: nat, i: nat)
    requires f < |free| && i <= |free| && free[f] && (forall e :: 0 <= e < f ==> !free[e]) && i <= f
    ensures LowestFree(free[f := false], i) == LowestFree(free, f + 1)
    decreases f - i
  {
    if i < f { LowestAfter(free, f, i + 1); } else { LowestSame(free, f, f + 1); }
  }

  lemma {:induction false} LowestSame(free: seq<bool>, f: nat, i: nat)
    requires f < i <= |free|
    ensures LowestFree(free[f := false], i) == LowestFree(free, i)
    decreases |free| - i
  {
    if i < |free| { LowestSame(free, f, i + 1); }
  }

  /** The first n of these descriptors were freed. */
  ghost predicate FreedSome(s: State, s': State, ds: seq<nat>, n: nat)
    requires Shape(s) && Shape(s') && n <= |ds|
  {
    && s' == s.(free := s'.free, next := s'.next, more := s'.more)
    && forall e :: 0 <= e < NUM ==>
         if e in ds[..n] then s'.free[e] && s'.next[e] == 0 && !s'.more[e]
         else s'.free[e] == s.free[e] && s'.next[e] == s.next[e] && s'.more[e] == s.more[e]
  }

  lemma FreedOne(s: State, i: nat)
    requires Shape(s) && i < NUM
    ensures ChainFreed(s, [i]) == s.(free := s.free[i := true], next := s.next[i := 0], more := s.more[i := false])
  {
    SetOne(s.free, i, true);
    SetOne(s.next, i, 0);
    SetOne(s.more, i, false);
  }

  lemma SetOne<T>(s: seq<T>, i: nat, x: T)
    requires i < |s|
    ensures SetAll(s, [i], x) == s[i := x]
  {
    assert [i][1..] == [] && SetAll(s, [], x) == s;
  }

  lemma FreedNext(s: State, s1: State, ds: seq<nat>, n: nat)
    requires Shape(s) && Shape(s1) && n < |ds| && FreedSome(s, s1, ds, n) && ds[n] < NUM
    ensures FreedSome(s, ChainFreed(s1, [ds[n]]), ds, n + 1)
  {
    FreedOne(s1, ds[n]);
    assert ds[..n + 1] == ds[..n] + [ds[n]];
  }

  lemma FreedAll(s: State, s': State, i: nat, j: nat, k: nat)
    requires Shape(s) && Shape(s') && i < NUM && j < NUM && k < NUM && FreedSome(s, s', [i, j, k], 3)
    ensures s' == ChainFreed(s, [i, j, k])
  {
    SetThree(s.free, i, j, k, true);
    SetThree(s.next, i, j, k, 0);
    SetThree(s.more, i, j, k, false);
    assert [i, j, k][..3] == [i, j, k];
    assert s'.free == s.free[k := true][j := true][i := true];
    assert s'.next == s.next[k := 0][j := 0][i := 0];
    assert s'.more == s.more[k := false][j := false][i := false];
  }

  /** The descriptors taken so far, in the order alloc3_desc() takes them. */
  ghost predicate Taken(s: State, s': State, idx: seq<nat>)
    requires Shape(s)
  {
    && s' == s.(free := s'.free) && |s'.free| == NUM && |idx| <= 3
    && (|idx| > 0 ==> idx[0] == First(s.free) < NUM) && (|idx| > 1 ==> idx[1] == Second(s.free) < NUM)
    && (|idx| > 2 ==> idx[2] == Third(s.free) < NUM)
    && s'.free == match |idx| case 0 => s.free case 1 => s.free[idx[0] := false]
                  case 2 => s.free[idx[0] := false][idx[1] := false]
                  case _ => s.free[idx[0] := false][idx[1] := false][idx[2] := false]
  }

  /** Descriptors idx[j..] are yet to be given back. */
  ghost predicate Returning(s0: State, s: State, idx: seq<nat>, j: nat)
    requires Shape(s0) && j <= |idx|
  {
    && Shape(s) && s == s0.(free := s.free, next := s.next, more := s.more)
    && (forall e :: 0 <= e < NUM ==> s.free[e] == (s0.free[e] && e !in idx[j..]))
    && (forall e :: 0 <= e < NUM && !s0.free[e] ==> s.next[e] == s0.next[e] && s.more[e] == s0.more[e])
    && (forall k :: 0 <= k < |idx| ==> idx[k] < NUM && s0.free[idx[k]])
    && (forall k, l :: 0 <= k < l < |idx| ==> idx[k] != idx[l])
  }

  lemma NoneReturned(s0: State, s: State, idx: seq<nat>)
    requires Shape(s0) && Shape(s) && |idx| < 3 && Taken(s0, s, idx)
    ensures Returning(s0, s, idx, 0)
  {}

  lemma AllReturned(s0: State, s: State, idx: seq<nat>)
    requires Shape(s0) && Returning(s0, s, idx, |idx|)
    ensures s == s0.(next := s.next, more := s.more)
  {
    assert s.free == s0.free;
  }

  lemma ReturnOne(s0: State, s: State, idx: seq<nat>, j: nat)
    requires Shape(s0) && j < |idx| && Returning(s0, s, idx, j)
    ensures !s.free[idx[j]] && Returning(s0, ChainFreed(s, [idx[j]]), idx, j + 1)
  {
    assert idx[j..] == [idx[j]] + idx[j + 1..];
    FreedOne(s, idx[j]);
  }

  /** The next one alloc_desc() finds is the next of the three, and if there is none then not all three exist. */
  lemma NextTaken(s: State, s': State, idx: seq<nat>)
    requires Shape(s) && Taken(s, s', idx) && |idx| < 3
    ensures var d := LowestFree(s'.free, 0);
            if d == NUM then Third(s.free) >= NUM else Taken(s, s'.(free := s'.free[d := false]), idx + [d])
  {
    if |idx| == 1 {
      LowestAfter(s.free, idx[0], 0);
    } else if |idx| == 2 {
      LowestAfter(s.free, idx[0], 0);
      LowestAfter(s.free[idx[0] := false], idx[1], 0);
      LowestSame(s.free, idx[0], idx[1] + 1);
    }
  }

  class Disk {
    var s: State

    /** alloc_desc(): the lowest free descriptor, no longer free, or -1. */
    method AllocDesc() returns (d: int)
      requires Shape(s)
      modifies this
      ensures if LowestFree(old(s).free, 0) == NUM then d == -1 && s == old(s)
              else d == LowestFree(old(s).free, 0) && s == old(s).(free := old(s).free[d := false])
    {
      var i := 0;
      while i < NUM
        invariant i <= NUM && s == old(s) && LowestFree(s.free, 0) == LowestFree(s.free, i)
      {
        if s.free[i] {
          s := s.(free := s.free[i := false]);
          return i;
        }
        i := i + 1;
      }
      return -1;
    }

    /** free_desc(): a descriptor in use is cleared and free. */
    method FreeDesc(i: nat)
      requires Shape(s) && i < NUM && !s.free[i]
      modifies this
      ensures s == ChainFreed(old(s), [i]) && Shape(s)
    {
      if i >= NUM {
        assert false;
      }
      if s.free[i] {
        assert false;
      }
      FreedOne(s, i);
      s := s.(next := s.next[i := 0], more := s.more[i := false], free := s.free[i := true]);
    }

    /** free_chain(): free the chain that starts at i. */
    method FreeChain(i: nat, ghost b: nat)
      requires Shape(s) && IsBuf(s, b) && s.phase[b].Busy? && ChainOk(s, b) && i == s.phase[b].i
      requires !s.free[s.phase[b].i] && !s.free[s.phase[b].j] && !s.free[s.phase[b].k]
      modifies this
      ensures s == ChainFreed(old(s), Chain(old(s), i, NUM))
    {
      ChainIs(s, b);
      ghost var p, n := s.phase[b], 0;
      ghost var ds := [p.i, p.j, p.k];
      var d, more := i, true;
      while more
        invariant 0 <= n <= 3 && Shape(s) && (more <==> n < 3) && (more ==> d == ds[n]) && FreedSome(old(s), s, ds, n)
        decreases 3 - n
      {
        var flag, nxt := s.more[d], s.next[d];
        FreedNext(old(s), s, ds, n);
        FreeDesc(d);
        n := n + 1;
        more := flag;
        if flag {
          d := nxt;
        }
      }
      FreedAll(old(s), s, p.i, p.j, p.k);
    }

    /** alloc3_desc(): three free descriptors, or none taken. Failing attempts may clear free descriptors. */
    method Alloc3() returns (ok: bool, idx: seq<nat>)
      requires Shape(s)
      modifies this
      ensures ok <==> Third(old(s).free) < NUM
      ensures ok ==> idx == [First(old(s).free), Second(old(s).free), Third(old(s).free)]
      ensures ok ==> s == old(s).(free := old(s).free[idx[0] := false][idx[1] := false][idx[2] := false])
      ensures !ok ==> s == old(s).(next := s.next, more := s.more) && Shape(s)
      ensures !ok ==>
                forall e :: 0 <= e < NUM && !s.free[e] ==> s.next[e] == old(s).next[e] && s.more[e] == old(s).more[e]
    {
      ok, idx := true, [];
      while ok && |idx| < 3
        invariant |idx| <= 3 && Shape(s)
        invariant ok ==> Taken(old(s), s, idx)
        invariant !ok ==> Third(old(s).free) >= NUM && s == old(s).(next := s.next, more := s.more)
        invariant !ok ==>
                    forall e :: 0 <= e < NUM && !s.free[e] ==>
                      s.next[e] == old(s).next[e] && s.more[e] == old(s).more[e]
        decreases ok, 3 - |idx|
      {
        NextTaken(old(s), s, idx);
        var d := AllocDesc();
        if d < 0 {
          GiveBack(idx, old(s));
          ok := false;
        } else {
          idx := idx + [d];
        }
      }
    }

    /** The inner loop of alloc3_desc(). */
    method GiveBack(idx: seq<nat>, ghost s0: State)
      requires Shape(s) && Shape(s0) && |idx| < 3 && Taken(s0, s, idx)
      modifies this
      ensures Shape(s) && s == s0.(next := s.next, more := s.more)
      ensures forall e :: 0 <= e < NUM && !s.free[e] ==> s.next[e] == s0.next[e] && s.more[e] == s0.more[e]
    {
      var j := 0;
      NoneReturned(s0, s, idx);
      while j < |idx|
        invariant j <= |idx| && Returning(s0, s, idx, j)
      {
        ReturnOne(s0, s, idx, j);
        FreeDesc(idx[j]);
        j := j + 1;
      }
      AllReturned(s0, s, idx);
    }
  }
}
