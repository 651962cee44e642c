/**
 The buffer cache's ring, kernel/bio.c: buffers linked through next and prev
 around a list head, most recently used first.

 `order` is the ring from the head on, and `freed` when each buffer was last moved
 to the front; both are ghost. The head is node n, the buffers nodes 0 up to n.
 */
module Bio {
  import opened Options

  datatype Ring = Ring(next: seq<nat>, prev: seq<nat>)

  datatype Buf = Buf(dev: nat, blockno: nat, valid: bool, refcnt: nat)

  datatype Cache = Cache(ring: Ring, bufs: seq<Buf>, ghost order: seq<nat>, ghost freed: seq<nat>, ghost now: nat)

  // ----- the ring -----

  /** Node i of the ring, counting the head as node -1 and as the one after the last. */
  ghost function Node(n: nat, order: seq<nat>, i: int): nat {
    if 0 <= i < |order| then order[i] else n
  }

  ghost predicate LinkAt(r: Ring, n: nat, order: seq<nat>, i: nat)
    requires |r.next| == |r.prev| == n + 1
  {
    var a, b := Node(n, order, i - 1), Node(n, order, i);
    a <= n && b <= n && r.next[a] == b && r.prev[b] == a
  }

  /** The links go through the buffers in this order, and each buffer once. */
  ghost predicate IsRing(r: Ring, n: nat, order: seq<nat>) {
    && |r.next| == |r.prev| == n + 1
    && (forall i :: 0 <= i < |order| ==> order[i] < n)
    && (forall i, j :: 0 <= i < j < |order| ==> order[i] != order[j])
    && (forall i :: 0 <= i <= |order| ==> LinkAt(r, n, order, i))
  }

  ghost function Without(order: seq<nat>, p: nat): seq<nat>
    requires p < |order|
  {
    order[..p] + order[p + 1..]
  }

  function Unlink(r: Ring, b: nat): Ring
    requires b < |r.next| == |r.prev| && r.next[b] < |r.prev| && r.prev[b] < |r.next|
  {
    Ring(r.next[r.prev[b] := r.next[b]], r.prev[r.next[b] := r.prev[b]])
  }

  function PutFirst(r: Ring, n: nat, b: nat): Ring
    requires b < n && |r.next| == |r.prev| == n + 1 && r.next[n] <= n
  {
    var first := r.next[n];
    Ring(r.next[b := first][n := b], r.prev[b := n][first := b])
  }

  lemma UnlinkRing(r: Ring, n: nat, order: seq<nat>, p: nat)
    requires IsRing(r, n, order) && p < |order|
    ensures r.next[order[p]] <= n && r.prev[order[p]] <= n
    ensures IsRing(Unlink(r, order[p]), n, Without(order, p))
  {
    var b := order[p];
    assert LinkAt(r, n, order, p) && LinkAt(r, n, order, p + 1);
    var r', order' := Unlink(r, b), Without(order, p);
    forall i | 0 <= i <= |order'|
      ensures LinkAt(r', n, order', i)
    {
      assert LinkAt(r, n, order, if i <= p then i else i + 1);
    }
  }

  lemma PutFirstRing(r: Ring, n: nat, order: seq<nat>, b: nat)
    requires IsRing(r, n, order) && b < n && b !in order
    ensures r.next[n] <= n && IsRing(PutFirst(r, n, b), n, [b] + order)
  {
    assert LinkAt(r, n, order, 0);
    var r', order' := PutFirst(r, n, b), [b] + order;
    forall i | 0 <= i <= |order'|
      ensures LinkAt(r', n, order', i)
    {
      if i > 0 { assert LinkAt(r, n, order, i - 1); }
    }
  }

  // ----- the cache -----

  predicate IsFor(b: Buf, dev: nat, blockno: nat) { b.dev == dev && b.blockno == blockno }

  /** At most one buffer per block, but for block 0 of device 0, which every buffer starts as. */
  ghost predicate OnePerBlock(bufs: seq<Buf>) {
    forall i, j :: 0 <= i < j < |bufs| && IsFor(bufs[j], bufs[i].dev, bufs[i].blockno) ==> IsFor(bufs[i], 0, 0)
  }

  /** Buffers further down the ring were moved to its front no later. */
  ghost predicate ByRecency(c: Cache) {
    && (forall i :: 0 <= i < |c.order| ==> c.order[i] < |c.freed|)
    && (forall i, j :: 0 <= i < j < |c.order| ==> c.freed[c.order[i]] >= c.freed[c.order[j]])
    && (forall i :: 0 <= i < |c.freed| ==> c.freed[i] <= c.now)
  }

  ghost predicate Inv(c: Cache) {
    && IsRing(c.ring, |c.bufs|, c.order)
    && (forall b :: 0 <= b < |c.bufs| ==> b in c.order)
    && OnePerBlock(c.bufs)
    && |c.freed| == |c.bufs| && ByRecency(c)
  }

  /** The cache is full of buffers in use. */
  predicate AllInUse(c: Cache) { forall b :: 0 <= b < |c.bufs| ==> c.bufs[b].refcnt > 0 }

  predicate IsCached(c: Cache, dev: nat, blockno: nat) {
    exists b :: 0 <= b < |c.bufs| && IsFor(c.bufs[b], dev, blockno)
  }

  /** b is unused, and no unused buffer was moved to the front before it. */
  ghost predicate LeastRecent(c: Cache, b: nat)
    requires |c.freed| == |c.bufs|
  {
    b < |c.bufs| && c.bufs[b].refcnt == 0
    && forall a :: 0 <= a < |c.bufs| && c.bufs[a].refcnt == 0 ==> c.freed[b] <= c.freed[a]
  }

  function Update(c: Cache, b: nat, buf: Buf): Cache
    requires b < |c.bufs|
  {
    c.(bufs := c.bufs[b := buf])
  }

  function Reference(c: Cache, b: nat): Cache
    requires b < |c.bufs|
  {
    Update(c, b, c.bufs[b].(refcnt := c.bufs[b].refcnt + 1))
  }

  function Recycle(c: Cache, b: nat, dev: nat, blockno: nat): Cache
    requires b < |c.bufs|
  {
    Update(c, b, Buf(dev, blockno, false, 1))
  }

  function Drop(c: Cache, b: nat): Cache
    requires b < |c.bufs| && c.bufs[b].refcnt > 0
  {
    Update(c, b, c.bufs[b].(refcnt := c.bufs[b].refcnt - 1))
  }

  /** The position of a buffer in the ring. */
  ghost function Place(order: seq<nat>, b: nat): (p: nat)
    requires b in order
    ensures p < |order| && order[p] == b
  {
    var p :| 0 <= p < |order| && order[p] == b; p
  }

  /** The ring with b moved to its front. */
  ghost function Promoted(c: Cache, b: nat): Cache
    requires Inv(c) && b < |c.bufs|
  {
    UnlinkRing(c.ring, |c.bufs|, c.order, Place(c.order, b));
    UnlinkedFirst(c, b);
    c.(ring := PutFirst(Unlink(c.ring, b), |c.bufs|, b),
       order := [b] + Without(c.order, Place(c.order, b)),
       freed := c.freed[b := c.now + 1], now := c.now + 1)
  }

  lemma UnlinkedFirst(c: Cache, b: nat)
    requires Inv(c) && b < |c.bufs|
    ensures c.ring.next[b] <= |c.bufs| && c.ring.prev[b] <= |c.bufs|
    ensures Unlink(c.ring, b).next[|c.bufs|] <= |c.bufs|
  {
    var p := Place(c.order, b);
    UnlinkRing(c.ring, |c.bufs|, c.order, p);
    assert LinkAt(Unlink(c.ring, b), |c.bufs|, Without(c.order, p), 0);
  }

  lemma PromotedInv(c: Cache, b: nat)
    requires Inv(c) && b < |c.bufs|
    ensures Inv(Promoted(c, b))
  {
    var n, p := |c.bufs|, Place(c.order, b);
    var rest := Without(c.order, p);
    UnlinkRing(c.ring, n, c.order, p);
    PutFirstRing(Unlink(c.ring, b), n, rest, b);
    forall a | 0 <= a < n
      ensures a in [b] + rest
    {
      if a != b {
        var i := Place(c.order, a);
        assert rest[if i < p then i else i - 1] == a;
      }
    }
    PromotedOrder(c, b);
  }

  lemma PromotedOrder(c: Cache, b: nat)
    requires Inv(c) && b < |c.bufs|
    ensures ByRecency(Promoted(c, b))
  {
    var p := Place(c.order, b);
    var order := [b] + Without(c.order, p);
    forall i | 0 <= i < |order|
      ensures order[i] == if i == 0 then b else c.order[if i <= p then i - 1 else i]
    {}
  }

  /** Changing one buffer keeps the invariant, if it does not take over another one's block. */
  lemma UpdateInv(c: Cache, b: nat, buf: Buf)
    requires Inv(c) && b < |c.bufs|
    requires IsFor(buf, c.bufs[b].dev, c.bufs[b].blockno) || !IsCached(c, buf.dev, buf.blockno)
    ensures Inv(Update(c, b, buf))
  {}

  class BufferCache {
    var c: Cache

    /** binit() */
    constructor (n: nat)
      ensures Inv(c) && |c.bufs| == n
      ensures forall b :: 0 <= b < n ==> c.bufs[b] == Buf(0, 0, false, 0)
    {
      var r := Ring(seq(n + 1, _ => n), seq(n + 1, _ => n));
      ghost var order: seq<nat> := [];
      assert LinkAt(r, n, order, 0);
      for b := 0 to n
        invariant IsRing(r, n, order) && |order| == b
        invariant forall i :: 0 <= i < b ==> order[i] == b - 1 - i
      {
        PutFirstRing(r, n, order, b);
        r := PutFirst(r, n, b);
        order := [b] + order;
      }
      forall b | 0 <= b < n
        ensures b in order
      {
        assert order[n - 1 - b] == b;
      }
      c := Cache(r, seq(n, _ => Buf(0, 0, false, 0)), order, seq(n, _ => 0), 0);
    }

    /** bget()'s search for the block, from the most recently used buffer on. */
    method Find(dev: nat, blockno: nat) returns (r: Option<nat>)
      requires Inv(c)
      ensures r.None? ==> !IsCached(c, dev, blockno)
      ensures r.Some? ==> r.value < |c.bufs| && IsFor(c.bufs[r.value], dev, blockno)
    {
      var n := |c.bufs|;
      ghost var i := 0;
      assert LinkAt(c.ring, n, c.order, 0);
      var b := c.ring.next[n];
      while b != n && !IsFor(c.bufs[b], dev, blockno)
        invariant 0 <= i <= |c.order| && b == Node(n, c.order, i) && b <= n
        invariant forall k :: 0 <= k < i ==> !IsFor(c.bufs[c.order[k]], dev, blockno)
        decreases |c.order| - i
      {
        assert LinkAt(c.ring, n, c.order, i + 1);
        b := c.ring.next[b];
        i := i + 1;
      }
      r := if b == n then None else Some(b);
      if b == n {
        forall a | 0 <= a < n
          ensures !IsFor(c.bufs[a], dev, blockno)
        {
          var k := Place(c.order, a);
        }
      }
    }

    /** bget()'s search for an unused buffer, from the least recently used one on. */
    method FindUnused() returns (r: Option<nat>)
      requires Inv(c)
      ensures r.None? ==> AllInUse(c)
      ensures r.Some? ==> LeastRecent(c, r.value)
    {
      var n := |c.bufs|;
      ghost var i := |c.order| - 1;
      assert LinkAt(c.ring, n, c.order, |c.order|);
      var b := c.ring.prev[n];
      while b != n && c.bufs[b].refcnt != 0
        invariant -1 <= i < |c.order| && b == Node(n, c.order, i) && b <= n
        invariant forall k :: i < k < |c.order| ==> c.bufs[c.order[k]].refcnt > 0
        decreases i
      {
        assert LinkAt(c.ring, n, c.order, i);
        b := c.ring.prev[b];
        i := i - 1;
      }
      r := if b == n then None else Some(b);
      if b != n {
        forall a | 0 <= a < n && c.bufs[a].refcnt == 0
          ensures c.freed[b] <= c.freed[a]
        {
          assert Place(c.order, a) <= i;
        }
      } else {
        forall a | 0 <= a < n
          ensures c.bufs[a].refcnt > 0
        {
          var k := Place(c.order, a);
        }
      }
    }

    /**
     bget(), which panics if there is no buffer to be had. A cached block keeps its
     buffer, and any other takes over the least recently used of the unused ones.
     */
    method Bget(dev: nat, blockno: nat) returns (r: Option<nat>)
      requires Inv(c)
      modifies this
      ensures Inv(c)
      ensures r.None? <==> !IsCached(old(c), dev, blockno) && AllInUse(old(c))
      ensures r.None? ==> c == old(c)
      ensures r.Some? ==> r.value < |c.bufs| == |old(c.bufs)| && IsFor(c.bufs[r.value], dev, blockno)
      ensures r.Some? && IsCached(old(c), dev, blockno) ==> c == Reference(old(c), r.value)
      ensures r.Some? && !IsCached(old(c), dev, blockno) ==>
                LeastRecent(old(c), r.value) && c == Recycle(old(c), r.value, dev, blockno)
    {
      r := Find(dev, blockno);
      if r.Some? {
        UpdateInv(c, r.value, c.bufs[r.value].(refcnt := c.bufs[r.value].refcnt + 1));
        c := Reference(c, r.value);
        return;
      }
      r := FindUnused();
      if r.Some? {
        UpdateInv(c, r.value, Buf(dev, blockno, false, 1));
        c := Recycle(c, r.value, dev, blockno);
      }
    }

    /** brelse(), for a buffer the caller has a reference to. */
    method Brelse(b: nat)
      requires Inv(c) && b < |c.bufs| && c.bufs[b].refcnt > 0
      modifies this
      ensures Inv(c)
      ensures c.bufs == Drop(old(c), b).bufs
      ensures old(c.bufs[b].refcnt) > 1 ==> c == Drop(old(c), b)
      ensures old(c.bufs[b].refcnt) == 1 ==>
                c.order == [b] + Without(old(c.order), Place(old(c.order), b)) && c.freed == old(c.freed)[b := c.now]
                    && c.now == old(c.now) + 1
    {
      UpdateInv(c, b, c.bufs[b].(refcnt := c.bufs[b].refcnt - 1));
      c := Drop(c, b);
      if c.bufs[b].refcnt == 0 {
        var n := |c.bufs|;
        PromotedInv(c, b);
        UnlinkedFirst(c, b);
        ghost var p := Promoted(c, b);
        c := Cache(PutFirst(Unlink(c.ring, b), n, b), c.bufs, p.order, p.freed, p.now);
      }
    }

    /** bpin() */
    method Bpin(b: nat)
      requires Inv(c) && b < |c.bufs|
      modifies this
      ensures Inv(c) && c == Reference(old(c), b)
    {
      UpdateInv(c, b, c.bufs[b].(refcnt := c.bufs[b].refcnt + 1));
      c := Reference(c, b);
    }

    /** bunpin(), which leaves even an unused buffer where it is in the ring. */
    method Bunpin(b: nat)
      requires Inv(c) && b < |c.bufs| && c.bufs[b].refcnt > 0
      modifies this
      ensures Inv(c) && c == Drop(old(c), b)
    {
      UpdateInv(c, b, c.bufs[b].(refcnt := c.bufs[b].refcnt - 1));
      c := Drop(c, b);
    }

    /** A bget(), or a brelse() of a reference other than the pin of buffer b. */
    method Perform(call: Call, b: nat)
      requires Inv(c)
      modifies this
      ensures Inv(c) && Does(old(c), call, c, b)
    {
      match call
      case Get(dev, blockno) =>
        var r := Bget(dev, blockno);
        if r.Some? { assert r.value < |old(c).bufs|; }
      case Release(a) =>
        if a < |c.bufs| && c.bufs[a].refcnt > (if a == b then 1 else 0) {
          Brelse(a);
        }
    }

    /**
     Whatever is asked of the cache between bpin() and bunpin(), the buffer keeps its block: no
     bget() takes it over. `trace` has the cache after bpin() and after each call.
     */
    method PinnedStays(b: nat, calls: seq<Call>) returns (ghost trace: seq<Cache>)
      requires Inv(c) && b < |c.bufs|
      modifies this
      ensures Inv(c) && IsTrace(Reference(old(c), b), calls, trace, b)
      ensures forall k :: 0 <= k < |trace| ==> Keeps(old(c), trace[k], b)
      ensures Keeps(old(c), trace[|calls|], b) && c == Drop(trace[|calls|], b)
    {
      Bpin(b);
      trace := [c];
      for k := 0 to |calls|
        invariant Inv(c) && |trace| == k + 1 && trace[k] == c && IsTrace(Reference(old(c), b), calls[..k], trace, b)
        invariant forall l :: 0 <= l < |trace| ==> Keeps(old(c), trace[l], b)
      {
        ghost var c1 := c;
        assert calls[..k + 1] == calls[..k] + [calls[k]];
        Perform(calls[k], b);
        KeepsOn(old(c), c1, calls[k], c, b);
        TraceMore(Reference(old(c), b), calls[..k], trace, b, calls[k], c);
        trace := trace + [c];
      }
      assert calls[..|calls|] == calls;
      Bunpin(b);
    }
  }

  datatype Call = Get(dev: nat, blockno: nat) | Release(a: nat)

  /** What a call does while buffer b is pinned, the pin being nobody's to release. */
  ghost predicate Does(c: Cache, call: Call, c': Cache, b: nat) {
    && |c.freed| == |c.bufs|
    && match call
       case Get(dev, blockno) =>
         if IsCached(c, dev, blockno) then
           exists a: nat :: a < |c.bufs| && IsFor(c.bufs[a], dev, blockno) && c' == Reference(c, a)
         else if AllInUse(c) then c' == c
         else exists a: nat :: a < |c.bufs| && LeastRecent(c, a) && c' == Recycle(c, a, dev, blockno)
       case Release(a) =>
         if a < |c.bufs| && c.bufs[a].refcnt > (if a == b then 1 else 0) then c'.bufs == Drop(c, a).bufs else c' == c
  }

  ghost predicate DoesAt(calls: seq<Call>, trace: seq<Cache>, b: nat, k: nat)
    requires k < |calls| && k + 1 < |trace|
  {
    Does(trace[k], calls[k], trace[k + 1], b)
  }

  ghost predicate IsTrace(c: Cache, calls: seq<Call>, trace: seq<Cache>, b: nat) {
    |trace| == |calls| + 1 && trace[0] == c && forall k :: 0 <= k < |calls| ==> DoesAt(calls, trace, b, k)
  }

  lemma TraceMore(c: Cache, calls: seq<Call>, trace: seq<Cache>, b: nat, call: Call, c': Cache)
    requires IsTrace(c, calls, trace, b) && Does(trace[|calls|], call, c', b)
    ensures IsTrace(c, calls + [call], trace + [c'], b)
  {
    var cs, ts := calls + [call], trace + [c'];
    forall k | 0 <= k < |cs|
      ensures DoesAt(cs, ts, b, k)
    {
      if k < |calls| { assert DoesAt(calls, trace, b, k); }
    }
  }

  /** Buffer b has the block it had, and is in use. */
  ghost predicate Keeps(c: Cache, c': Cache, b: nat)
    requires b < |c.bufs|
  {
    b < |c'.bufs| == |c.bufs| && c'.bufs[b] == c.bufs[b].(refcnt := c'.bufs[b].refcnt) && c'.bufs[b].refcnt > 0
  }

  lemma KeepsOn(c: Cache, c1: Cache, call: Call, c2: Cache, b: nat)
    requires b < |c.bufs| && Keeps(c, c1, b) && Does(c1, call, c2, b)
    ensures Keeps(c, c2, b)
  {}
}
