/**
 user/umalloc.c: free(), morecore() and malloc() over headers in memory. Addresses
 and sizes are in units of a header (16 bytes); 0 is the null pointer.
 */
module Umalloc {
  import opened FreeRing

  /**
   The pointer and size of every header in use, and freep. `ring` is the free list
   in address order, `live` the blocks handed out, `total` the units obtained from
   sbrk() and `top` the end of the last of them.
   */
  datatype Heap = Heap(ptr: map<nat, nat>, size: map<nat, nat>, freep: nat,
                       ghost ring: seq<Block>, ghost live: map<nat, nat>, ghost total: nat, ghost top: nat)

  function Succ(i: nat, n: nat): nat { if i + 1 < n then i + 1 else 0 }

  /** The header of block i has its size and points to the next block, or from the last to the first. */
  ghost predicate LinkAt(ptr: map<nat, nat>, size: map<nat, nat>, ring: seq<Block>, i: nat)
    requires i < |ring|
  {
    var a := ring[i].a;
    a in ptr && a in size && size[a] == ring[i].n && ptr[a] == ring[Succ(i, |ring|)].a
  }

  /** The headers of the list form one cycle in the order of the list. */
  ghost predicate Links(ptr: map<nat, nat>, size: map<nat, nat>, ring: seq<Block>) {
    forall i :: 0 <= i < |ring| ==> LinkAt(ptr, size, ring, i)
  }

  ghost predicate Different(ring: seq<Block>) {
    forall i, j :: 0 <= i < j < |ring| ==> ring[i].a != ring[j].a
  }

  /** Blocks handed out lie above base and below top, and apart from each other and from the free list. */
  ghost predicate LiveOk(size: map<nat, nat>, ring: seq<Block>, live: map<nat, nat>, base: nat, top: nat) {
    && (forall a :: a in live ==> live[a] > 0 && base < a && a + live[a] <= top && a in size && size[a] == live[a])
    && (forall a, i :: a in live && 0 <= i < |ring| ==> Apart(Block(a, live[a]), ring[i]))
    && (forall a, c :: a in live && c in live && a != c ==> Apart(Block(a, live[a]), Block(c, live[c])))
    && (forall i :: 0 <= i < |ring| ==> End(ring[i]) <= top)
  }

  ghost function LiveUnits(live: map<nat, nat>): nat {
    if live == map[] then 0
    else
      var a :| a in live;
      live[a] + LiveUnits(live - {a})
  }

  lemma {:induction false} LiveUnitsLess(live: map<nat, nat>, a: nat)
    requires a in live
    ensures LiveUnits(live) == live[a] + LiveUnits(live - {a})
    decreases |live|
  {
    var c :| c in live && LiveUnits(live) == live[c] + LiveUnits(live - {c});
    if c != a {
      LiveUnitsLess(live - {c}, a);
      LiveUnitsLess(live - {a}, c);
      assert live - {c} - {a} == live - {a} - {c};
    }
  }

  lemma LiveUnitsMore(live: map<nat, nat>, a: nat, n: nat)
    requires a !in live
    ensures LiveUnits(live[a := n]) == n + LiveUnits(live)
  {
    LiveUnitsLess(live[a := n], a);
    assert live[a := n] - {a} == live;
  }

  ghost predicate OnRing(ring: seq<Block>, p: nat) { exists i :: 0 <= i < |ring| && ring[i].a == p }

  ghost predicate Inv(base: nat, h: Heap) {
    && base > 0
    && if h.freep == 0 then h.ring == [] && h.live == map[] && h.total == 0 && h.top >= base + 1
       else
         && Gaps(h.ring) && Based(h.ring, base) && Links(h.ptr, h.size, h.ring)
            && LiveOk(h.size, h.ring, h.live, base, h.top)
         && OnRing(h.ring, h.freep) && Units(h.ring) + LiveUnits(h.live) == h.total && h.top >= base + 1
  }

  // ----- free() -----

  /** b belongs after ring[i]: between it and its successor, or at the end. */
  predicate Place(ring: seq<Block>, i: nat, a: nat) {
    i < |ring| && ring[i].a < a && (i + 1 < |ring| ==> a < ring[i + 1].a)
  }

  lemma {:induction false} PlaceExists(ring: seq<Block>, a: nat, n: nat) returns (t: nat)
    requires 0 < n <= |ring| && ring[0].a < a && (n < |ring| ==> a < ring[n].a) && forall k :: 0 <= k < |ring| ==>
               ring[k].a != a
    ensures Place(ring, t, a)
    decreases n
  {
    if ring[n - 1].a < a { t := n - 1; } else { t := PlaceExists(ring, a, n - 1); }
  }

  /** How far index j is before index t, going round. */
  function Distance(j: nat, t: nat, n: nat): int { if j <= t then t - j else n - j + t }

  lemma PlaceFits(size: map<nat, nat>, ring: seq<Block>, live: map<nat, nat>, base: nat, top: nat, i: nat, a: nat)
    requires LiveOk(size, ring, live, base, top) && a in live && Place(ring, i, a)
    ensures Fits(ring, i, Block(a, live[a]))
  {
    assert Apart(Block(a, live[a]), ring[i]);
    if i + 1 < |ring| { assert Apart(Block(a, live[a]), ring[i + 1]); }
  }

  lemma LinksPut(ptr: map<nat, nat>, size: map<nat, nat>, ring: seq<Block>, i: nat, b: Block)
    requires Links(ptr, size, ring) && i < |ring| && b.a in size && size[b.a] == b.n && ring[i].a in ptr
    requires Different(ring) && forall j :: 0 <= j < |ring| ==> ring[j].a != b.a
    ensures Links(ptr[b.a := ptr[ring[i].a]][ring[i].a := b.a], size, Put(ring, i, b))
  {
    var r, ptr' := Put(ring, i, b), ptr[b.a := ptr[ring[i].a]][ring[i].a := b.a];
    forall j | 0 <= j < |r|
      ensures LinkAt(ptr', size, r, j)
    {
      assert LinkAt(ptr, size, ring, if j <= i then j else if j == i + 1 then i else j - 1);
    }
  }

  lemma LinksJoin(ptr: map<nat, nat>, size: map<nat, nat>, r: seq<Block>, j: nat)
    requires Links(ptr, size, r) && Touch(r, j) && Different(r) && r[j + 1].a in ptr
    ensures Links(ptr[r[j].a := ptr[r[j + 1].a]], size[r[j].a := r[j].n + r[j + 1].n], Join(r, j))
  {
    var r', ptr', size' := Join(r, j), ptr[r[j].a := ptr[r[j + 1].a]], size[r[j].a := r[j].n + r[j + 1].n];
    forall k | 0 <= k < |r'|
      ensures LinkAt(ptr', size', r', k)
    {
      JoinAt(r, j, k);
      JoinAt(r, j, Succ(k, |r'|));
      LinkJoined(ptr, size, r, r', j, k);
    }
  }

  lemma LinkJoined(ptr: map<nat, nat>, size: map<nat, nat>, r: seq<Block>, r': seq<Block>, j: nat, k: nat)
    requires Links(ptr, size, r) && j + 1 < |r| && Different(r) && r[j + 1].a in ptr && k < |r'| == |r| - 1
    requires r'[k] == Joined(r, j, k) && r'[Succ(k, |r'|)] == Joined(r, j, Succ(k, |r'|))
    ensures LinkAt(ptr[r[j].a := ptr[r[j + 1].a]], size[r[j].a := r[j].n + r[j + 1].n], r', k)
  {
    var k0 := if k <= j then k else k + 1;
    assert LinkAt(ptr, size, r, k0) && LinkAt(ptr, size, r, j + 1);
    if k < j { assert r[k].a != r[j].a; } else if j < k { assert r[j].a != r[k + 1].a; }
  }

  /** The pointers and sizes after free() has joined the block bp with the next, or linked it to it. */
  function UpPtr(ptr: map<nat, nat>, size: map<nat, nat>, bp: nat, next: nat): map<nat, nat>
    requires bp in size && next in ptr
  {
    ptr[bp := if bp + size[bp] == next then ptr[next] else next]
  }

  function UpSize(size: map<nat, nat>, bp: nat, next: nat): map<nat, nat>
    requires bp in size && next in size
  {
    if bp + size[bp] == next then size[bp := size[bp] + size[next]] else size
  }

  /** And after it has joined the block with the one before, p, or linked that to it. */
  function DownPtr(ptr: map<nat, nat>, size: map<nat, nat>, p: nat, bp: nat): map<nat, nat>
    requires p in size && bp in ptr
  {
    ptr[p := if p + size[p] == bp then ptr[bp] else bp]
  }

  function DownSize(size: map<nat, nat>, p: nat, bp: nat): map<nat, nat>
    requires p in size && bp in size
  {
    if p + size[p] == bp then size[p := size[p] + size[bp]] else size
  }

  lemma SetTwice(m: map<nat, nat>, a: nat, x: nat, y: nat)
    ensures m[a := x][a := y] == m[a := y]
  {}

  lemma SetApart(m: map<nat, nat>, a: nat, x: nat, c: nat, y: nat, z: nat)
    requires a != c
    ensures m[a := x][c := y][a := z] == m[a := z][c := y]
  {}

  lemma OrderedDifferent(r: seq<Block>, x: int, y: int, base: nat)
    requires Ordered(r, x, y) && Based(r, base) && (|r| > 1 ==> base < r[1].a)
    ensures Different(r)
  {}

  /** Linking b in and joining it with the next. */
  lemma UpLinks(ptr: map<nat, nat>, size: map<nat, nat>, ring: seq<Block>, i: nat, b: Block, base: nat)
    requires Gaps(ring) && Based(ring, base) && Links(ptr, size, ring) && Fits(ring, i, b) && base < b.a && b.a in size
             && size[b.a] == b.n
    requires forall j :: 0 <= j < |ring| ==> ring[j].a != b.a
    ensures LinkAt(ptr, size, ring, i) && LinkAt(ptr, size, ring, Succ(i, |ring|))
    ensures var next := ptr[ring[i].a];
            && Links(UpPtr(ptr, size, b.a, next)[ring[i].a := b.a], UpSize(size, b.a, next),
                 Join(Put(ring, i, b), i + 1))
  {
    assert LinkAt(ptr, size, ring, i) && LinkAt(ptr, size, ring, Succ(i, |ring|));
    var p, next, r0 := ring[i].a, ptr[ring[i].a], Put(ring, i, b);
    var ptr0 := ptr[b.a := next][p := b.a];
    LinksPut(ptr, size, ring, i, b);
    PutOrdered(ring, i, b, base);
    OrderedDifferent(r0, i, i + 1, base);
    assert Links(ptr0, size, r0) && ptr0 == ptr[b.a := next][p := b.a];
    if b.a + size[b.a] == next {
      UpTouching(ptr, size, ring, i, b, next);
    } else {
      assert !Touch(r0, i + 1);
    }
  }

  lemma UpTouching(ptr: map<nat, nat>, size: map<nat, nat>, ring: seq<Block>, i: nat, b: Block, next: nat)
    requires i < |ring| && b.a in size && size[b.a] == b.n && b.a + b.n == next && next in ptr && next in size
             && b.a != ring[i].a
    requires next == ring[Succ(i, |ring|)].a && size[next] == ring[Succ(i, |ring|)].n && b.n > 0 && ring[0].a < b.a
    requires Links(ptr[b.a := next][ring[i].a := b.a], size, Put(ring, i, b)) && Different(Put(ring, i, b))
    ensures Links(UpPtr(ptr, size, b.a, next)[ring[i].a := b.a], UpSize(size, b.a, next), Join(Put(ring, i, b), i + 1))
  {
    var r0, ptr0 := Put(ring, i, b), ptr[b.a := next][ring[i].a := b.a];
    PutAt(ring, i, b, i + 1);
    PutAt(ring, i, b, i + 2);
    assert LinkAt(ptr0, size, r0, i + 2) && LinkAt(ptr0, size, r0, i);
    LinksJoin(ptr0, size, r0, i + 1);
    SetApart(ptr, b.a, next, ring[i].a, b.a, ptr[next]);
  }

  /** Joining the block with the one before. */
  lemma DownLinks(ptr: map<nat, nat>, size: map<nat, nat>, r: seq<Block>, i: nat, base: nat)
    requires i + 1 < |r| && r[i].a != r[i + 1].a && r[i + 1].a in ptr && Different(r)
    requires Links(ptr[r[i].a := r[i + 1].a], size, r)
    ensures LinkAt(ptr[r[i].a := r[i + 1].a], size, r, i) && LinkAt(ptr[r[i].a := r[i + 1].a], size, r, i + 1)
    ensures Links(DownPtr(ptr, size, r[i].a, r[i + 1].a), DownSize(size, r[i].a, r[i + 1].a), Join(r, i))
  {
    var p, bp := r[i].a, r[i + 1].a;
    var ptr1 := ptr[p := bp];
    assert LinkAt(ptr1, size, r, i) && LinkAt(ptr1, size, r, i + 1);
    if p + size[p] == bp {
      assert Touch(r, i);
      LinksJoin(ptr1, size, r, i);
      SetTwice(ptr, p, bp, ptr[bp]);
    } else {
      assert !Touch(r, i);
    }
  }

  lemma JoinApart(r: seq<Block>, j: nat, c: Block)
    requires j < |r| && c.n > 0 && forall k :: 0 <= k < |r| ==> Apart(c, r[k])
    ensures forall k :: 0 <= k < |Join(r, j)| ==> Apart(c, Join(r, j)[k])
  {
    var r' := Join(r, j);
    if Touch(r, j) {
      assert forall k :: 0 <= k < |r'| ==> r'[k] == Joined(r, j, k);
      assert Apart(c, r[j]) && Apart(c, r[j + 1]);
    }
  }

  lemma InsertApart(ring: seq<Block>, i: nat, b: Block, c: Block)
    requires i < |ring| && c.n > 0 && Apart(c, b) && forall k :: 0 <= k < |ring| ==> Apart(c, ring[k])
    ensures forall k :: 0 <= k < |Insert(ring, i, b)| ==> Apart(c, Insert(ring, i, b)[k])
  {
    var r := Put(ring, i, b);
    assert forall j :: 0 <= j < |r| ==> r[j] == if j <= i then ring[j] else if j == i + 1 then b else ring[j - 1];
    JoinApart(r, i + 1, c);
    JoinApart(Join(r, i + 1), i, c);
  }

  /** The heap after free() of the block at bp, which belongs after ring[i]. */
  ghost function Freed(h: Heap, i: nat, bp: nat): Heap
    requires i < |h.ring| && bp in h.live && bp in h.size
    requires var p := h.ring[i].a; p in h.ptr && p in h.size && h.ptr[p] in h.ptr && h.ptr[p] in h.size
  {
    var p := h.ring[i].a;
    var ptr1, size1 := UpPtr(h.ptr, h.size, bp, h.ptr[p]), UpSize(h.size, bp, h.ptr[p]);
    h.(ptr := DownPtr(ptr1, size1, p, bp), size := DownSize(size1, p, bp), freep := p,
       ring := Insert(h.ring, i, Block(bp, h.live[bp])), live := h.live - {bp})
  }

  lemma InsertAt(ring: seq<Block>, i: nat, b: Block)
    requires Fits(ring, i, b)
    ensures var r := Join(Put(ring, i, b), i + 1); i + 1 < |r| && r[i] == ring[i] && r[i + 1].a == b.a
    ensures |Insert(ring, i, b)| > i && Insert(ring, i, b)[i].a == ring[i].a
  {}

  /** The links of the list after free(). */
  lemma FreedLinks(base: nat, h: Heap, i: nat, bp: nat)
    requires Inv(base, h) && h.freep != 0 && bp in h.live && Place(h.ring, i, bp)
    ensures bp in h.size && LinkAt(h.ptr, h.size, h.ring, i) && LinkAt(h.ptr, h.size, h.ring, Succ(i, |h.ring|))
    ensures Links(Freed(h, i, bp).ptr, Freed(h, i, bp).size, Freed(h, i, bp).ring)
  {
    var b := Block(bp, h.live[bp]);
    PlaceFits(h.size, h.ring, h.live, base, h.top, i, bp);
    NotOnRing(h.size, h.ring, h.live, base, h.top, bp);
    UpLinks(h.ptr, h.size, h.ring, i, b, base);
    InsertAt(h.ring, i, b);
    PutOrdered(h.ring, i, b, base);
    JoinOrdered(Put(h.ring, i, b), i + 1, i, base);
    OrderedDifferent(Join(Put(h.ring, i, b), i + 1), i, -1, base);
    DownLinks(UpPtr(h.ptr, h.size, bp, h.ptr[h.ring[i].a]), UpSize(h.size, bp, h.ptr[h.ring[i].a]),
          Join(Put(h.ring, i, b), i + 1), i, base);
  }

  lemma NotOnRing(size: map<nat, nat>, ring: seq<Block>, live: map<nat, nat>, base: nat, top: nat, a: nat)
    requires LiveOk(size, ring, live, base, top) && Based(ring, base) && a in live
    ensures forall i :: 0 <= i < |ring| ==> ring[i].a != a
  {}

  /** A header that is neither bp nor p keeps its size. */
  lemma SizeStays(h: Heap, i: nat, bp: nat, a: nat)
    requires i < |h.ring| && bp in h.live && bp in h.size && a in h.size && a != bp && a != h.ring[i].a
    requires var p := h.ring[i].a; p in h.ptr && p in h.size && h.ptr[p] in h.ptr && h.ptr[p] in h.size
    ensures a in Freed(h, i, bp).size && Freed(h, i, bp).size[a] == h.size[a]
  {}

  lemma FreedLive(base: nat, h: Heap, i: nat, bp: nat)
    requires Inv(base, h) && h.freep != 0 && bp in h.live && bp in h.size && Place(h.ring, i, bp)
    requires LinkAt(h.ptr, h.size, h.ring, i) && LinkAt(h.ptr, h.size, h.ring, Succ(i, |h.ring|))
    ensures var h' := Freed(h, i, bp); LiveOk(h'.size, h'.ring, h'.live, base, h'.top)
  {
    var h', b := Freed(h, i, bp), Block(bp, h.live[bp]);
    forall a | a in h'.live
      ensures h'.live[a] > 0 && base < a && a + h'.live[a] <= h'.top && a in h'.size && h'.size[a] == h'.live[a]
      ensures forall j :: 0 <= j < |h'.ring| ==> Apart(Block(a, h'.live[a]), h'.ring[j])
    {
      NotOnRing(h.size, h.ring, h.live, base, h.top, a);
      SizeStays(h, i, bp, a);
      InsertApart(h.ring, i, b, Block(a, h.live[a]));
    }
    InsertBelow(h.ring, i, b, h.top);
  }

  lemma JoinBelow(r: seq<Block>, j: nat, top: nat)
    requires j < |r| && forall k :: 0 <= k < |r| ==> End(r[k]) <= top
    ensures forall k :: 0 <= k < |Join(r, j)| ==> End(Join(r, j)[k]) <= top
  {}

  lemma InsertBelow(ring: seq<Block>, i: nat, b: Block, top: nat)
    requires i < |ring| && End(b) <= top && forall k :: 0 <= k < |ring| ==> End(ring[k]) <= top
    ensures forall k :: 0 <= k < |Insert(ring, i, b)| ==> End(Insert(ring, i, b)[k]) <= top
  {
    JoinBelow(Put(ring, i, b), i + 1, top);
    JoinBelow(Join(Put(ring, i, b), i + 1), i, top);
  }

  lemma FreedInv(base: nat, h: Heap, i: nat, bp: nat)
    requires Inv(base, h) && h.freep != 0 && bp in h.live && Place(h.ring, i, bp)
    ensures bp in h.size && LinkAt(h.ptr, h.size, h.ring, i) && LinkAt(h.ptr, h.size, h.ring, Succ(i, |h.ring|))
    ensures Inv(base, Freed(h, i, bp)) && Freed(h, i, bp).freep != 0
  {
    var b := Block(bp, h.live[bp]);
    FreedLinks(base, h, i, bp);
    PlaceFits(h.size, h.ring, h.live, base, h.top, i, bp);
    InsertGaps(h.ring, i, b, base);
    FreedLive(base, h, i, bp);
    InsertUnits(h.ring, i, b);
    LiveUnitsLess(h.live, bp);
    InsertAt(h.ring, i, b);
    assert OnRing(Freed(h, i, bp).ring, h.ring[i].a);
  }

  // ----- malloc() -----

  function Pred(i: nat, n: nat): nat
    requires i < n
  {
    if i == 0 then n - 1 else i - 1
  }

  /** The heap after malloc() took n units from the end of ring[i]. */
  ghost function Taken(h: Heap, i: nat, n: nat): Heap
    requires i < |h.ring| && n <= h.ring[i].n && h.ring[i].a in h.ptr
  {
    var p, prev, b := h.ring[i].a, h.ring[Pred(i, |h.ring|)].a, Carved(h.ring[i], n);
    h.(ptr := if h.ring[i].n == n then h.ptr[prev := h.ptr[p]] else h.ptr,
       size := if h.ring[i].n == n then h.size else h.size[p := h.ring[i].n - n][b.a := n],
       freep := prev, ring := Carve(h.ring, i, n), live := h.live[b.a := n])
  }

  lemma LinksRemove(ptr: map<nat, nat>, size: map<nat, nat>, ring: seq<Block>, i: nat)
    requires Links(ptr, size, ring) && Different(ring) && 0 < i < |ring| && ring[i].a in ptr
    ensures Links(ptr[ring[i - 1].a := ptr[ring[i].a]], size, ring[..i] + ring[i + 1..])
  {
    var r, ptr' := ring[..i] + ring[i + 1..], ptr[ring[i - 1].a := ptr[ring[i].a]];
    forall j | 0 <= j < |r|
      ensures LinkAt(ptr', size, r, j)
    {
      assert LinkAt(ptr, size, ring, if j < i then j else j + 1) && LinkAt(ptr, size, ring, i);
    }
  }

  lemma LinksShrink(ptr: map<nat, nat>, size: map<nat, nat>, ring: seq<Block>, i: nat, m: nat, a: nat, n: nat)
    requires Links(ptr, size, ring) && Different(ring) && i < |ring| && forall j :: 0 <= j < |ring| ==> ring[j].a != a
    ensures Links(ptr, size[ring[i].a := m][a := n], ring[i := Block(ring[i].a, m)])
  {
    var r, size' := ring[i := Block(ring[i].a, m)], size[ring[i].a := m][a := n];
    forall j | 0 <= j < |r|
      ensures LinkAt(ptr, size', r, j)
    {
      assert LinkAt(ptr, size, ring, j);
    }
  }

  lemma GapsDifferent(ring: seq<Block>)
    requires Gaps(ring)
    ensures Different(ring)
  {}

  /** The last units of a block lie in no other block. */
  lemma CarvedApart(ring: seq<Block>, i: nat, n: nat)
    requires Gaps(ring) && i < |ring| && 0 < n <= ring[i].n
    ensures var b := Carved(ring[i], n);
            && (forall j :: 0 <= j < |ring| && j != i ==> ring[j].a != b.a && Apart(b, ring[j]))
            && (forall j :: 0 <= j < |Carve(ring, i, n)| ==> Apart(b, Carve(ring, i, n)[j]))
            && (n < ring[i].n ==> ring[i].a < b.a)
  {}

  lemma CarveApart(ring: seq<Block>, i: nat, n: nat, c: Block, top: nat)
    requires i < |ring| && 0 < n <= ring[i].n
             && (forall j :: 0 <= j < |ring| ==> Apart(c, ring[j]) && End(ring[j]) <= top) && c.n > 0
    ensures (forall j :: 0 <= j < |Carve(ring, i, n)| ==>
              Apart(c, Carve(ring, i, n)[j]) && End(Carve(ring, i, n)[j]) <= top)
    ensures Apart(c, Carved(ring[i], n)) && c.a != Carved(ring[i], n).a
  {
    assert Apart(c, ring[i]);
  }

  lemma TakenLinks(base: nat, h: Heap, i: nat, n: nat)
    requires Inv(base, h) && h.freep != 0 && i < |h.ring| && 0 < n <= h.ring[i].n
    ensures i > 0 && LinkAt(h.ptr, h.size, h.ring, i)
    ensures Links(Taken(h, i, n).ptr, Taken(h, i, n).size, Taken(h, i, n).ring)
  {
    assert LinkAt(h.ptr, h.size, h.ring, i);
    GapsDifferent(h.ring);
    CarvedApart(h.ring, i, n);
    if h.ring[i].n == n {
      LinksRemove(h.ptr, h.size, h.ring, i);
    } else {
      LinksShrink(h.ptr, h.size, h.ring, i, h.ring[i].n - n, Carved(h.ring[i], n).a, n);
    }
  }

  lemma LiveAdd(size: map<nat, nat>, ring: seq<Block>, live: map<nat, nat>, base: nat, top: nat, b: Block)
    requires LiveOk(size, ring, live, base, top) && b.a !in live && b.n > 0 && base < b.a && End(b) <= top
             && b.a in size && size[b.a] == b.n
    requires forall i :: 0 <= i < |ring| ==> Apart(b, ring[i])
    requires forall a :: a in live ==> Apart(Block(a, live[a]), b)
    ensures LiveOk(size, ring, live[b.a := b.n], base, top)
  {
    var live' := live[b.a := b.n];
    forall a, c | a in live' && c in live' && a != c
      ensures Apart(Block(a, live'[a]), Block(c, live'[c]))
    {
      if a != b.a && c != b.a { assert Apart(Block(a, live[a]), Block(c, live[c])); }
    }
  }

  lemma CarveBelow(ring: seq<Block>, i: nat, n: nat, top: nat)
    requires i < |ring| && n <= ring[i].n && forall j :: 0 <= j < |ring| ==> End(ring[j]) <= top
    ensures forall j :: 0 <= j < |Carve(ring, i, n)| ==> End(Carve(ring, i, n)[j]) <= top
  {}

  /** A block handed out before is as it was, and apart from the one taken now. */
  lemma TakenOther(base: nat, h: Heap, i: nat, n: nat, a: nat)
    requires LiveOk(h.size, h.ring, h.live, base, h.top) && Based(h.ring, base) && i < |h.ring| && 0 < n <= h.ring[i].n
             && h.ring[i].a in h.ptr && a in h.live
    ensures var h', b := Taken(h, i, n), Carved(h.ring[i], n);
            && a != b.a && Apart(Block(a, h.live[a]), b) && a in h'.size && h'.size[a] == h.size[a]
            && forall j :: 0 <= j < |h'.ring| ==> Apart(Block(a, h.live[a]), h'.ring[j])
  {
    NotOnRing(h.size, h.ring, h.live, base, h.top, a);
    CarveApart(h.ring, i, n, Block(a, h.live[a]), h.top);
  }

  lemma TakenLive(base: nat, h: Heap, i: nat, n: nat)
    requires LiveOk(h.size, h.ring, h.live, base, h.top) && Gaps(h.ring) && Based(h.ring, base) && 0 < i < |h.ring|
             && 0 < n <= h.ring[i].n
    requires LinkAt(h.ptr, h.size, h.ring, i)
    ensures var h' := Taken(h, i, n);
            Carved(h.ring[i], n).a !in h.live && LiveOk(h'.size, h'.ring, h'.live, base, h'.top)
  {
    var h', b := Taken(h, i, n), Carved(h.ring[i], n);
    CarvedApart(h.ring, i, n);
    CarveBelow(h.ring, i, n, h.top);
    forall a | a in h.live
      ensures a != b.a && Apart(Block(a, h.live[a]), b) && a in h'.size && h'.size[a] == h.size[a]
      ensures forall j :: 0 <= j < |h'.ring| ==> Apart(Block(a, h.live[a]), h'.ring[j])
    {
      TakenOther(base, h, i, n, a);
    }
    LiveStays(h.size, h'.size, h.ring, h'.ring, h.live, base, h.top);
    LiveAdd(h'.size, h'.ring, h.live, base, h.top, b);
  }

  lemma LiveStays(size: map<nat, nat>, size': map<nat, nat>, ring: seq<Block>, ring': seq<Block>, live: map<nat, nat>,
                  base: nat, top: nat)
    requires LiveOk(size, ring, live, base, top)
    requires forall a :: a in live ==> a in size' && size'[a] == size[a]
    requires forall a, i :: a in live && 0 <= i < |ring'| ==> Apart(Block(a, live[a]), ring'[i])
    requires forall i :: 0 <= i < |ring'| ==> End(ring'[i]) <= top
    ensures LiveOk(size', ring', live, base, top)
  {}

  lemma TakenInv(base: nat, h: Heap, i: nat, n: nat)
    requires Inv(base, h) && h.freep != 0 && i < |h.ring| && 0 < n <= h.ring[i].n
    ensures i > 0 && LinkAt(h.ptr, h.size, h.ring, i) && LinkAt(h.ptr, h.size, h.ring, i - 1)
            && Carved(h.ring[i], n).a !in h.live
    ensures Inv(base, Taken(h, i, n)) && Taken(h, i, n).freep != 0
  {
    TakenLinks(base, h, i, n);
    TakenLive(base, h, i, n);
    CarveGaps(h.ring, i, n, base);
    CarveUnits(h.ring, i, n);
    LiveUnitsMore(h.live, Carved(h.ring[i], n).a, n);
    assert LinkAt(h.ptr, h.size, h.ring, i - 1);
    assert Taken(h, i, n).ring[i - 1].a == h.ring[i - 1].a;
  }

  // ----- morecore() -----

  /** New memory at hp, not yet on the free list. */
  ghost function Granted(h: Heap, hp: nat, n: nat): Heap {
    h.(size := h.size[hp := n], live := h.live[hp := n], total := h.total + n, top := hp + n)
  }

  lemma GrantedInv(base: nat, h: Heap, hp: nat, n: nat)
    requires Inv(base, h) && h.freep != 0 && hp >= h.top && n > 0
    ensures Inv(base, Granted(h, hp, n)) && hp !in h.live
  {
    var h' := Granted(h, hp, n);
    forall i | 0 <= i < |h.ring|
      ensures LinkAt(h'.ptr, h'.size, h'.ring, i) && h.ring[i].a != hp && Apart(Block(hp, n), h.ring[i])
    {
      assert LinkAt(h.ptr, h.size, h.ring, i);
    }
    GrantedLive(h, hp, n, base);
    LiveUnitsMore(h.live, hp, n);
  }

  lemma GrantedLive(h: Heap, hp: nat, n: nat, base: nat)
    requires LiveOk(h.size, h.ring, h.live, base, h.top) && hp >= h.top && n > 0 && base < hp
    ensures LiveOk(h.size[hp := n], h.ring, h.live[hp := n], base, hp + n) && hp !in h.live
  {
    assert LiveOk(h.size[hp := n], h.ring, h.live, base, hp + n);
    LiveAdd(h.size[hp := n], h.ring, h.live, base, hp + n, Block(hp, n));
  }

  // ----- searching the list -----

  /** free()'s loop stops at p: bp lies between p and its successor, or p is the last block and bp lies beyond. */
  predicate Stops(p: nat, next: nat, bp: nat) {
    (bp > p && bp < next) || (p >= next && (bp > p || bp < next))
  }

  lemma StopsAtPlace(base: nat, h: Heap, j: nat, bp: nat)
    requires Inv(base, h) && h.freep != 0 && bp in h.live && j < |h.ring|
    ensures LinkAt(h.ptr, h.size, h.ring, j)
    ensures Stops(h.ring[j].a, h.ptr[h.ring[j].a], bp) <==> Place(h.ring, j, bp)
  {
    assert LinkAt(h.ptr, h.size, h.ring, j);
    NotOnRing(h.size, h.ring, h.live, base, h.top, bp);
  }

  lemma HasPlace(base: nat, h: Heap, bp: nat) returns (t: nat)
    requires Inv(base, h) && h.freep != 0 && bp in h.live
    ensures Place(h.ring, t, bp)
  {
    NotOnRing(h.size, h.ring, h.live, base, h.top, bp);
    t := PlaceExists(h.ring, bp, |h.ring|);
  }

  /** No block from index a to index b fits n units. */
  ghost predicate NoneFits(ring: seq<Block>, f: nat, i: nat, n: nat)
    requires f < |ring|
  {
    forall j :: 0 <= j < |ring| && Distance(j, f, |ring|) > Distance(i, f, |ring|) ==> ring[j].n < n
  }

  lemma NextInRing(i: nat, f: nat, n: nat)
    requires i < n && f < n && i != f
    ensures Succ(i, n) < n && Distance(Succ(i, n), f, n) == Distance(i, f, n) - 1 && Pred(Succ(i, n), n) == i
    ensures forall j :: 0 <= j < n && Distance(j, f, n) >= Distance(i, f, n) ==>
              j == i || Distance(j, f, n) > Distance(i, f, n)
  {}

  /** Block i does not fit either. */
  lemma NoneFitsNext(ring: seq<Block>, f: nat, i: nat, n: nat)
    requires f < |ring| && i < |ring| && i != f && NoneFits(ring, f, i, n) && ring[i].n < n
    ensures NoneFits(ring, f, Succ(i, |ring|), n)
  {
    NextInRing(i, f, |ring|);
  }

  lemma FirstInRing(f: nat, n: nat)
    requires f < n
    ensures Succ(f, n) < n && Pred(Succ(f, n), n) == f && forall j :: 0 <= j < n ==>
              Distance(j, f, n) <= Distance(Succ(f, n), f, n)
  {}

  /** Back at freep, every block has been looked at. */
  lemma BackAtStart(ring: seq<Block>, f: nat, i: nat, n: nat)
    requires Gaps(ring) && f < |ring| && i < |ring| && ring[i].a == ring[f].a && ring[i].n < n
             && NoneFits(ring, f, i, n)
    ensures forall j :: 0 <= j < |ring| ==> ring[j].n < n
  {
    GapsDifferent(ring);
  }

  /** The header of the block that the user's pointer ap belongs to. */
  function Header(ap: nat): nat
    requires ap > 0
  {
    ap - 1
  }

  lemma AddedAndGone(live: map<nat, nat>, a: nat, n: nat)
    requires a !in live
    ensures live[a := n] - {a} == live
  {}

  lemma StartInv(base: nat, h: Heap)
    requires Inv(base, h) && h.freep == 0
    ensures Inv(base,
              h.(ptr := h.ptr[base := base], size := h.size[base := 0], freep := base, ring := [Block(base, 0)]))
    ensures forall u :: !Covers([Block(base, 0)], u) && !Covers(h.ring, u)
  {
    assert [Block(base, 0)][0] == Block(base, 0);
    UnitsOne(Block(base, 0));
  }

  ghost predicate HasFit(ring: seq<Block>, n: nat) { exists j :: 0 <= j < |ring| && ring[j].n >= n }

  /** The free units after malloc() with those of the block it returned are those before with the new ones. */
  ghost predicate Exchanged(ring: seq<Block>, ring': seq<Block>, taken: Block, core: Block) {
    && (forall u :: Covers(ring', u) || InBlock(taken, u) <==> Covers(ring, u) || InBlock(core, u))
    && (forall u :: !(Covers(ring', u) && InBlock(taken, u)))
  }

  /** The unit after a free block is not free. */
  lemma NotCovered(ring: seq<Block>, j: nat)
    requires Gaps(ring) && j < |ring|
    ensures !Covers(ring, End(ring[j]))
  {}

  /** A run of free units lies in one block, as blocks do not touch. */
  lemma RunFits(ring: seq<Block>, b: Block, n: nat)
    requires Gaps(ring) && (forall u :: InBlock(b, u) ==> Covers(ring, u)) && 0 < n <= b.n
    ensures HasFit(ring, n)
  {
    assert InBlock(b, b.a);
    var j :| 0 <= j < |ring| && ring[j].a <= b.a < End(ring[j]);
    if End(ring[j]) < End(b) {
      assert InBlock(b, End(ring[j]));
      NotCovered(ring, j);
    }
  }

  lemma GainsFit(ring: seq<Block>, ring1: seq<Block>, ring2: seq<Block>, core: Block, n: nat)
    requires Gains(ring, ring1, Block(core.a, 0)) && Gains(ring1, ring2, core) && Gaps(ring2) && 0 < n <= core.n
    ensures Gains(ring, ring2, core) && HasFit(ring2, n)
  {
    RunFits(ring2, core, n);
  }

  lemma ExchangedBoth(ring: seq<Block>, ring1: seq<Block>, ring2: seq<Block>, taken: Block, core: Block)
    requires Gains(ring, ring1, core) && Loses(ring1, ring2, taken)
    ensures Exchanged(ring, ring2, taken, core)
  {}

  lemma ExchangedNothing(ring: seq<Block>, ring': seq<Block>, grant: nat)
    requires Gains(ring, ring', Block(grant, 0))
    ensures Exchanged(ring, ring', Block(0, 0), Block(grant, 0))
  {}

  /** The number of units for a request: the bytes rounded up, and a header. */
  function NUnits(nbytes: nat): nat { (nbytes + 15) / 16 + 1 }

  /**
   Every unit obtained from sbrk() is free or handed out, and no block overlaps or, if free,
   touches another free one.
   */
  lemma Conserved(base: nat, h: Heap)
    requires Inv(base, h)
    ensures Units(h.ring) + LiveUnits(h.live) == h.total && Gaps(h.ring)
    ensures forall a, u :: a in h.live && a <= u < a + h.live[a] ==> !Covers(h.ring, u)
    ensures forall a, c :: a in h.live && c in h.live && a != c ==> a + h.live[a] <= c || c + h.live[c] <= a
  {
    forall a, u | a in h.live && a <= u < a + h.live[a]
      ensures !Covers(h.ring, u)
    {
      forall i | 0 <= i < |h.ring|
        ensures !(h.ring[i].a <= u < End(h.ring[i]))
      {
        assert Apart(Block(a, h.live[a]), h.ring[i]);
      }
    }
    forall a, c | a in h.live && c in h.live && a != c
      ensures a + h.live[a] <= c || c + h.live[c] <= a
    {
      assert Apart(Block(a, h.live[a]), Block(c, h.live[c]));
    }
  }

  class Allocator {
    const base: nat
    var h: Heap

    ghost predicate Valid()
      reads this
    {
      Inv(base, h)
    }

    /** Nothing allocated; sbrk() will grant memory from top on, above base. */
    constructor (base: nat, top: nat)
      requires 0 < base < top
      ensures Valid() && this.base == base && h.top == top && h.live == map[] && h.total == 0
    {
      this.base := base;
      h := Heap(map[], map[], 0, [], map[], 0, top);
    }

    /** The loop of free(): the block after which bp belongs. */
    method FindPlace(bp: nat) returns (p: nat, ghost i: nat)
      requires Valid() && h.freep != 0 && bp in h.live
      ensures Place(h.ring, i, bp) && p == h.ring[i].a
    {
      ghost var t := HasPlace(base, h, bp);
      p := h.freep;
      i :| 0 <= i < |h.ring| && h.ring[i].a == p;
      StopsAtPlace(base, h, i, bp);
      while !Stops(p, h.ptr[p], bp)
        invariant i < |h.ring| && p == h.ring[i].a && LinkAt(h.ptr, h.size, h.ring, i)
        invariant Stops(p, h.ptr[p], bp) <==> Place(h.ring, i, bp)
        decreases Distance(i, t, |h.ring|)
      {
        NextInRing(i, t, |h.ring|);
        p := h.ptr[p];
        i := Succ(i, |h.ring|);
        StopsAtPlace(base, h, i, bp);
      }
    }

    /** The assignments of free(): bp goes between p and the block after it. */
    static method Relink(ptr0: map<nat, nat>, size0: map<nat, nat>, p: nat, bp: nat)
        returns (ptr: map<nat, nat>, size: map<nat, nat>)
      requires p in ptr0 && p in size0 && bp in size0 && ptr0[p] in ptr0 && ptr0[p] in size0
      ensures var ptr1, size1 := UpPtr(ptr0, size0, bp, ptr0[p]), UpSize(size0, bp, ptr0[p]);
              ptr == DownPtr(ptr1, size1, p, bp) && size == DownSize(size1, p, bp)
    {
      ptr, size := ptr0, size0;
      var next := ptr[p];
      if bp + size[bp] == next {
        size := size[bp := size[bp] + size[next]];
        ptr := ptr[bp := ptr[next]];
      } else {
        ptr := ptr[bp := next];
      }
      if p + size[p] == bp {
        size := size[p := size[p] + size[bp]];
        ptr := ptr[p := ptr[bp]];
      } else {
        ptr := ptr[p := bp];
      }
    }

    /** free(): the block before ap goes back to the free list, joined with neighbours it touches. */
    method Free(ap: nat)
      requires Valid() && h.freep != 0 && ap > 0 && Header(ap) in h.live
      modifies this
      ensures h.live == old(h).live - {Header(ap)} && h.total == old(h).total && h.top == old(h).top && h.freep != 0
      ensures Gains(old(h).ring, h.ring, Block(Header(ap), old(h).live[Header(ap)]))
      ensures Valid()
    {
      var bp := Header(ap);
      ghost var i;
      var p;
      p, i := FindPlace(bp);
      FreedInv(base, h, i, bp);
      InsertGains(h.ring, i, Block(bp, h.live[bp]));
      var ptr, size := Relink(h.ptr, h.size, p, bp);
      h := h.(ptr := ptr, size := size, freep := p, ring := Insert(h.ring, i, Block(bp, h.live[bp])),
            live := h.live - {bp});
    }

    /** morecore(): put at least nu units at `grant` on the free list; 0 is sbrk()'s refusal. */
    method Morecore(nu: nat, grant: nat) returns (ok: bool, core: nat)
      requires Valid() && h.freep != 0 && nu > 0 && (grant == 0 || grant >= h.top)
      modifies this
      ensures ok <==> grant != 0
      ensures !ok ==> h == old(h)
      ensures ok ==>
                core == (if nu < 4096 then 4096 else nu) && h.live == old(h).live && h.total == old(h).total + core
                && h.freep != 0
      ensures ok ==> Gains(old(h).ring, h.ring, Block(grant, core)) && h.top == grant + core
      ensures Valid()
    {
      var n := if nu < 4096 then 4096 else nu;
      core := n;
      ok := grant != 0;
      if ok {
        GrantedInv(base, h, grant, n);
        h := h.(size := h.size[grant := n], live := h.live[grant := n], total := h.total + n, top := grant + n);
        AddedAndGone(old(h).live, grant, n);
        assert Header(grant + 1) == grant;
        Free(grant + 1);
      }
    }

    /**
     malloc()'s walk round the list, from the block after freep to freep: the first that fits n
     units, and its predecessor.
     */
    method Search(n: nat) returns (found: bool, prevp: nat, p: nat, ghost i: nat)
      requires Valid() && h.freep != 0 && n > 0
      ensures i < |h.ring| && p == h.ring[i].a && prevp == h.ring[Pred(i, |h.ring|)].a
      ensures found <==> h.ring[i].n >= n
      ensures !found ==> forall j :: 0 <= j < |h.ring| ==> h.ring[j].n < n
    {
      ghost var f :| 0 <= f < |h.ring| && h.ring[f].a == h.freep;
      assert LinkAt(h.ptr, h.size, h.ring, f);
      FirstInRing(f, |h.ring|);
      prevp, i := h.freep, Succ(f, |h.ring|);
      p := h.ptr[prevp];
      assert LinkAt(h.ptr, h.size, h.ring, i);
      while h.size[p] < n && p != h.freep
        invariant i < |h.ring| && p == h.ring[i].a && prevp == h.ring[Pred(i, |h.ring|)].a
                  && LinkAt(h.ptr, h.size, h.ring, i)
        invariant NoneFits(h.ring, f, i, n)
        decreases Distance(i, f, |h.ring|)
      {
        NextInRing(i, f, |h.ring|);
        NoneFitsNext(h.ring, f, i, n);
        prevp, p, i := p, h.ptr[p], Succ(i, |h.ring|);
        assert LinkAt(h.ptr, h.size, h.ring, i);
      }
      found := h.size[p] >= n;
      if !found { BackAtStart(h.ring, f, i, n); }
    }

    /** Unlink the block, or cut its end off. */
    method Take(prevp: nat, p: nat, n: nat, ghost i: nat) returns (ap: nat)
      requires Valid() && h.freep != 0 && i < |h.ring| && p == h.ring[i].a && prevp == h.ring[Pred(i, |h.ring|)].a
               && 0 < n <= h.ring[i].n
      modifies this
      ensures ap > 0 && Header(ap) !in old(h).live && h.live == old(h).live[Header(ap) := n] && h.total == old(h).total
              && h.top == old(h).top
      ensures Loses(old(h).ring, h.ring, Block(Header(ap), n)) && h.freep != 0
      ensures Valid()
    {
      TakenInv(base, h, i, n);
      CarveLoses(h.ring, i, n);
      ghost var h' := Taken(h, i, n);
      var ptr, size, q := Cut(h.ptr, h.size, prevp, p, n, h.ring[i]);
      h := h.(ptr := ptr, size := size, freep := prevp, ring := h'.ring, live := h'.live);
      ap := q + 1;
      assert Header(ap) == q;
    }

    /** The assignments to the headers. */
    static method Cut(ptr: map<nat, nat>, size: map<nat, nat>, prevp: nat, p: nat, n: nat, ghost b: Block)
        returns (ptr': map<nat, nat>, size': map<nat, nat>, q: nat)
      requires p in ptr && p in size && b == Block(p, size[p]) && n <= b.n
      ensures q == Carved(b, n).a && ptr' == if b.n == n then ptr[prevp := ptr[p]] else ptr
      ensures size' == if b.n == n then size else size[p := b.n - n][q := n]
    {
      ptr', size', q := ptr, size, p;
      if size[p] == n {
        ptr' := ptr[prevp := ptr[p]];
      } else {
        size' := size'[p := size'[p] - n];
        q := p + size'[p];
        size' := size'[q := n];
      }
    }

    /** malloc() before its first use: the list has only the empty base block. */
    method Init()
      requires Valid()
      modifies this
      ensures h.freep != 0 && h.live == old(h).live && h.total == old(h).total && h.top == old(h).top
      ensures forall u :: Covers(h.ring, u) <==> Covers(old(h).ring, u)
      ensures h.ring == old(h).ring || old(h).ring == []
      ensures Valid()
    {
      if h.freep == 0 {
        StartInv(base, h);
        h := h.(ptr := h.ptr[base := base], size := h.size[base := 0], freep := base, ring := [Block(base, 0)]);
      }
    }

    /**
     malloc(): a block for nbytes bytes, or 0. `grant` is where sbrk() would put new
     memory, 0 if it would refuse; `core` is how much of it was obtained.
     */
    method Malloc(nbytes: nat, grant: nat) returns (ap: nat, core: nat)
      requires Valid() && NUnits(nbytes) * 16 < 0x8000_0000 && (grant == 0 || grant >= h.top)
      modifies this
      ensures core == 0 || (grant != 0 && core == if NUnits(nbytes) < 4096 then 4096 else NUnits(nbytes))
      ensures h.total == old(h).total + core && h.top == if core > 0 then grant + core else old(h).top
      ensures ap == 0 <==> grant == 0 && !HasFit(old(h).ring, NUnits(nbytes))
      ensures core == 0 <==> grant == 0 || HasFit(old(h).ring, NUnits(nbytes))
      ensures ap == 0 ==> h.live == old(h).live && forall j :: 0 <= j < |h.ring| ==> h.ring[j].n < NUnits(nbytes)
      ensures ap != 0 ==> Header(ap) !in old(h).live && h.live == old(h).live[Header(ap) := NUnits(nbytes)]
      ensures Exchanged(old(h).ring, h.ring, if ap == 0 then Block(0, 0) else Block(Header(ap), NUnits(nbytes)),
                Block(grant, core))
      ensures h.freep != 0 && Valid()
    {
      var nunits := NUnits(nbytes);
      Init();
      core, ap := 0, 0;
      var more := true;
      while more
        invariant Valid() && h.freep != 0 && h.live == old(h).live && h.total == old(h).total + core
                  && h.top == if core > 0 then grant + core else old(h).top
        invariant core == 0 || (grant != 0 && core == if nunits < 4096 then 4096 else nunits)
        invariant Gains(old(h).ring, h.ring, Block(grant, core)) && (core > 0 ==> more && HasFit(h.ring, nunits))
        invariant core > 0 ==> !HasFit(old(h).ring, nunits)
        invariant core == 0 ==> (HasFit(old(h).ring, nunits) <==> HasFit(h.ring, nunits))
        invariant !more ==> grant == 0 && forall j :: 0 <= j < |h.ring| ==> h.ring[j].n < nunits
        decreases core == 0, more
      {
        var found, prevp, p;
        ghost var i;
        found, prevp, p, i := Search(nunits);
        if found {
          ghost var ring := h.ring;
          ap := Take(prevp, p, nunits, i);
          ExchangedBoth(old(h).ring, ring, h.ring, Block(Header(ap), nunits), Block(grant, core));
          return;
        }
        ghost var ring := h.ring;
        var n;
        more, n := Morecore(nunits, grant);
        if more {
          core := n;
          GainsFit(old(h).ring, ring, h.ring, Block(grant, core), nunits);
        }
      }
      ExchangedNothing(old(h).ring, h.ring, grant);
    }

    /**
     Any sequence of requests on a new heap: malloc(), with sbrk() refusing or granting
     memory anywhere above what it granted before, and free() of what is held. Every request
     is answered as it should be, and nothing is lost: the units obtained are those free and
     those handed out, and once nothing is held all of them are free.
     */
    method Session(requests: seq<Request>, top: nat)
        returns (replies: seq<Reply>, held: set<nat>, obtained: nat, ghost trace: seq<Heap>)
      requires Valid() && h.live == map[] && h.total == 0 && h.top == top
      requires forall k :: 0 <= k < |requests| && requests[k].Alloc? ==> NUnits(requests[k].nbytes) * 16 < 0x8000_0000
      modifies this
      ensures Valid() && IsTrace(old(h), requests, replies, trace, h) && HeldAre(held, h.live) && obtained == h.total
      ensures Units(h.ring) + LiveUnits(h.live) == obtained && (held == {} ==> Units(h.ring) == obtained)
    {
      replies, held, obtained, trace := [], {}, 0, [h];
      var brk := top;
      for k := 0 to |requests|
        invariant Valid() && HeldAre(held, h.live) && h.total == obtained && h.top == brk
        invariant IsTrace(old(h), requests[..k], replies, trace, h)
      {
        ghost var h1 := h;
        assert requests[..k + 1] == requests[..k] + [requests[k]];
        var reply;
        match requests[k] {
          case Alloc(nbytes, refused, gap) =>
            var core;
            reply, held, core := Serve(nbytes, refused, gap, brk, held);
            obtained := obtained + core;
            if core > 0 { brk := GrantAt(brk, refused, gap) + core; }
          case Release(ap) =>
            reply, held := GiveUp(ap, held);
        }
        TraceMore(old(h), requests[..k], replies, trace, h1, requests[k], reply, h);
        replies, trace := replies + [reply], trace + [h];
      }
      assert requests[..|requests|] == requests;
      AllUnits(base, h, held);
    }

    method Serve(nbytes: nat, refused: bool, gap: nat, brk: nat, held: set<nat>)
        returns (reply: Reply, held': set<nat>, core: nat)
      requires Valid() && HeldAre(held, h.live) && NUnits(nbytes) * 16 < 0x8000_0000 && brk == h.top
      modifies this
      ensures Valid() && HeldAre(held', h.live) && h.total == old(h).total + core
      ensures h.top == if core > 0 then GrantAt(brk, refused, gap) + core else brk
      ensures Answers(old(h), Alloc(nbytes, refused, gap), reply, h)
    {
      var ap;
      TopPositive(base, h);
      var grant := GrantAt(brk, refused, gap);
      ap, core := Malloc(nbytes, grant);
      reply, held' := Allocated(ap, core), held;
      if ap != 0 {
        HoldMore(held, old(h).live, ap, NUnits(nbytes));
        held' := held + {ap};
      }
    }

    method GiveUp(ap: nat, held: set<nat>) returns (reply: Reply, held': set<nat>)
      requires Valid() && HeldAre(held, h.live)
      modifies this
      ensures Valid() && HeldAre(held', h.live) && h.total == old(h).total && h.top == old(h).top
      ensures Answers(old(h), Release(ap), reply, h)
    {
      reply, held' := Released(ap in held), held;
      if ap in held {
        HoldLess(held, h.live, ap);
        InUse(base, h, Header(ap));
        Free(ap);
        held' := held - {ap};
      }
    }
  }

  datatype Request = Alloc(nbytes: nat, refused: bool, gap: nat) | Release(ap: nat)

  /** The pointer returned with the units obtained from sbrk(), or whether there was something to free. */
  datatype Reply = Allocated(ap: nat, core: nat) | Released(done: bool)

  /** Where sbrk() puts new memory, or 0. */
  function GrantAt(top: nat, refused: bool, gap: nat): nat { if refused then 0 else top + gap }

  /** A request takes the heap from one state to the next. */
  ghost predicate Answers(h: Heap, req: Request, reply: Reply, h': Heap) {
    match req
    case Alloc(nbytes, refused, gap) => reply.Allocated? && Allocates(h, NUnits(nbytes), refused, gap, reply, h')
    case Release(ap) =>
      if ap > 0 && Header(ap) in h.live then
        && reply == Released(true) && h'.live == h.live - {Header(ap)} && h'.total == h.total && h'.top == h.top
        && Gains(h.ring, h'.ring, Block(Header(ap), h.live[Header(ap)]))
      else reply == Released(false) && h' == h
  }

  /** n units of what was free, or of what sbrk() added; 0 exactly if nothing fits and sbrk() refuses. */
  ghost predicate Allocates(h: Heap, n: nat, refused: bool, gap: nat, reply: Reply, h': Heap)
    requires reply.Allocated?
  {
    var ap, core, fits := reply.ap, reply.core, HasFit(h.ring, n);
    && (ap == 0 <==> refused && !fits)
    && core == (if refused || fits then 0 else if n < 4096 then 4096 else n)
    && h'.total == h.total + core && h'.top == (if core > 0 then GrantAt(h.top, refused, gap) + core else h.top)
    && h'.live == (if ap == 0 then h.live else h.live[Header(ap) := n]) && (ap != 0 ==> Header(ap) !in h.live)
    && Exchanged(h.ring, h'.ring, if ap == 0 then Block(0, 0) else Block(Header(ap), n),
                 Block(GrantAt(h.top, refused, gap), core))
  }

  ghost predicate AnswersAt(requests: seq<Request>, replies: seq<Reply>, trace: seq<Heap>, k: nat)
    requires k < |requests| == |replies| < |trace|
  {
    Answers(trace[k], requests[k], replies[k], trace[k + 1])
  }

  /** All requests, one after the other; `trace` has the heap after each. */
  ghost predicate IsTrace(h: Heap, requests: seq<Request>, replies: seq<Reply>, trace: seq<Heap>, h': Heap) {
    && |replies| == |requests| && |trace| == |requests| + 1 && trace[0] == h && trace[|requests|] == h'
    && forall k :: 0 <= k < |requests| ==> AnswersAt(requests, replies, trace, k)
  }

  lemma TraceMore(h: Heap, requests: seq<Request>, replies: seq<Reply>, trace: seq<Heap>, h1: Heap, req: Request,
                  reply: Reply, h2: Heap)
    requires IsTrace(h, requests, replies, trace, h1) && Answers(h1, req, reply, h2)
    ensures IsTrace(h, requests + [req], replies + [reply], trace + [h2], h2)
  {
    var qs, rs, hs := requests + [req], replies + [reply], trace + [h2];
    forall k | 0 <= k < |qs|
      ensures AnswersAt(qs, rs, hs, k)
    {
      if k < |requests| { assert AnswersAt(requests, replies, trace, k); }
    }
  }

  lemma TopPositive(base: nat, h: Heap)
    requires Inv(base, h)
    ensures h.top > 0
  {}

  /** The pointers held are those to the blocks handed out. */
  ghost predicate HeldAre(held: set<nat>, live: map<nat, nat>) {
    0 !in held
    && forall ap: nat {:trigger ap in held} {:trigger Header(ap)} :: ap > 0 ==> (ap in held <==> Header(ap) in live)
  }

  lemma HoldMore(held: set<nat>, live: map<nat, nat>, ap: nat, n: nat)
    requires HeldAre(held, live) && ap > 0
    ensures HeldAre(held + {ap}, live[Header(ap) := n])
  {}

  lemma HoldLess(held: set<nat>, live: map<nat, nat>, ap: nat)
    requires HeldAre(held, live) && ap in held
    ensures ap > 0 && Header(ap) in live && HeldAre(held - {ap}, live - {Header(ap)})
  {}

  lemma InUse(base: nat, h: Heap, a: nat)
    requires Inv(base, h) && a in h.live
    ensures h.freep != 0
  {}

  lemma AllUnits(base: nat, h: Heap, held: set<nat>)
    requires Inv(base, h) && HeldAre(held, h.live)
    ensures Units(h.ring) + LiveUnits(h.live) == h.total && (held == {} ==> Units(h.ring) == h.total)
  {
    if held == {} {
      NoneLive(h.live);
    }
    if h.freep == 0 { assert LiveUnits(map[]) == 0; }
  }

  lemma LiveIsHeld(held: set<nat>, live: map<nat, nat>, a: nat)
    requires HeldAre(held, live) && a in live
    ensures a + 1 in held
  {
    assert Header(a + 1) == a;
  }

  lemma NoneLive(live: map<nat, nat>)
    requires HeldAre({}, live)
    ensures live == map[] && LiveUnits(live) == 0
  {
    if live != map[] {
      var a :| a in live;
      LiveIsHeld({}, live, a);
    }
  }
}
