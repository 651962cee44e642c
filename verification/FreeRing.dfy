/**
 The free list of user/umalloc.c as a value: blocks in address order, the first of
 them the empty block `base`, and what free() and malloc() do to it.
 */
module FreeRing {
  /** A block of n units (headers) at address a, both counted in units. */
  datatype Block = Block(a: nat, n: nat)

  function End(b: Block): nat { b.a + b.n }

  /** Blocks in ascending order, no two of which touch. */
  ghost predicate Gaps(ring: seq<Block>) {
    forall i, j :: 0 <= i < j < |ring| ==> End(ring[i]) < ring[j].a
  }

  /** A list starts with the empty base block; the others are not empty. */
  ghost predicate Based(ring: seq<Block>, base: nat) {
    ring != [] && ring[0] == Block(base, 0) && forall i :: 1 <= i < |ring| ==> ring[i].n > 0
  }

  predicate Apart(b: Block, c: Block) { End(b) <= c.a || End(c) <= b.a }

  /** The units of a list, and how many there are. */
  ghost predicate Covers(ring: seq<Block>, u: int) {
    exists i :: 0 <= i < |ring| && ring[i].a <= u < End(ring[i])
  }

  function UnitsTo(ring: seq<Block>, k: nat): nat
    requires k <= |ring|
  {
    if k == 0 then 0 else UnitsTo(ring, k - 1) + ring[k - 1].n
  }

  function Units(ring: seq<Block>): nat { UnitsTo(ring, |ring|) }

  lemma {:induction false} UnitsPrefix(r: seq<Block>, s: seq<Block>, k: nat)
    requires k <= |r|
    ensures UnitsTo(r + s, k) == UnitsTo(r, k)
  {
    if k > 0 { UnitsPrefix(r, s, k - 1); }
  }

  lemma {:induction false} UnitsSuffix(r: seq<Block>, s: seq<Block>, k: nat)
    requires k <= |s|
    ensures UnitsTo(r + s, |r| + k) == Units(r) + UnitsTo(s, k)
  {
    if k > 0 { UnitsSuffix(r, s, k - 1); } else { UnitsPrefix(r, s, |r|); }
  }

  lemma UnitsJoin(r: seq<Block>, s: seq<Block>)
    ensures Units(r + s) == Units(r) + Units(s)
  {
    UnitsSuffix(r, s, |s|);
  }

  lemma UnitsOne(b: Block)
    ensures Units([b]) == b.n
  {
    assert UnitsTo([b], 0) == 0;
  }

  /** Exchanging the middle of a list for another of as many units, or more. */
  lemma UnitsMiddle(l: seq<Block>, m: seq<Block>, r: seq<Block>)
    ensures Units(l + m + r) == Units(l) + Units(m) + Units(r)
  {
    UnitsJoin(l + m, r);
    UnitsJoin(l, m);
  }

  // ----- free(): a block goes after ring[i], and joins its neighbours if it touches them -----

  function Put(ring: seq<Block>, i: nat, b: Block): seq<Block>
    requires i < |ring|
  {
    ring[..i + 1] + [b] + ring[i + 1..]
  }

  predicate Touch(ring: seq<Block>, j: nat) { j + 1 < |ring| && End(ring[j]) == ring[j + 1].a }

  /** Block j joined with the next, if they touch. */
  function Join(ring: seq<Block>, j: nat): seq<Block>
    requires j < |ring|
  {
    if Touch(ring, j) then ring[..j] + [Block(ring[j].a, ring[j].n + ring[j + 1].n)] + ring[j + 2..] else ring
  }

  function Insert(ring: seq<Block>, i: nat, b: Block): seq<Block>
    requires i < |ring|
  {
    Join(Join(Put(ring, i, b), i + 1), i)
  }

  /** There is room for b after ring[i]. */
  predicate Fits(ring: seq<Block>, i: nat, b: Block) {
    i < |ring| && End(ring[i]) <= b.a && (i + 1 < |ring| ==> End(b) <= ring[i + 1].a) && b.n > 0
  }

  /** In order, and not touching except perhaps blocks x and x + 1, and y and y + 1. */
  ghost predicate Ordered(ring: seq<Block>, x: int, y: int) {
    forall i, j :: 0 <= i < j < |ring| ==> Before(ring[i], ring[j], j == i + 1 && (i == x || i == y))
  }

  /** b ends before c starts, or where it starts if they may touch. */
  predicate Before(b: Block, c: Block, mayTouch: bool) { End(b) < c.a || (mayTouch && End(b) == c.a) }

  lemma PutUnits(ring: seq<Block>, i: nat, b: Block)
    requires i < |ring|
    ensures Units(Put(ring, i, b)) == Units(ring) + b.n
  {
    UnitsMiddle(ring[..i + 1], [b], ring[i + 1..]);
    UnitsJoin(ring[..i + 1], ring[i + 1..]);
    UnitsOne(b);
    assert ring == ring[..i + 1] + ring[i + 1..];
  }

  lemma UnitsTwo(b: Block, c: Block)
    ensures Units([b, c]) == b.n + c.n
  {
    assert [b, c] == [b] + [c];
    UnitsJoin([b], [c]);
    UnitsOne(b);
    UnitsOne(c);
  }

  lemma JoinUnits(ring: seq<Block>, j: nat)
    requires j < |ring|
    ensures Units(Join(ring, j)) == Units(ring)
  {
    if Touch(ring, j) {
      var m := Block(ring[j].a, ring[j].n + ring[j + 1].n);
      UnitsMiddle(ring[..j], [m], ring[j + 2..]);
      UnitsMiddle(ring[..j], [ring[j], ring[j + 1]], ring[j + 2..]);
      UnitsOne(m);
      UnitsTwo(ring[j], ring[j + 1]);
      assert ring == ring[..j] + [ring[j], ring[j + 1]] + ring[j + 2..];
    }
  }

  /** free() conserves units. */
  lemma InsertUnits(ring: seq<Block>, i: nat, b: Block)
    requires i < |ring|
    ensures Units(Insert(ring, i, b)) == Units(ring) + b.n
  {
    PutUnits(ring, i, b);
    JoinUnits(Put(ring, i, b), i + 1);
    JoinUnits(Join(Put(ring, i, b), i + 1), i);
  }

  lemma PutAt(ring: seq<Block>, i: nat, b: Block, j: nat)
    requires i < |ring| && j <= |ring|
    ensures Put(ring, i, b)[j] == if j <= i then ring[j] else if j == i + 1 then b else ring[j - 1]
  {}

  /** Block k of the list in which j and the next are joined. */
  function Joined(ring: seq<Block>, j: nat, k: nat): Block
    requires j + 1 < |ring| && k < |ring| - 1
  {
    if k < j then ring[k] else if k == j then Block(ring[j].a, ring[j].n + ring[j + 1].n) else ring[k + 1]
  }

  lemma JoinAt(ring: seq<Block>, j: nat, k: nat)
    requires Touch(ring, j) && k < |ring| - 1
    ensures Join(ring, j)[k] == Joined(ring, j, k)
  {}

  lemma PutOrdered(ring: seq<Block>, i: nat, b: Block, base: nat)
    requires Gaps(ring) && Based(ring, base) && Fits(ring, i, b)
    ensures Ordered(Put(ring, i, b), i, i + 1) && Based(Put(ring, i, b), base)
  {
    var r := Put(ring, i, b);
    forall p, q | 0 <= p < q < |r|
      ensures Before(r[p], r[q], q == p + 1 && (p == i || p == i + 1))
    {
      PutAt(ring, i, b, p);
      PutAt(ring, i, b, q);
      if q == i + 1 && p < i { assert End(ring[p]) < ring[i].a; }
      if p == i + 1 && q > i + 2 { assert End(ring[i + 1]) < ring[q - 1].a; }
    }
    PutBased(ring, i, b, base);
  }

  lemma PutBased(ring: seq<Block>, i: nat, b: Block, base: nat)
    requires Based(ring, base) && i < |ring| && b.n > 0
    ensures Based(Put(ring, i, b), base)
  {
    forall j | 0 <= j <= |ring|
      ensures Put(ring, i, b)[j] == if j <= i then ring[j] else if j == i + 1 then b else ring[j - 1]
    {
      PutAt(ring, i, b, j);
    }
  }

  lemma JoinOrdered(ring: seq<Block>, j: nat, x: int, base: nat)
    requires Ordered(ring, j, x) && Based(ring, base) && j < |ring| && x < j
             && (j == 0 && 1 < |ring| ==> End(ring[0]) < ring[1].a)
    ensures Ordered(Join(ring, j), x, -1) && Based(Join(ring, j), base)
  {
    var r := Join(ring, j);
    if Touch(ring, j) {
      forall p, q | 0 <= p < q < |r|
        ensures Before(r[p], r[q], q == p + 1 && (p == x || p == -1))
      {
        JoinAt(ring, j, p);
        JoinAt(ring, j, q);
        var p', q' := if p < j then p else p + 1, if q <= j then q else q + 1;
        assert Before(ring[p'], ring[q'], q' == p' + 1 && (p' == j || p' == x));
      }
      JoinBased(ring, j, base);
    } else {
      JoinNothing(ring, j, x);
    }
  }

  lemma JoinNothing(ring: seq<Block>, j: nat, x: int)
    requires Ordered(ring, j, x) && !Touch(ring, j)
    ensures Ordered(ring, x, -1)
  {
    forall p, q | 0 <= p < q < |ring|
      ensures Before(ring[p], ring[q], q == p + 1 && (p == x || p == -1))
    {
      assert Before(ring[p], ring[q], q == p + 1 && (p == j || p == x));
    }
  }

  lemma JoinBased(ring: seq<Block>, j: nat, base: nat)
    requires Based(ring, base) && 0 < j && Touch(ring, j)
    ensures Based(Join(ring, j), base)
  {
    forall k | 0 <= k < |ring| - 1
      ensures Join(ring, j)[k] == Joined(ring, j, k)
    {
      JoinAt(ring, j, k);
    }
  }

  /** free() keeps the list in order, without blocks that touch. */
  lemma InsertGaps(ring: seq<Block>, i: nat, b: Block, base: nat)
    requires Gaps(ring) && Based(ring, base) && Fits(ring, i, b) && base < b.a
    ensures Gaps(Insert(ring, i, b)) && Based(Insert(ring, i, b), base)
  {
    PutOrdered(ring, i, b, base);
    JoinOrdered(Put(ring, i, b), i + 1, i, base);
    JoinOrdered(Join(Put(ring, i, b), i + 1), i, -1, base);
  }

  lemma JoinCovers(ring: seq<Block>, j: nat, u: int)
    requires j < |ring|
    ensures Covers(Join(ring, j), u) <==> Covers(ring, u)
  {
    var r := Join(ring, j);
    if Touch(ring, j) {
      assert forall k :: 0 <= k < |r| ==> r[k] == Joined(ring, j, k);
      if Covers(ring, u) {
        var k :| 0 <= k < |ring| && ring[k].a <= u < End(ring[k]);
        var k' := if k <= j then k else k - 1;
        assert r[k'].a <= u < End(r[k']);
      }
    }
  }

  lemma PutCovers(ring: seq<Block>, i: nat, b: Block, u: int)
    requires i < |ring|
    ensures Covers(Put(ring, i, b), u) <==> Covers(ring, u) || b.a <= u < End(b)
  {
    var r := Put(ring, i, b);
    assert forall j :: 0 <= j < |r| ==> r[j] == if j <= i then ring[j] else if j == i + 1 then b else ring[j - 1];
    if Covers(ring, u) {
      var k :| 0 <= k < |ring| && ring[k].a <= u < End(ring[k]);
      assert r[if k <= i then k else k + 1] == ring[k];
    } else if b.a <= u < End(b) {
      assert r[i + 1] == b;
    }
  }

  /** free() adds exactly the block's units. */
  lemma InsertCovers(ring: seq<Block>, i: nat, b: Block, u: int)
    requires i < |ring|
    ensures Covers(Insert(ring, i, b), u) <==> Covers(ring, u) || b.a <= u < End(b)
  {
    PutCovers(ring, i, b, u);
    JoinCovers(Put(ring, i, b), i + 1, u);
    JoinCovers(Join(Put(ring, i, b), i + 1), i, u);
  }

  // ----- malloc(): units from the end of ring[i] -----

  /** The list without the last n units of ring[i]. */
  function Carve(ring: seq<Block>, i: nat, n: nat): seq<Block>
    requires i < |ring| && n <= ring[i].n
  {
    if ring[i].n == n then ring[..i] + ring[i + 1..] else ring[i := Block(ring[i].a, ring[i].n - n)]
  }

  function Carved(b: Block, n: nat): Block
    requires n <= b.n
  {
    Block(End(b) - n, n)
  }

  /** malloc() conserves units. */
  lemma CarveUnits(ring: seq<Block>, i: nat, n: nat)
    requires i < |ring| && n <= ring[i].n
    ensures Units(Carve(ring, i, n)) + n == Units(ring)
  {
    assert ring == ring[..i] + [ring[i]] + ring[i + 1..];
    UnitsMiddle(ring[..i], [ring[i]], ring[i + 1..]);
    UnitsOne(ring[i]);
    if ring[i].n == n {
      UnitsJoin(ring[..i], ring[i + 1..]);
    } else {
      var m := Block(ring[i].a, ring[i].n - n);
      UnitsMiddle(ring[..i], [m], ring[i + 1..]);
      UnitsOne(m);
      assert ring[i := m] == ring[..i] + [m] + ring[i + 1..];
    }
  }

  lemma CarveGaps(ring: seq<Block>, i: nat, n: nat, base: nat)
    requires Gaps(ring) && Based(ring, base) && i < |ring| && 0 < n <= ring[i].n
    ensures Gaps(Carve(ring, i, n)) && Based(Carve(ring, i, n), base)
  {}

  /** malloc() takes exactly the units of the block it returns. */
  lemma CarveCovers(ring: seq<Block>, i: nat, n: nat, u: int)
    requires Gaps(ring) && i < |ring| && 0 < n <= ring[i].n
    ensures var b := Carved(ring[i], n);
            Covers(Carve(ring, i, n), u) <==> Covers(ring, u) && !(b.a <= u < End(b))
  {
    if ring[i].n == n { CarveWhole(ring, i, u); } else { CarvePart(ring, i, n, u); }
  }

  lemma CarveWhole(ring: seq<Block>, i: nat, u: int)
    requires Gaps(ring) && i < |ring|
    ensures Covers(ring[..i] + ring[i + 1..], u) <==> Covers(ring, u) && !(ring[i].a <= u < End(ring[i]))
  {
    var r := ring[..i] + ring[i + 1..];
    if Covers(r, u) {
      var j :| 0 <= j < |r| && r[j].a <= u < End(r[j]);
      var k := if j < i then j else j + 1;
      assert r[j] == ring[k];
      OneCovers(ring, i, k, u);
    } else if Covers(ring, u) && !(ring[i].a <= u < End(ring[i])) {
      StillCovered(ring, i, u);
    }
  }

  lemma StillCovered(ring: seq<Block>, i: nat, u: int)
    requires i < |ring| && Covers(ring, u) && !(ring[i].a <= u < End(ring[i]))
    ensures Covers(ring[..i] + ring[i + 1..], u)
  {
    var r := ring[..i] + ring[i + 1..];
    var j :| 0 <= j < |ring| && ring[j].a <= u < End(ring[j]);
    assert r[if j < i then j else j - 1] == ring[j];
  }

  lemma CarvePart(ring: seq<Block>, i: nat, n: nat, u: int)
    requires Gaps(ring) && i < |ring| && 0 < n < ring[i].n
    ensures var b := Carved(ring[i], n);
            Covers(ring[i := Block(ring[i].a, ring[i].n - n)], u) <==> Covers(ring, u) && !(b.a <= u < End(b))
  {
    var r := ring[i := Block(ring[i].a, ring[i].n - n)];
    if Covers(r, u) {
      var j :| 0 <= j < |r| && r[j].a <= u < End(r[j]);
      assert ring[j].a <= u < End(ring[j]);
      if j != i { OneCovers(ring, i, j, u); }
    }
    if Covers(ring, u) {
      var j :| 0 <= j < |ring| && ring[j].a <= u < End(ring[j]);
      assert r[j].a == ring[j].a;
    }
  }

  /** A unit of one block is in no other. */
  lemma OneCovers(ring: seq<Block>, i: nat, j: nat, u: int)
    requires Gaps(ring) && i < |ring| && j < |ring| && i != j && ring[j].a <= u < End(ring[j])
    ensures !(ring[i].a <= u < End(ring[i]))
  {
    if i < j { assert End(ring[i]) < ring[j].a; } else { assert End(ring[j]) < ring[i].a; }
  }

  predicate InBlock(b: Block, u: int) { b.a <= u < End(b) }

  /** ring' has the units of ring and of b. */
  ghost predicate Gains(ring: seq<Block>, ring': seq<Block>, b: Block) {
    forall u :: Covers(ring', u) <==> Covers(ring, u) || InBlock(b, u)
  }

  /** ring' has the units of ring that are not in b, which were all there. */
  ghost predicate Loses(ring: seq<Block>, ring': seq<Block>, b: Block) {
    && (forall u :: Covers(ring', u) <==> Covers(ring, u) && !InBlock(b, u))
    && (forall u :: InBlock(b, u) ==> Covers(ring, u))
  }

  lemma InsertGains(ring: seq<Block>, i: nat, b: Block)
    requires i < |ring|
    ensures Gains(ring, Insert(ring, i, b), b)
  {
    forall u
      ensures Covers(Insert(ring, i, b), u) <==> Covers(ring, u) || InBlock(b, u)
    {
      InsertCovers(ring, i, b, u);
    }
  }

  lemma CarveLoses(ring: seq<Block>, i: nat, n: nat)
    requires Gaps(ring) && i < |ring| && 0 < n <= ring[i].n
    ensures Loses(ring, Carve(ring, i, n), Carved(ring[i], n))
  {
    forall u
      ensures Covers(Carve(ring, i, n), u) <==> Covers(ring, u) && !InBlock(Carved(ring[i], n), u)
      ensures InBlock(Carved(ring[i], n), u) ==> Covers(ring, u)
    {
      CarveCovers(ring, i, n, u);
    }
  }
}
