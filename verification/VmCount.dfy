/**
 How many pages mapping takes: one for each page of user memory, and one for each
 table that the address space does not have yet. So it can be told beforehand
 whether memory will run out.
 */
module VmCount {
  import opened Counting
  import opened PageTables
  import opened VmState

  /** The middle and the lowest-level tables that the n pages from v on lie under. */
  ghost function Mids(v: nat, n: nat): set<nat> { set j | 0 <= j < n :: MidOf(Nth(v, j)) }
  ghost function Lows(v: nat, n: nat): set<nat> { set j | 0 <= j < n :: LowOf(Nth(v, j)) }

  function MidOf(v: nat): nat { v / ENTRIES / ENTRIES }
  function LowOf(v: nat): nat { v / ENTRIES }

  /** The number of tables that have to be added to map these pages. */
  ghost function Missing(sp: Space, v: nat, n: nat): nat {
    |Mids(v, n) - sp.mid.Keys| + |Lows(v, n) - sp.low.Keys|
  }

  /** Free pages and the tables of r. */
  ghost function Stock(k: K, r: nat): nat
    requires r in k.spaces
  {
    |k.free| + |k.spaces[r].mid.Keys| + |k.spaces[r].low.Keys|
  }

  /** From k to k', the tables for the n pages from v on were added to r, and d other pages were taken. */
  ghost predicate Took(k: K, k': K, r: nat, v: nat, n: nat, d: nat) {
    && r in k.spaces && r in k'.spaces && Stock(k, r) == Stock(k', r) + d
    && k'.spaces[r].mid.Keys == k.spaces[r].mid.Keys + Mids(v, n)
    && k'.spaces[r].low.Keys == k.spaces[r].low.Keys + Lows(v, n)
  }

  /** There are not enough free pages for the tables of the n pages from v on in r and d other pages. */
  ghost predicate Short(k: K, r: nat, v: nat, n: nat, d: nat) {
    r in k.spaces && |k.free| < d + Missing(k.spaces[r], v, n)
  }

  lemma UnionMinus(a: set<nat>, b: set<nat>)
    ensures |a + b| == |a| + |b - a|
  {
    assert a + b == a + (b - a);
  }

  lemma TookNone(k: K, r: nat, v: nat)
    requires r in k.spaces
    ensures Took(k, k, r, v, 0, 0)
  {}

  lemma TablesNext(v: nat, n: nat, n': nat)
    requires n' == n + 1
    ensures Mids(v, n') == Mids(v, n) + Mids(Nth(v, n), 1) && Lows(v, n') == Lows(v, n) + Lows(Nth(v, n), 1)
  {
    OneTable(Nth(v, n));
    assert Mids(v, n') == Mids(v, n) + {MidOf(Nth(v, n))};
    assert Lows(v, n') == Lows(v, n) + {LowOf(Nth(v, n))};
  }

  lemma OneTable(v: nat)
    ensures Mids(v, 1) == {MidOf(v)} && Lows(v, 1) == {LowOf(v)}
  {
    assert Nth(v, 0) == v;
  }

  /** One page after n. */
  lemma TookNext(k: K, k1: K, k2: K, r: nat, v: nat, n: nat, d: nat, e: nat, n': nat, d': nat)
    requires Took(k, k1, r, v, n, d) && Took(k1, k2, r, Nth(v, n), 1, e) && n' == n + 1 && d' == d + e
    ensures Took(k, k2, r, v, n', d')
  {
    TablesNext(v, n, n');
  }

  /** What was taken was there. */
  lemma TookFits(k: K, k': K, r: nat, v: nat, n: nat, d: nat)
    requires Took(k, k', r, v, n, d)
    ensures !Short(k, r, v, n, d)
  {
    UnionMinus(k.spaces[r].mid.Keys, Mids(v, n));
    UnionMinus(k.spaces[r].low.Keys, Lows(v, n));
  }

  lemma MoreMissing(sp: Space, v: nat, n: nat, m: nat)
    requires n <= m
    ensures Missing(sp, v, n) <= Missing(sp, v, m)
  {
    SubsetSize(Mids(v, n) - sp.mid.Keys, Mids(v, m) - sp.mid.Keys);
    SubsetSize(Lows(v, n) - sp.low.Keys, Lows(v, m) - sp.low.Keys);
  }

  /** If the page after n cannot be had, then not all of them could. */
  lemma ShortBefore(k: K, k1: K, r: nat, v: nat, n: nat, d: nat, e: nat, m: nat, d': nat)
    requires Took(k, k1, r, v, n, d) && Short(k1, r, Nth(v, n), 1, e) && n < m && d + e <= d'
    ensures Short(k, r, v, m, d')
  {
    var sp, sp1 := k.spaces[r], k1.spaces[r];
    TablesNext(v, n, n + 1);
    UnionMinus(sp.mid.Keys, Mids(v, n));
    UnionMinus(sp.low.Keys, Lows(v, n));
    MissingThen(sp.mid.Keys, Mids(v, n), Mids(Nth(v, n), 1));
    MissingThen(sp.low.Keys, Lows(v, n), Lows(Nth(v, n), 1));
    MoreMissing(sp, v, n + 1, m);
  }

  lemma MissingThen(a: set<nat>, b: set<nat>, c: set<nat>)
    ensures |(b + c) - a| == |b - a| + |c - (a + b)|
  {
    assert (b + c) - a == (b - a) + (c - (a + b));
  }

  // ----- walk() -----

  /** From k to k', the table of v below a level is there. */
  ghost predicate Stepped(k: K, k': K, r: nat, level: nat, v: nat) {
    && r in k.spaces && r in k'.spaces && Stock(k, r) == Stock(k', r)
    && k'.spaces[r].mid.Keys == k.spaces[r].mid.Keys + (if level == 2 then {MidOf(v)} else {})
    && k'.spaces[r].low.Keys == k.spaces[r].low.Keys + (if level == 1 then {LowOf(v)} else {})
  }

  /** From k to k', the tables of v down to a level are there. */
  ghost predicate Down(k: K, k': K, r: nat, level: nat, v: nat) {
    && r in k.spaces && r in k'.spaces && Stock(k, r) == Stock(k', r)
    && k'.spaces[r].mid.Keys == k.spaces[r].mid.Keys + (if level < 2 then {MidOf(v)} else {})
    && k'.spaces[r].low.Keys == k.spaces[r].low.Keys + (if level < 1 then {LowOf(v)} else {})
  }

  lemma DownStep(k: K, k1: K, k2: K, r: nat, level: nat, v: nat, level': nat)
    requires Down(k, k1, r, level, v) && Stepped(k1, k2, r, level, v) && 0 < level <= 2 && level' == level - 1
    ensures Down(k, k2, r, level', v)
  {}

  lemma DownTook(k: K, k': K, r: nat, v: nat)
    requires Down(k, k', r, 0, v)
    ensures Took(k, k', r, v, 1, 0)
  {
    OneTable(v);
  }

  lemma DownShort(k: K, k': K, r: nat, level: nat, v: nat)
    requires Down(k, k', r, level, v) && 0 < level <= 2 && k'.free == [] && !HasTable(k'.spaces[r], level - 1, v)
    ensures Short(k, r, v, 1, 0)
  {
    var sp := k.spaces[r];
    OneTable(v);
    if level == 2 {
      assert MidOf(v) in {MidOf(v)} - sp.mid.Keys;
    } else {
      UnionMinus(sp.mid.Keys, {MidOf(v)});
      assert LowOf(v) in {LowOf(v)} - sp.low.Keys;
    }
  }

  lemma NewKey(m: map<nat, nat>, i: nat, p: nat)
    requires i !in m
    ensures m[i := p].Keys == m.Keys + {i} && |m[i := p].Keys| == |m.Keys| + 1
  {
    assert m[i := p].Keys == m.Keys + {i};
  }

  lemma NewTableSteps(k: K, k': K, r: nat, level: nat, v: nat, p: nat)
    requires r in k.spaces && r in k'.spaces && 0 < level <= 2 && !HasTable(k.spaces[r], level - 1, v)
    requires |k.free| == |k'.free| + 1 && k'.spaces[r] == WithTable(k.spaces[r], level, v, p)
    ensures Stepped(k, k', r, level, v)
  {
    if level == 2 {
      NewKey(k.spaces[r].mid, MidOf(v), p);
    } else {
      NewKey(k.spaces[r].low, LowOf(v), p);
    }
  }

  lemma SameSteps(k: K, r: nat, level: nat, v: nat)
    requires r in k.spaces && 0 < level <= 2 && HasTable(k.spaces[r], level - 1, v)
    ensures Stepped(k, k, r, level, v)
  {
    if level == 2 {
      assert k.spaces[r].mid.Keys == k.spaces[r].mid.Keys + {MidOf(v)};
    } else {
      assert k.spaces[r].low.Keys == k.spaces[r].low.Keys + {LowOf(v)};
    }
  }

  /** Nothing but leaves was changed since. */
  ghost predicate SameStock(k: K, k': K, r: nat) {
    && r in k.spaces && r in k'.spaces && |k'.free| == |k.free|
    && k'.spaces[r].mid.Keys == k.spaces[r].mid.Keys && k'.spaces[r].low.Keys == k.spaces[r].low.Keys
  }

  lemma TookSame(k: K, k1: K, k2: K, r: nat, v: nat, n: nat, d: nat)
    requires Took(k, k1, r, v, n, d) && SameStock(k1, k2, r)
    ensures Took(k, k2, r, v, n, d)
  {}

  /** A page taken first. */
  lemma TookPage(k: K, k1: K, k2: K, r: nat, v: nat)
    requires r in k.spaces && r in k1.spaces && k1.spaces[r] == k.spaces[r] && |k.free| == |k1.free| + 1
    ensures Took(k1, k2, r, v, 1, 0) ==> Took(k, k2, r, v, 1, 1)
    ensures Short(k1, r, v, 1, 0) ==> Short(k, r, v, 1, 1)
  {}

  lemma NonePage(k: K, r: nat, v: nat)
    requires r in k.spaces && k.free == []
    ensures Short(k, r, v, 1, 1)
  {}

  lemma ShortAll(k: K, r: nat, v: nat, n: nat, m: nat, d: nat)
    requires Short(k, r, v, n, d) && n <= m
    ensures Short(k, r, v, m, d)
  {
    MoreMissing(k.spaces[r], v, n, m);
  }

  /** Where mappages() is after n of `all` pages: it has what they take, or memory was too little for all. */
  ghost predicate Counted(k: K, k': K, r: nat, v: nat, n: nat, all: nat, ok: bool) {
    && (ok ==> Took(k, k', r, v, n, 0))
    && (!ok ==> Short(k, r, v, all, 0) && r in k'.spaces && Stock(k, r) == Stock(k', r) && k'.free == [])
  }

  lemma CountedEnds(k: K, k': K, r: nat, v: nat, n: nat, all: nat, ok: bool)
    requires Counted(k, k', r, v, n, all, ok) && (ok ==> n == all)
    ensures ok <==> !Short(k, r, v, all, 0)
  {
    if ok { TookFits(k, k', r, v, n, 0); }
  }

  lemma CountedNext(k: K, k': K, r: nat, v: nat, n: nat, n': nat, all: nat, ok: bool)
    requires n' <= all && if ok then Took(k, k', r, v, n, 0)
             else Short(k, r, v, n', 0) && r in k'.spaces && Stock(k, r) == Stock(k', r) && k'.free == []
    ensures Counted(k, k', r, v, n, all, ok)
  {
    if !ok { ShortAll(k, r, v, n', all, 0); }
  }

  // ----- user memory -----

  function Count(n: nat, m: nat): nat { if n <= m then m - n else 0 }

  lemma CountNext(n: nat, m: nat)
    requires n <= m
    ensures Count(n, Nth(m, 1)) == Count(n, m) + 1 && Nth(n, Count(n, m)) == m
  {}

  lemma CountOrder(n: nat, m: nat, m': nat)
    requires n <= m <= m'
    ensures Count(n, m) <= Count(n, m') && (m < m' ==> Count(n, m) + 1 <= Count(n, m'))
  {}

  /** From k to k', r got its pages n to m, and the tables for them. */
  ghost predicate Spent(k: K, k': K, r: nat, n: nat, m: nat) {
    n <= m && Took(k, k', r, n, Count(n, m), Count(n, m))
  }

  /** There are not enough free pages to give r its pages n to m, with the tables for them. */
  ghost predicate TooFew(k: K, r: nat, n: nat, m: nat) { n <= m && Short(k, r, n, Count(n, m), Count(n, m)) }

  lemma SpentNone(k: K, r: nat, n: nat)
    requires r in k.spaces
    ensures Spent(k, k, r, n, n)
  {
    TookNone(k, r, n);
  }

  lemma SpentNext(k: K, k1: K, k2: K, r: nat, n: nat, m: nat)
    requires Spent(k, k1, r, n, m) && Took(k1, k2, r, m, 1, 1)
    ensures Spent(k, k2, r, n, Nth(m, 1))
  {
    CountNext(n, m);
    TookNext(k, k1, k2, r, n, Count(n, m), Count(n, m), 1, Count(n, Nth(m, 1)), Count(n, Nth(m, 1)));
  }

  lemma SpentFits(k: K, k': K, r: nat, n: nat, m: nat)
    requires Spent(k, k', r, n, m)
    ensures !TooFew(k, r, n, m)
  {
    TookFits(k, k', r, n, Count(n, m), Count(n, m));
  }

  lemma TooFewBefore(k: K, k1: K, r: nat, n: nat, m: nat, m': nat)
    requires Spent(k, k1, r, n, m) && Short(k1, r, m, 1, 1) && m < m'
    ensures TooFew(k, r, n, m')
  {
    CountNext(n, m);
    CountOrder(n, m, m');
    ShortBefore(k, k1, r, n, Count(n, m), Count(n, m), 1, Count(n, m'), Count(n, m'));
  }

  /** Where the loop of uvmalloc() or uvmcopy() is, before page PageNo(a) of those up to sz. */
  ghost predicate Filling(k: K, k': K, r: nat, n: nat, a: nat, sz: nat, ok: bool) {
    if ok then Spent(k, k', r, n, PageNo(a)) else TooFew(k, r, n, Pages(sz))
  }

  lemma FillingNext(k: K, k1: K, k2: K, r: nat, n: nat, a: nat, sz: nat, a': nat)
    requires a % PGSIZE == 0 && a < sz && a' == a + PGSIZE && Filling(k, k1, r, n, a, sz, true)
    ensures Took(k1, k2, r, PageNo(a), 1, 1) ==> Filling(k, k2, r, n, a', sz, true)
    ensures Short(k1, r, PageNo(a), 1, 1) ==> Filling(k, k2, r, n, a, sz, false)
  {
    NextAddr(a, a');
    PageBefore(a, sz);
    if Took(k1, k2, r, PageNo(a), 1, 1) { SpentNext(k, k1, k2, r, n, PageNo(a)); }
    if Short(k1, r, PageNo(a), 1, 1) { TooFewBefore(k, k1, r, n, PageNo(a), Pages(sz)); }
  }

  lemma FillingEnds(k: K, k': K, r: nat, n: nat, a: nat, sz: nat, ok: bool)
    requires Filling(k, k', r, n, a, sz, ok) && (ok ==> PageNo(a) == Pages(sz))
    ensures ok <==> !TooFew(k, r, n, Pages(sz))
  {
    if ok { SpentFits(k, k', r, n, PageNo(a)); }
  }

  lemma SameSize(newsz: nat, sz: nat, n: nat)
    requires newsz == sz + n
    ensures Pages(newsz) == Pages(sz + n)
  {}

  lemma PageBefore(a: nat, sz: nat)
    requires a % PGSIZE == 0 && a < sz
    ensures PageNo(a) < Pages(sz)
  {}

  // ----- a new address space -----

  const BARE := Space(map[], map[], map[])

  /** The trampoline needs two tables, and the trapframe lies under the same. */
  lemma SpecialTables(k: K, r: nat)
    requires r in k.spaces && k.spaces[r] == BARE
    ensures Short(k, r, PageNo(TRAMPOLINE), 1, 0) <==> |k.free| < 2
  {
    OneTable(PageNo(TRAMPOLINE));
    assert Mids(PageNo(TRAMPOLINE), 1) - {} == {MidOf(PageNo(TRAMPOLINE))};
    assert Lows(PageNo(TRAMPOLINE), 1) - {} == {LowOf(PageNo(TRAMPOLINE))};
  }

  lemma TrapframeFits(k: K, k1: K, r: nat)
    requires Took(k, k1, r, PageNo(TRAMPOLINE), 1, 0)
    ensures !Short(k1, r, PageNo(TRAPFRAME), 1, 0)
  {
    OneTable(PageNo(TRAMPOLINE));
    OneTable(PageNo(TRAPFRAME));
    assert Mids(PageNo(TRAPFRAME), 1) - k1.spaces[r].mid.Keys == {};
    assert Lows(PageNo(TRAPFRAME), 1) - k1.spaces[r].low.Keys == {};
  }

  /** From k to k', address space r came to be, with the two tables for the trampoline and the trapframe. */
  ghost predicate Fresh(k: K, k': K, r: nat) {
    && r in k'.spaces && |k.free| == |k'.free| + 3
    && k'.spaces[r].mid.Keys == Mids(PageNo(TRAMPOLINE), 1) && k'.spaces[r].low.Keys == Lows(PageNo(TRAMPOLINE), 1)
  }

  lemma SpecialsTook(k: K, k1: K, k2: K, r: nat)
    requires Took(k, k1, r, PageNo(TRAMPOLINE), 1, 0) && Took(k1, k2, r, PageNo(TRAPFRAME), 1, 0)
    ensures Took(k, k2, r, PageNo(TRAMPOLINE), 1, 0)
  {
    OneTable(PageNo(TRAMPOLINE));
    OneTable(PageNo(TRAPFRAME));
  }

  lemma SpecialsFresh(k: K, k1: K, k2: K, r: nat)
    requires |k.free| == |k1.free| + 1 && r in k1.spaces && k1.spaces[r] == BARE
    requires Took(k1, k2, r, PageNo(TRAMPOLINE), 1, 0)
    ensures Fresh(k, k2, r)
  {
    OneTable(PageNo(TRAMPOLINE));
    assert BARE.mid.Keys == {} && BARE.low.Keys == {};
  }
}
