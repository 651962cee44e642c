/**
 The state that kernel/kalloc.c and kernel/vm.c change, and what each of their
 writes does to the free list, the roles of pages and the address spaces.
 */
module VmState {
  import opened Counting
  import opened PageTables
  import opened Words

  /** The state of memory: what is stored, and what it stands for. */
  datatype K = K(mem: map<nat, Page>, freelist: nat, ghost free: seq<nat>, ghost own: map<nat, Role>,
        ghost spaces: map<nat, Space>)

  /** Every role belongs to an address space that exists, or to one being taken apart (0 for none). */
  ghost predicate Settled(own: map<nat, Role>, spaces: map<nat, Space>, dying: nat) {
    forall p :: p in own && !own[p].Held? ==> own[p].r in spaces || (dying != 0 && own[p].r == dying)
  }

  /** The free list and the roles agree, whatever the tables say. */
  ghost predicate Listed(lo: nat, k: K) {
    KERNBASE <= lo && Linked(k.mem, k.freelist, k.free) && Partition(lo, k.free, k.own)
  }

  ghost predicate Inv(lo: nat, k: K, dying: nat) {
    Listed(lo, k) && Owned(k.mem, k.own, k.spaces) && Settled(k.own, k.spaces, dying)
  }

  // ----- the free list -----

  function Junk(b: byte): (page: Page)
    ensures page.Bytes? && |page.data| == PGSIZE
  {
    Bytes(seq(PGSIZE, _ => b))
  }

  ghost function Allocated(k: K): K
    requires k.free != [] && k.free[0] in k.mem && k.mem[k.free[0]].Run?
  {
    var p := k.free[0];
    K(k.mem[p := Junk(5)], k.mem[p].next, k.free[1..], k.own[p := Held], k.spaces)
  }

  ghost function Freed(k: K, pa: nat): K {
    K(k.mem[pa := Run(k.freelist)], pa, [pa] + k.free, k.own - {pa}, k.spaces)
  }

  lemma Popped(lo: nat, k: K)
    requires Listed(lo, k) && k.free != []
    ensures var p := k.free[0];
            p in k.mem && k.mem[p].Run? && p !in k.own && Managed(lo, p) && Listed(lo, Allocated(k))
  {
    var p, rest := k.free[0], k.free[1..];
    assert k.free == [p] + rest;
    forall i | 0 <= i < |rest|
      ensures rest[i] != p && rest[i] in k.mem && k.mem[rest[i]] == Run(NextFree(rest, i))
    {
      assert k.free[i + 1] == rest[i] && NextFree(k.free, i + 1) == NextFree(rest, i);
    }
    forall q | Managed(lo, q)
      ensures q in k.own[p := Held] || q in rest
    {
      assert q in k.own || q in k.free;
    }
  }

  lemma Pushed(lo: nat, k: K, p: nat)
    requires Listed(lo, k) && p in k.own
    ensures Listed(lo, Freed(k, p))
  {
    var free', mem' := [p] + k.free, k.mem[p := Run(k.freelist)];
    forall i | 0 <= i < |free'|
      ensures free'[i] in mem' && mem'[free'[i]] == Run(NextFree(free', i))
    {
      if i > 0 { assert free'[i] == k.free[i - 1] && k.free[i - 1] in k.free
          && NextFree(free', i) == NextFree(k.free, i - 1); }
    }
    forall q | Managed(lo, q)
      ensures q in k.own - {p} || q in free'
    {
      assert q in k.own || q in k.free;
      assert q in k.free ==> q in free';
      assert free'[0] == p;
    }
  }

  /** A page the kernel takes, or gives back, has no part in an address space. */
  lemma TakenOwned(mem: map<nat, Page>, own: map<nat, Role>, spaces: map<nat, Space>, p: nat)
    requires Owned(mem, own, spaces) && p !in own && p in mem
    ensures Owned(mem, own[p := Held], spaces)
  {}

  lemma GivenOwned(mem: map<nat, Page>, own: map<nat, Role>, spaces: map<nat, Space>, p: nat)
    requires Owned(mem, own, spaces) && p in own && (own[p].Held? || own[p].r !in spaces)
    ensures Owned(mem, own - {p}, spaces)
  {}

  lemma AllocatedInv(lo: nat, k: K, dying: nat)
    requires Inv(lo, k, dying) && k.free != []
    ensures k.free[0] in k.mem && k.mem[k.free[0]].Run? && Inv(lo, Allocated(k), dying)
  {
    Popped(lo, k);
    WriteFrame(k.mem, k.own, k.spaces, k.free[0], Junk(5));
    TakenOwned(k.mem[k.free[0] := Junk(5)], k.own, k.spaces, k.free[0]);
  }

  lemma FreedInv(lo: nat, k: K, pa: nat, dying: nat)
    requires Inv(lo, k, dying) && pa in k.own && (k.own[pa].Held? || k.own[pa].r !in k.spaces)
    ensures Inv(lo, Freed(k, pa), dying)
  {
    Pushed(lo, k, pa);
    GivenOwned(k.mem, k.own, k.spaces, pa);
    WriteFrame(k.mem, k.own - {pa}, k.spaces, pa, Run(k.freelist));
  }

  lemma LinkedFrame(mem: map<nat, Page>, freelist: nat, free: seq<nat>, p: nat, page: Page)
    requires Linked(mem, freelist, free) && p !in free
    ensures Linked(mem[p := page], freelist, free)
  {}

  // ----- what an operation on address space r leaves alone -----

  /**
   Pages keep their roles and, but for r's tables, their contents; new roles are
   those of tables of r and of its pages from `from` on.
   */
  ghost predicate Grew(k: K, k': K, r: nat, from: nat) {
    && (forall p :: p in k.own ==> p in k'.own && k'.own[p] == k.own[p])
    && (forall p :: p in k.own && p in k.mem && (k.own[p].Held? || k.own[p].Data?) ==>
         p in k'.mem && k'.mem[p] == k.mem[p])
    && (forall p :: p in k'.own && p !in k.own ==>
          !k'.own[p].Held? && k'.own[p].r == r && !k'.own[p].Root? && (k'.own[p].Data? ==> from <= k'.own[p].v))
  }

  /** Only address space r differs. */
  ghost predicate Only(k: K, k': K, r: nat) {
    r in k.spaces && r in k'.spaces && k'.spaces == k.spaces[r := k'.spaces[r]]
  }

  /** Nothing but new tables in r. */
  ghost predicate Tabled(k: K, k': K, r: nat) {
    Only(k, k', r) && k'.spaces[r].leaf == k.spaces[r].leaf && Grew(k, k', r, VPAGES)
  }

  lemma GrewTwice(k: K, k1: K, k2: K, r: nat, from: nat, from': nat)
    requires Grew(k, k1, r, from) && Grew(k1, k2, r, from') && from <= from'
    ensures Grew(k, k2, r, from)
  {}

  lemma OnlyTwice(k: K, k1: K, k2: K, r: nat)
    requires Only(k, k1, r) && Only(k1, k2, r)
    ensures Only(k, k2, r)
  {}

  lemma TabledSelf(k: K, r: nat)
    requires r in k.spaces
    ensures Tabled(k, k, r)
  {}

  lemma TabledTwice(k: K, k1: K, k2: K, r: nat)
    requires Tabled(k, k1, r) && Tabled(k1, k2, r)
    ensures Tabled(k, k2, r)
  {
    GrewTwice(k, k1, k2, r, VPAGES, VPAGES);
    OnlyTwice(k, k1, k2, r);
  }

  // ----- walk() -----

  /** The table of v at a level: 2 is the root's. */
  predicate HasTable(sp: Space, level: nat, v: nat) {
    if level == 2 then true else if level == 1 then v / ENTRIES / ENTRIES in sp.mid else v / ENTRIES in sp.low
  }

  function TableAt(r: nat, sp: Space, level: nat, v: nat): nat
    requires HasTable(sp, level, v)
  {
    if level == 2 then r else if level == 1 then sp.mid[v / ENTRIES / ENTRIES] else sp.low[v / ENTRIES]
  }

  lemma TableIsOwned(lo: nat, k: K, r: nat, level: nat, v: nat)
    requires Inv(lo, k, 0) && r in k.spaces && level <= 2 && HasTable(k.spaces[r], level, v)
    ensures var pt := TableAt(r, k.spaces[r], level, v);
            pt in k.own && !k.own[pt].Held? && !k.own[pt].Data? && k.own[pt].r == r && IsTable(k.mem, pt)
  {
    assert Rep(k.mem, r, k.spaces[r]) && SpaceOwns(k.own, r, k.spaces[r]);
    if level == 1 { assert MidRep(k.mem, v / ENTRIES / ENTRIES, k.spaces[r]); }
    if level == 0 { assert LowRep(k.mem, v / ENTRIES, k.spaces[r]); }
  }

  /** The entry that walk() follows from a level. */
  lemma Follows(lo: nat, k: K, r: nat, level: nat, va: nat)
    requires Inv(lo, k, 0) && r in k.spaces && va < MAXVA && 0 < level <= 2 && HasTable(k.spaces[r], level, va / PGSIZE)
    ensures var sp, v := k.spaces[r], va / PGSIZE;
            var pt := TableAt(r, sp, level, v);
            && IsTable(k.mem, pt)
            && var pte := k.mem[pt].ptes[Px(level, va)];
               && (PteValid(pte) <==> HasTable(sp, level - 1, v))
               && (PteValid(pte) ==> PteAddr(pte) == TableAt(r, sp, level - 1, v))
  {
    if level == 2 { FollowsRoot(lo, k, r, va); } else { FollowsMid(lo, k, r, va); }
  }

  lemma FollowsRoot(lo: nat, k: K, r: nat, va: nat)
    requires Inv(lo, k, 0) && r in k.spaces && va < MAXVA
    ensures var sp, v := k.spaces[r], va / PGSIZE;
            && IsTable(k.mem, r)
            && var pte := k.mem[r].ptes[Px(2, va)];
               && (PteValid(pte) <==> HasTable(sp, 1, v))
               && (PteValid(pte) ==> PteAddr(pte) == TableAt(r, sp, 1, v))
  {
    var sp, v := k.spaces[r], va / PGSIZE;
    PxSplits(va);
    TableIsOwned(lo, k, r, 2, v);
    if HasTable(sp, 1, v) {
      TableIsOwned(lo, k, r, 1, v);
      PteRoundTrip(TableAt(r, sp, 1, v), PTE_V);
    }
    assert Rep(k.mem, r, sp);
  }

  lemma FollowsMid(lo: nat, k: K, r: nat, va: nat)
    requires Inv(lo, k, 0) && r in k.spaces && va < MAXVA && HasTable(k.spaces[r], 1, va / PGSIZE)
    ensures var sp, v := k.spaces[r], va / PGSIZE;
            var pt := TableAt(r, sp, 1, v);
            && IsTable(k.mem, pt)
            && var pte := k.mem[pt].ptes[Px(1, va)];
               && (PteValid(pte) <==> HasTable(sp, 0, v))
               && (PteValid(pte) ==> PteAddr(pte) == TableAt(r, sp, 0, v))
  {
    var sp, v := k.spaces[r], va / PGSIZE;
    PxSplits(va);
    TableIsOwned(lo, k, r, 1, v);
    if HasTable(sp, 0, v) {
      TableIsOwned(lo, k, r, 0, v);
      PteRoundTrip(TableAt(r, sp, 0, v), PTE_V);
    }
    assert Rep(k.mem, r, sp) && MidRep(k.mem, v / ENTRIES / ENTRIES, sp);
    assert Sub(v / ENTRIES / ENTRIES, Px(1, va)) == v / ENTRIES;
  }

  lemma LeafIsMore(flags: nat)
    requires LeafFlags(flags)
    ensures flags != PTE_V
  {}

  /** The entry for va in its lowest-level table. */
  lemma FindsLeaf(lo: nat, k: K, r: nat, va: nat)
    requires Inv(lo, k, 0) && r in k.spaces && va < MAXVA && va / PGSIZE / ENTRIES in k.spaces[r].low
    ensures var sp, v := k.spaces[r], va / PGSIZE;
            && IsTable(k.mem, sp.low[v / ENTRIES]) && Px(0, va) == v % ENTRIES && v < VPAGES
            && var pte := k.mem[sp.low[v / ENTRIES]].ptes[Px(0, va)];
               && (PteValid(pte) <==> v in sp.leaf)
               && (v in sp.leaf ==>
                    PteAddr(pte) == sp.leaf[v].pa && PteFlags(pte) == sp.leaf[v].flags && LeafFlags(PteFlags(pte))
                    && PteFlags(pte) != PTE_V)
  {
    PxSplits(va);
    var sp, v := k.spaces[r], va / PGSIZE;
    assert Rep(k.mem, r, sp) && LowRep(k.mem, v / ENTRIES, sp);
    assert Sub(v / ENTRIES, Px(0, va)) == v;
    if v in sp.leaf {
      assert LeafOk(sp, v);
      PteRoundTrip(sp.leaf[v].pa, sp.leaf[v].flags);
      LeafIsMore(sp.leaf[v].flags);
    }
  }

  /** A page is below a lowest-level table, and that below a middle one. */
  lemma TablesAbove(lo: nat, k: K, r: nat, v: nat)
    requires Inv(lo, k, 0) && r in k.spaces
    ensures v in k.spaces[r].leaf ==> v / ENTRIES in k.spaces[r].low
    ensures v / ENTRIES in k.spaces[r].low ==> v / ENTRIES / ENTRIES in k.spaces[r].mid
  {
    var sp := k.spaces[r];
    assert Rep(k.mem, r, sp);
    if v in sp.leaf { assert LeafOk(sp, v); }
    if v / ENTRIES in sp.low { assert LowRep(k.mem, v / ENTRIES, sp); }
  }

  /** An address space with a new table for v below a level, and that table's role. */
  function WithTable(sp: Space, level: nat, v: nat, p: nat): Space {
    if level == 2 then WithMid(sp, v / ENTRIES / ENTRIES, p) else WithLow(sp, v / ENTRIES, p)
  }

  function TableRole(r: nat, level: nat, v: nat): Role {
    if level == 2 then Mid(r, v / ENTRIES / ENTRIES) else Low(r, v / ENTRIES)
  }

  /** Held page p was zeroed and entered in table pt as the table of v below a level. */
  ghost function Installed(k: K, p: nat, pt: nat, j: nat, r: nat, level: nat, v: nat): K
    requires IsTable(k.mem, pt) && j < ENTRIES && r in k.spaces
  {
    k.(mem := k.mem[p := ZeroTable()][pt := SetEntry(k.mem[pt], j, MkPte(p, PTE_V))],
       own := k.own[p := TableRole(r, level, v)],
       spaces := k.spaces[r := WithTable(k.spaces[r], level, v, p)])
  }

  lemma AddTable(mem: map<nat, Page>, own: map<nat, Role>, spaces: map<nat, Space>, r: nat, level: nat, va: nat,
                 p: nat, pt: nat)
    requires Owned(mem, own, spaces) && r in spaces && va < MAXVA && 0 < level <= 2
    requires HasTable(spaces[r], level, va / PGSIZE) && !HasTable(spaces[r], level - 1, va / PGSIZE)
    requires p in own && own[p] == Held && mem[p] == ZeroTable() && pt == TableAt(r, spaces[r], level, va / PGSIZE)
             && IsTable(mem, pt)
    ensures Owned(mem[pt := SetEntry(mem[pt], Px(level, va), MkPte(p, PTE_V))],
                  own[p := TableRole(r, level, va / PGSIZE)], spaces[r := WithTable(spaces[r], level, va / PGSIZE, p)])
  {
    if level == 2 {
      AddTopTable(mem, own, spaces, r, va, p, pt);
    } else {
      AddLowTable(mem, own, spaces, r, va, p, pt);
    }
  }

  lemma AddTopTable(mem: map<nat, Page>, own: map<nat, Role>, spaces: map<nat, Space>, r: nat, va: nat, p: nat, pt: nat)
    requires Owned(mem, own, spaces) && r in spaces && va < MAXVA
    requires HasTable(spaces[r], 2, va / PGSIZE) && !HasTable(spaces[r], 1, va / PGSIZE)
    requires p in own && own[p] == Held && mem[p] == ZeroTable() && pt == TableAt(r, spaces[r], 2, va / PGSIZE)
             && IsTable(mem, pt)
    ensures Owned(mem[pt := SetEntry(mem[pt], Px(2, va), MkPte(p, PTE_V))],
                  own[p := TableRole(r, 2, va / PGSIZE)], spaces[r := WithTable(spaces[r], 2, va / PGSIZE, p)])
  {
    PxSplits(va);
    AddMid(mem, own, spaces, r, va / PGSIZE / ENTRIES / ENTRIES, p);
  }

  lemma AddLowTable(mem: map<nat, Page>, own: map<nat, Role>, spaces: map<nat, Space>, r: nat, va: nat, p: nat, pt: nat)
    requires Owned(mem, own, spaces) && r in spaces && va < MAXVA
    requires HasTable(spaces[r], 1, va / PGSIZE) && !HasTable(spaces[r], 0, va / PGSIZE)
    requires p in own && own[p] == Held && mem[p] == ZeroTable() && pt == TableAt(r, spaces[r], 1, va / PGSIZE)
             && IsTable(mem, pt)
    ensures Owned(mem[pt := SetEntry(mem[pt], Px(1, va), MkPte(p, PTE_V))],
                  own[p := TableRole(r, 1, va / PGSIZE)], spaces[r := WithTable(spaces[r], 1, va / PGSIZE, p)])
  {
    PxSplits(va);
    AddLow(mem, own, spaces, r, va / PGSIZE / ENTRIES, p);
  }

  /** A change of one page's role keeps the partition. */
  lemma PartitionRole(lo: nat, free: seq<nat>, own: map<nat, Role>, p: nat, role: Role)
    requires Partition(lo, free, own) && p in own
    ensures Partition(lo, free, own[p := role])
  {}

  lemma SettledRole(own: map<nat, Role>, spaces: map<nat, Space>, r: nat, sp: Space, p: nat, role: Role)
    requires Settled(own, spaces, 0) && (role.Held? || role.r == r)
    ensures Settled(own[p := role], spaces[r := sp], 0) && Settled(own, spaces[r := sp], 0)
  {}

  lemma InstallTable(lo: nat, k: K, r: nat, level: nat, va: nat, p: nat, pt: nat)
    requires Inv(lo, k, 0) && r in k.spaces && va < MAXVA && 0 < level <= 2
    requires HasTable(k.spaces[r], level, va / PGSIZE) && !HasTable(k.spaces[r], level - 1, va / PGSIZE)
    requires p in k.own && k.own[p] == Held && pt == TableAt(r, k.spaces[r], level, va / PGSIZE) && IsTable(k.mem, pt)
    ensures Inv(lo, Installed(k, p, pt, Px(level, va), r, level, va / PGSIZE), 0)
  {
    TableIsOwned(lo, k, r, level, va / PGSIZE);
    LinkedFrame(k.mem, k.freelist, k.free, p, ZeroTable());
    LinkedFrame(k.mem[p := ZeroTable()], k.freelist, k.free, pt, SetEntry(k.mem[pt], Px(level, va), MkPte(p, PTE_V)));
    WriteFrame(k.mem, k.own, k.spaces, p, ZeroTable());
    AddTable(k.mem[p := ZeroTable()], k.own, k.spaces, r, level, va, p, pt);
    PartitionRole(lo, k.free, k.own, p, TableRole(r, level, va / PGSIZE));
    SettledRole(k.own, k.spaces, r, WithTable(k.spaces[r], level, va / PGSIZE, p), p, TableRole(r, level, va / PGSIZE));
  }

  lemma InstalledTabled(k: K, r: nat, level: nat, v: nat, p: nat, pt: nat, j: nat)
    requires k.free != [] && p == k.free[0] && p in k.mem && k.mem[p].Run? && p !in k.own && r in k.spaces && pt != p
    requires pt in k.own && !k.own[pt].Held? && !k.own[pt].Data? && IsTable(k.mem, pt) && j < ENTRIES
    ensures Tabled(k, Installed(Allocated(k), p, pt, j, r, level, v), r)
  {}

  // ----- mapping pages -----

  function PageNo(va: nat): nat { va / PGSIZE }

  /** PGROUNDDOWN and PGROUNDUP. */
  function RoundDown(va: nat): (a: nat)
    ensures a % PGSIZE == 0 && PageNo(a) == PageNo(va) && a <= va < a + PGSIZE
  {
    va / PGSIZE * PGSIZE
  }

  function RoundUp(va: nat): (a: nat)
    ensures a % PGSIZE == 0 && va <= a < va + PGSIZE
  {
    (va + PGSIZE - 1) / PGSIZE * PGSIZE
  }

  function Nth(v: nat, n: nat): nat { v + n }
  function PageAddr(pa: nat, n: nat): nat { pa + n * PGSIZE }

  /** What va means to the user of an address space: the address of its page, or 0. */
  function Translate(sp: Space, va: nat): nat {
    var v := va / PGSIZE;
    if va < MAXVA && v in sp.leaf && HasUser(sp.leaf[v].flags) then sp.leaf[v].pa else 0
  }

  function WithValid(perm: nat): (flags: nat)
    ensures perm < 1024 && IsLeaf(perm) ==> LeafFlags(flags)
  {
    if perm % 2 == 1 then perm else perm + 1
  }

  /** The entry of page v in table pt was written. */
  ghost function EnteredLeaf(k: K, pt: nat, r: nat, v: nat, l: Leaf): K
    requires IsTable(k.mem, pt) && r in k.spaces
  {
    k.(mem := k.mem[pt := SetEntry(k.mem[pt], v % ENTRIES, MkPte(l.pa, l.flags))],
       own := OwnMapped(k.own, r, v, l.pa),
       spaces := k.spaces[r := WithLeaf(k.spaces[r], v, l)])
  }

  /** Page l.pa can become page v of an address space. */
  ghost predicate Ready(k: K, v: nat, pa: nat) {
    pa % PGSIZE == 0 && (v < USERTOP ==> pa in k.own && k.own[pa] == Held && HoldsBytes(k.mem, pa))
  }

  lemma EnterLeaf(lo: nat, k: K, pt: nat, r: nat, v: nat, l: Leaf)
    requires Inv(lo, k, 0) && r in k.spaces && v < VPAGES && v / ENTRIES in k.spaces[r].low && v !in k.spaces[r].leaf
    requires pt == k.spaces[r].low[v / ENTRIES] && IsTable(k.mem, pt) && LeafFits(v, l.flags) && Ready(k, v, l.pa)
    ensures Inv(lo, EnteredLeaf(k, pt, r, v, l), 0)
  {
    TableIsOwned(lo, k, r, 0, v);
    MapLeaf(k.mem, k.own, k.spaces, r, v, l);
    LinkedFrame(k.mem, k.freelist, k.free, pt, SetEntry(k.mem[pt], v % ENTRIES, MkPte(l.pa, l.flags)));
    SettledRole(k.own, k.spaces, r, WithLeaf(k.spaces[r], v, l), l.pa, Data(r, v));
    if v < USERTOP { PartitionRole(lo, k.free, k.own, l.pa, Data(r, v)); }
  }

  /** From k to k', page v of r was mapped to pa, and tables were added. */
  ghost predicate MappedOne(k: K, k': K, r: nat, v: nat, l: Leaf) {
    && Only(k, k', r) && k'.spaces[r].leaf == k.spaces[r].leaf[v := l]
    && Grew(k.(own := OwnMapped(k.own, r, v, l.pa)), k', r, VPAGES)
  }

  lemma EnteredMapped(k: K, k1: K, pt: nat, r: nat, v: nat, l: Leaf)
    requires Tabled(k, k1, r) && IsTable(k1.mem, pt) && pt in k1.own && k1.own[pt].Low? && Ready(k, v, l.pa)
    ensures MappedOne(k, EnteredLeaf(k1, pt, r, v, l), r, v, l)
  {
    OnlyTwice(k, k1, EnteredLeaf(k1, pt, r, v, l), r);
  }

  /** The map of an address space with n pages from v on mapped to successive pages from pa on. */
  function AddRange(leaf: map<nat, Leaf>, v: nat, n: nat, pa: nat, flags: nat): map<nat, Leaf> {
    if n == 0 then leaf else AddRange(leaf, v, n - 1, pa, flags)[Nth(v, n - 1) := Leaf(PageAddr(pa, n - 1), flags)]
  }

  /** It is the old map outside the range, and on the range what was asked for. */
  lemma {:induction false} AddRangeAt(leaf: map<nat, Leaf>, v: nat, n: nat, pa: nat, flags: nat, u: nat)
    ensures u in AddRange(leaf, v, n, pa, flags) <==> u in leaf || v <= u < v + n
    ensures u in AddRange(leaf, v, n, pa, flags) ==>
              AddRange(leaf, v, n, pa, flags)[u] == if v <= u < v + n then Leaf(PageAddr(pa, u - v), flags) else leaf[u]
  {
    if n > 0 { AddRangeAt(leaf, v, n - 1, pa, flags, u); }
  }

  function OwnRange(own: map<nat, Role>, r: nat, v: nat, n: nat, pa: nat): map<nat, Role> {
    if n == 0 then own else OwnMapped(OwnRange(own, r, v, n - 1, pa), r, Nth(v, n - 1), PageAddr(pa, n - 1))
  }

  /** Mapping the pages before pa + n * PGSIZE leaves the role of that page alone. */
  lemma {:induction false} OwnRangeBefore(own: map<nat, Role>, r: nat, v: nat, n: nat, pa: nat, m: nat)
    requires m <= n && PageAddr(pa, n) in own
    ensures var q := PageAddr(pa, n); q in OwnRange(own, r, v, m, pa) && OwnRange(own, r, v, m, pa)[q] == own[q]
  {
    if m > 0 { OwnRangeBefore(own, r, v, n, pa, m - 1); }
  }

  /** From k to k', the first n pages from v of r were mapped, and tables were added. */
  ghost predicate MappedRange(k: K, k': K, r: nat, v: nat, n: nat, pa: nat, flags: nat) {
    && Only(k, k', r) && k'.spaces[r].leaf == AddRange(k.spaces[r].leaf, v, n, pa, flags)
    && Grew(k.(own := OwnRange(k.own, r, v, n, pa)), k', r, VPAGES)
  }

  lemma MappedNext(k: K, k1: K, k2: K, r: nat, v: nat, n: nat, pa: nat, flags: nat)
    requires MappedRange(k, k1, r, v, n, pa, flags) && MappedOne(k1, k2, r, Nth(v, n), Leaf(PageAddr(pa, n), flags))
    requires Ready(k, Nth(v, n), PageAddr(pa, n))
    ensures MappedRange(k, k2, r, v, n + 1, pa, flags)
  {
    OnlyTwice(k, k1, k2, r);
    if Nth(v, n) < USERTOP { OwnRangeBefore(k.own, r, v, n, pa, n); }
    GrewMore(k.(own := OwnRange(k.own, r, v, n, pa)), k1, k2, r, Nth(v, n), PageAddr(pa, n));
  }

  lemma GrewMore(k: K, k1: K, k2: K, r: nat, v: nat, pa: nat)
    requires Grew(k, k1, r, VPAGES) && Grew(k1.(own := OwnMapped(k1.own, r, v, pa)), k2, r, VPAGES)
    requires v < USERTOP ==> pa in k.own && k.own[pa] == Held && pa in k.mem
    ensures Grew(k.(own := OwnMapped(k.own, r, v, pa)), k2, r, VPAGES)
  {}

  /** The next page of the range is as it was. */
  lemma StillReady(k: K, k1: K, r: nat, v: nat, n: nat, pa: nat, flags: nat)
    requires MappedRange(k, k1, r, v, n, pa, flags) && Ready(k, Nth(v, n), PageAddr(pa, n))
             && Nth(v, n) !in k.spaces[r].leaf
    ensures Ready(k1, Nth(v, n), PageAddr(pa, n)) && Nth(v, n) !in k1.spaces[r].leaf
  {
    AddRangeAt(k.spaces[r].leaf, v, n, pa, flags, Nth(v, n));
    if Nth(v, n) < USERTOP { OwnRangeBefore(k.own, r, v, n, pa, n); }
  }

  lemma MappedTabled(k: K, k1: K, k2: K, r: nat, v: nat, n: nat, pa: nat, flags: nat)
    requires MappedRange(k, k1, r, v, n, pa, flags) && Tabled(k1, k2, r)
    ensures MappedRange(k, k2, r, v, n, pa, flags)
  {
    OnlyTwice(k, k1, k2, r);
    GrewTwice(k.(own := OwnRange(k.own, r, v, n, pa)), k1, k2, r, VPAGES, VPAGES);
  }

  /** The number of pages that [va, va + size) touches. */
  function PageCount(va: nat, size: nat): (n: nat)
    requires size > 0
    ensures 0 < n && (va / PGSIZE + n - 1) * PGSIZE < va + size
  {
    (va + size - 1) / PGSIZE - va / PGSIZE + 1
  }

  /** The n'th page of the range, at address a. */
  lemma InRange(va: nat, size: nat, n: nat, a: nat, p: nat, pa: nat)
    requires 0 < size && va + size <= MAXVA && n < PageCount(va, size) && a % PGSIZE == 0
             && PageNo(a) == Nth(PageNo(va), n)
    requires p == PageAddr(pa, n)
    ensures a < MAXVA && PageNo(a + PGSIZE) == Nth(PageNo(va), n + 1) && (a + PGSIZE) % PGSIZE == 0
            && p + PGSIZE == PageAddr(pa, n + 1)
    ensures a == RoundDown(va + size - 1) <==> n + 1 == PageCount(va, size)
  {}

  /** Where mappages() is before its next page, n pages in, or when it is done. */
  ghost predicate Progress(va: nat, size: nat, pa: nat, n: nat, a: nat, p: nat, more: bool, ok: bool)
    requires 0 < size
  {
    if more
    then ok && n < PageCount(va, size) && a % PGSIZE == 0 && PageNo(a) == Nth(PageNo(va), n) && p == PageAddr(pa, n)
    else n <= PageCount(va, size) && (ok <==> n == PageCount(va, size))
  }

  lemma Starts(va: nat, size: nat, pa: nat)
    requires 0 < size
    ensures Progress(va, size, pa, 0, RoundDown(va), pa, true, true)
  {}

  lemma Progresses(va: nat, size: nat, pa: nat, n: nat, a: nat, p: nat, ok: bool, n': nat, a': nat, p': nat,
                   more': bool)
    requires 0 < size && va + size <= MAXVA && Progress(va, size, pa, n, a, p, true, true)
    requires n' == (if ok then n + 1 else n) && a' == a + PGSIZE && p' == p + PGSIZE
    requires more' == (ok && a != RoundDown(va + size - 1))
    ensures Progress(va, size, pa, n', a', p', more', ok)
  {
    InRange(va, size, n, a, p, pa);
  }

  ghost predicate CanMap(k: K, r: nat, v: nat, pa: nat, flags: nat)
    requires r in k.spaces
  {
    v !in k.spaces[r].leaf && Ready(k, v, pa) && LeafFits(v, flags)
  }

  // ----- unmapping pages -----

  /** Page v of r is no longer mapped; with doFree its page is free. */
  ghost function Unmapped(k: K, r: nat, v: nat, doFree: bool): K
    requires r in k.spaces && v in k.spaces[r].leaf && v / ENTRIES in k.spaces[r].low
             && IsTable(k.mem, k.spaces[r].low[v / ENTRIES])
  {
    var pt, pa := k.spaces[r].low[v / ENTRIES], k.spaces[r].leaf[v].pa;
    var k1 := if doFree then Freed(k, pa) else k.(own := OwnUnmapped(k.own, v, pa));
    k1.(mem := k1.mem[pt := SetEntry(k.mem[pt], v % ENTRIES, 0)], spaces := k.spaces[r := WithoutLeaf(k.spaces[r], v)])
  }

  lemma ClearLeaf(lo: nat, k: K, r: nat, v: nat)
    requires Inv(lo, k, 0) && r in k.spaces && v in k.spaces[r].leaf
    requires v / ENTRIES in k.spaces[r].low && IsTable(k.mem, k.spaces[r].low[v / ENTRIES])
    ensures Inv(lo, Unmapped(k, r, v, false), 0)
  {
    var pt, pa := k.spaces[r].low[v / ENTRIES], k.spaces[r].leaf[v].pa;
    TableIsOwned(lo, k, r, 0, v);
    assert SpaceOwns(k.own, r, k.spaces[r]);
    UnmapLeaf(k.mem, k.own, k.spaces, r, v);
    LinkedFrame(k.mem, k.freelist, k.free, pt, SetEntry(k.mem[pt], v % ENTRIES, 0));
    SettledRole(k.own, k.spaces, r, WithoutLeaf(k.spaces[r], v), pa, Held);
    if v < USERTOP { PartitionRole(lo, k.free, k.own, pa, Held); }
  }

  lemma SwapWrites(mem: map<nat, Page>, p: nat, x: Page, q: nat, y: Page)
    requires p != q
    ensures mem[p := x][q := y] == mem[q := y][p := x]
  {}

  lemma HeldGone(own: map<nat, Role>, pa: nat)
    ensures own[pa := Held] - {pa} == own - {pa}
  {}

  lemma FreeLeaf(lo: nat, k: K, r: nat, v: nat)
    requires Inv(lo, k, 0) && r in k.spaces && v in k.spaces[r].leaf && v < USERTOP
    requires v / ENTRIES in k.spaces[r].low && IsTable(k.mem, k.spaces[r].low[v / ENTRIES])
    ensures k.spaces[r].leaf[v].pa in k.own && Inv(lo, Unmapped(k, r, v, true), 0)
  {
    var pt, pa := k.spaces[r].low[v / ENTRIES], k.spaces[r].leaf[v].pa;
    ClearLeaf(lo, k, r, v);
    TableIsOwned(lo, k, r, 0, v);
    assert SpaceOwns(k.own, r, k.spaces[r]);
    var k1 := Unmapped(k, r, v, false);
    FreedInv(lo, k1, pa, 0);
    SwapWrites(k.mem, pt, SetEntry(k.mem[pt], v % ENTRIES, 0), pa, Run(k.freelist));
    HeldGone(k.own, pa);
    assert Freed(k1, pa) == Unmapped(k, r, v, true);
  }

  /** A map without n pages from v on. */
  ghost function Cut(leaf: map<nat, Leaf>, v: nat, n: nat): map<nat, Leaf> {
    map u | u in leaf && !(v <= u < v + n) :: leaf[u]
  }

  /** The roles without those of n data pages of r from v on. */
  ghost function OwnCut(own: map<nat, Role>, r: nat, v: nat, n: nat): map<nat, Role> {
    map p | p in own && !(own[p].Data? && own[p].r == r && v <= own[p].v < v + n) :: own[p]
  }

  /** Without being freed, they are left to the kernel. */
  ghost function OwnKept(own: map<nat, Role>, r: nat, v: nat, n: nat): map<nat, Role> {
    map p | p in own :: if own[p].Data? && own[p].r == r && v <= own[p].v < v + n then Held else own[p]
  }

  /**
   From k to k', n pages from v of r were unmapped; with doFree, their pages are free, and else
   they are the kernel's. Other contents stay.
   */
  ghost predicate UnmappedRange(k: K, k': K, r: nat, v: nat, n: nat, doFree: bool) {
    && Only(k, k', r) && k'.spaces[r] == k.spaces[r].(leaf := Cut(k.spaces[r].leaf, v, n))
    && k'.own == (if doFree then OwnCut(k.own, r, v, n) else OwnKept(k.own, r, v, n))
    && (forall p :: p in k'.own && p in k.mem && (k'.own[p].Held? || k'.own[p].Data?) ==>
         p in k'.mem && k'.mem[p] == k.mem[p])
  }

  lemma UnmapNothing(k: K, r: nat, v: nat, doFree: bool)
    requires r in k.spaces
    ensures UnmappedRange(k, k, r, v, 0, doFree)
  {
    assert Cut(k.spaces[r].leaf, v, 0) == k.spaces[r].leaf;
    assert OwnCut(k.own, r, v, 0) == k.own == OwnKept(k.own, r, v, 0);
  }

  /** Only one page has the role of data page v. */
  lemma OwnCutOne(own: map<nat, Role>, own1: map<nat, Role>, spaces1: map<nat, Space>, r: nat, v: nat, n: nat)
    requires own1 == OwnCut(own, r, v, n) && Roles(own1, spaces1) && r in spaces1 && Nth(v, n) in spaces1[r].leaf
    requires var pa := spaces1[r].leaf[Nth(v, n)].pa; pa in own1 && own1[pa] == Data(r, Nth(v, n))
    ensures own1 - {spaces1[r].leaf[Nth(v, n)].pa} == OwnCut(own, r, v, n + 1)
  {
    var pa := spaces1[r].leaf[Nth(v, n)].pa;
    forall p | p in own1 && own1[p] == Data(r, Nth(v, n))
      ensures p == pa
    {
      assert RoleIn(spaces1[r], p, own1[p]);
    }
  }

  lemma OwnKeptOne(own: map<nat, Role>, own1: map<nat, Role>, spaces1: map<nat, Space>, r: nat, v: nat, n: nat)
    requires own1 == OwnKept(own, r, v, n) && Roles(own1, spaces1) && r in spaces1 && Nth(v, n) in spaces1[r].leaf
    requires var pa := spaces1[r].leaf[Nth(v, n)].pa;
             Nth(v, n) < USERTOP ==> pa in own1 && own1[pa] == Data(r, Nth(v, n))
    ensures OwnUnmapped(own1, Nth(v, n), spaces1[r].leaf[Nth(v, n)].pa) == OwnKept(own, r, v, n + 1)
  {
    var pa := spaces1[r].leaf[Nth(v, n)].pa;
    forall p | p in own1 && own1[p] == Data(r, Nth(v, n))
      ensures p == pa && Nth(v, n) < USERTOP
    {
      assert RoleIn(spaces1[r], p, own1[p]);
    }
  }

  /** There is no data above user memory, so nothing is left behind there. */
  lemma KeptAbove(lo: nat, k: K, r: nat, v: nat, n: nat)
    requires Inv(lo, k, 0) && r in k.spaces && v >= USERTOP
    ensures OwnKept(k.own, r, v, n) == k.own
  {
    forall p | p in k.own && k.own[p].Data? && k.own[p].r == r
      ensures k.own[p].v < USERTOP
    {
      assert RoleIn(k.spaces[r], p, k.own[p]);
    }
  }

  lemma UnmapNext(lo: nat, k: K, k1: K, r: nat, v: nat, n: nat, doFree: bool)
    requires UnmappedRange(k, k1, r, v, n, doFree) && Inv(lo, k1, 0) && Nth(v, n) in k1.spaces[r].leaf
    requires Nth(v, n) / ENTRIES in k1.spaces[r].low && IsTable(k1.mem, k1.spaces[r].low[Nth(v, n) / ENTRIES])
    requires doFree ==> Nth(v, n) < USERTOP
    ensures UnmappedRange(k, Unmapped(k1, r, Nth(v, n), doFree), r, v, n + 1, doFree)
  {
    CutOne(k.spaces[r].leaf, v, n);
    OnlyTwice(k, k1, Unmapped(k1, r, Nth(v, n), doFree), r);
    UnmapContents(lo, k, k1, r, v, n, doFree);
    assert SpaceOwns(k1.own, r, k1.spaces[r]);
    if doFree {
      OwnCutOne(k.own, k1.own, k1.spaces, r, v, n);
    } else {
      OwnKeptOne(k.own, k1.own, k1.spaces, r, v, n);
    }
  }

  lemma UnmapContents(lo: nat, k: K, k1: K, r: nat, v: nat, n: nat, doFree: bool)
    requires UnmappedRange(k, k1, r, v, n, doFree) && Inv(lo, k1, 0) && Nth(v, n) in k1.spaces[r].leaf
    requires Nth(v, n) / ENTRIES in k1.spaces[r].low && IsTable(k1.mem, k1.spaces[r].low[Nth(v, n) / ENTRIES])
    ensures var k2 := Unmapped(k1, r, Nth(v, n), doFree);
            forall p :: p in k2.own && p in k.mem && (k2.own[p].Held? || k2.own[p].Data?) ==>
              p in k2.mem && k2.mem[p] == k.mem[p]
  {
    UnmappedFrame(lo, k1, r, Nth(v, n), doFree);
  }

  /** Pages of data, and of the kernel, were that before, and have the same contents. */
  lemma UnmappedFrame(lo: nat, k: K, r: nat, v: nat, doFree: bool)
    requires Inv(lo, k, 0) && r in k.spaces && v in k.spaces[r].leaf
    requires v / ENTRIES in k.spaces[r].low && IsTable(k.mem, k.spaces[r].low[v / ENTRIES])
    ensures var k' := Unmapped(k, r, v, doFree);
            forall p :: p in k'.own && (k'.own[p].Held? || k'.own[p].Data?) ==>
              p in k.own && (k.own[p].Held? || k.own[p].Data?) && (p in k.mem ==> p in k'.mem && k'.mem[p] == k.mem[p])
  {
    var pt, pa := k.spaces[r].low[v / ENTRIES], k.spaces[r].leaf[v].pa;
    assert SpaceOwns(k.own, r, k.spaces[r]);
    TableIsOwned(lo, k, r, 0, v);
    assert v < USERTOP ==> pa in k.own && k.own[pa] == Data(r, v);
    assert pt in k.own && !k.own[pt].Held? && !k.own[pt].Data?;
  }

  lemma CutOne(leaf: map<nat, Leaf>, v: nat, n: nat)
    ensures Cut(leaf, v, n) - {Nth(v, n)} == Cut(leaf, v, n + 1)
  {}

  /** The n'th page from va on, where va starts a page. */
  lemma NextPage(va: nat, n: nat, npages: nat)
    requires va % PGSIZE == 0
    ensures PageNo(PageAddr(va, n)) == Nth(PageNo(va), n) && PageAddr(va, n) + PGSIZE == PageAddr(va, n + 1)
    ensures PageAddr(va, n) < va + npages * PGSIZE <==> n < npages
    ensures PageNo(va) + n < VPAGES ==> PageAddr(va, n) < MAXVA
  {}

  // ----- whole address spaces -----

  ghost function Created(k: K): K
    requires k.free != [] && k.free[0] in k.mem && k.mem[k.free[0]].Run?
  {
    var r, k1 := k.free[0], Allocated(k);
    k1.(mem := k1.mem[r := ZeroTable()], own := k1.own[r := Root(r)],
          spaces := k1.spaces[r := Space(map[], map[], map[])])
  }

  lemma FreeIsNoRoot(k: K, p: nat)
    requires Owns(k.own, k.spaces) && p !in k.own
    ensures p !in k.spaces
  {}

  lemma CreatedInv(lo: nat, k: K)
    requires Inv(lo, k, 0) && k.free != []
    ensures k.free[0] !in k.spaces && k.free[0] in k.mem && k.mem[k.free[0]].Run? && Inv(lo, Created(k), 0)
  {
    Popped(lo, k);
    AllocatedInv(lo, k, 0);
    var r, k1 := k.free[0], Allocated(k);
    FreeIsNoRoot(k, r);
    WriteFrame(k1.mem, k1.own, k1.spaces, r, ZeroTable());
    LinkedFrame(k1.mem, k1.freelist, k1.free, r, ZeroTable());
    NewSpace(k1.mem[r := ZeroTable()], k1.own, k1.spaces, r);
    PartitionRole(lo, k1.free, k1.own, r, Root(r));
    SettledRole(k1.own, k1.spaces, r, Space(map[], map[], map[]), r, Root(r));
  }

  /** The number of pages of a user memory of sz bytes. */
  function Pages(sz: nat): nat { PageNo(RoundUp(sz)) }

  /** The user pages mapped are those below sz. */
  ghost predicate Sized(sp: Space, sz: nat) {
    Pages(sz) <= USERTOP && forall v :: 0 <= v < USERTOP ==> (v in sp.leaf <==> v < Pages(sz))
  }

  /** The roles of all address spaces but r. */
  ghost function OwnWithout(own: map<nat, Role>, r: nat): map<nat, Role> {
    map p | p in own && (own[p].Held? || own[p].r != r) :: own[p]
  }

  /** From k to k', address space r and its pages are gone; nothing else changed but tables and free pages. */
  ghost predicate Gone(k: K, k': K, r: nat) {
    && k'.spaces == k.spaces - {r} && k'.own == OwnWithout(k.own, r)
    && (forall p :: p in k'.own && p in k.mem && (k'.own[p].Held? || k'.own[p].Data?) ==>
         p in k'.mem && k'.mem[p] == k.mem[p])
  }

  /** With all user pages unmapped, nothing is mapped. */
  lemma CutAll(k: K, k': K, r: nat, sz: nat)
    requires r in k.spaces && Sized(k.spaces[r], sz) && (forall v :: v in k.spaces[r].leaf ==> v < USERTOP)
    requires k' == k || UnmappedRange(k, k', r, 0, Pages(sz), true)
    requires sz == 0 || UnmappedRange(k, k', r, 0, Pages(sz), true)
    ensures r in k'.spaces && k'.spaces[r].leaf == map[]
  {}

  lemma CutGone(k: K, k1: K, k2: K, r: nat, sz: nat)
    requires r in k.spaces && (k1 == k || UnmappedRange(k, k1, r, 0, Pages(sz), true)) && Gone(k1, k2, r)
    ensures Gone(k, k2, r)
  {}

  // ----- a new page for an address space -----

  /** A page was allocated and filled. */
  ghost function Filled(k: K, page: Page): K
    requires k.free != [] && k.free[0] in k.mem && k.mem[k.free[0]].Run?
  {
    var k1 := Allocated(k);
    k1.(mem := k1.mem[k.free[0] := page])
  }

  lemma FilledInv(lo: nat, k: K, page: Page)
    requires Inv(lo, k, 0) && k.free != [] && page.Bytes? && |page.data| == PGSIZE
    ensures var p := k.free[0];
            && p in k.mem && k.mem[p].Run? && p !in k.own && Managed(lo, p) && Inv(lo, Filled(k, page), 0)
               && p in Filled(k, page).own
            && Filled(k, page).own[p] == Held && HoldsBytes(Filled(k, page).mem, p)
  {
    Popped(lo, k);
    AllocatedInv(lo, k, 0);
    var k1 := Allocated(k);
    WriteFrame(k1.mem, k1.own, k1.spaces, k.free[0], page);
    LinkedFrame(k1.mem, k1.freelist, k1.free, k.free[0], page);
  }

  /** From k to k', r got one more page, v, with these contents and flags. */
  ghost predicate PutOne(k: K, k': K, r: nat, v: nat, page: Page, flags: nat) {
    && Only(k, k', r) && v in k'.spaces[r].leaf && k'.spaces[r].leaf == k.spaces[r].leaf[v := k'.spaces[r].leaf[v]]
    && k'.spaces[r].leaf[v].flags == flags && k'.spaces[r].leaf[v].pa in k'.mem
       && k'.mem[k'.spaces[r].leaf[v].pa] == page
    && Grew(k, k', r, v)
  }

  /** mappages() for one page. */
  lemma OnePageRange(k: K, r: nat, a: nat, pa: nat, flags: nat)
    requires a % PGSIZE == 0 && a < MAXVA && r in k.spaces && CanMap(k, r, PageNo(a), pa, flags)
    ensures PageCount(a, PGSIZE) == 1 && a + PGSIZE <= MAXVA
    ensures forall j :: 0 <= j < PageCount(a, PGSIZE) ==> CanMap(k, r, Nth(PageNo(a), j), PageAddr(pa, j), flags)
  {}

  lemma OnePageMapped(k: K, k': K, r: nat, v: nat, n: nat, pa: nat, flags: nat)
    requires MappedRange(k, k', r, v, n, pa, flags) && n <= 1
    ensures n == 1 ==> MappedOne(k, k', r, v, Leaf(pa, flags))
    ensures n == 0 ==> Tabled(k, k', r)
  {
    assert Nth(v, 0) == v && PageAddr(pa, 0) == pa;
    if n == 1 {
      assert AddRange(k.spaces[r].leaf, v, 1, pa, flags) == k.spaces[r].leaf[v := Leaf(pa, flags)];
      assert OwnRange(k.own, r, v, 1, pa) == OwnMapped(k.own, r, v, pa);
    } else {
      assert k.(own := OwnRange(k.own, r, v, 0, pa)) == k;
    }
  }

  lemma PutPageOk(lo: nat, k: K, k': K, r: nat, v: nat, page: Page, flags: nat)
    requires Inv(lo, k, 0) && k.free != [] && page.Bytes? && |page.data| == PGSIZE && v < USERTOP
    requires k.free[0] in k.mem && k.mem[k.free[0]].Run? && MappedOne(Filled(k, page), k', r, v, Leaf(k.free[0], flags))
    ensures PutOne(k, k', r, v, page, flags)
  {
    var p := k.free[0];
    FilledInv(lo, k, page);
    PutGrew(k, Filled(k, page).(own := OwnMapped(Filled(k, page).own, r, v, p)), k', r, v, p);
  }

  lemma PutGrew(k: K, k1: K, k': K, r: nat, v: nat, p: nat)
    requires p !in k.own && k1.own == k.own[p := Held][p := Data(r, v)] && Grew(k1, k', r, VPAGES) && v < VPAGES
    requires forall q :: q in k.own && q in k.mem ==> q in k1.mem && k1.mem[q] == k.mem[q]
    ensures Grew(k, k', r, v)
  {}

  /** If no table could be had, the page goes back. */
  lemma PutPageFailed(lo: nat, k: K, k': K, r: nat, page: Page)
    requires Inv(lo, k, 0) && Inv(lo, k', 0) && k.free != [] && page.Bytes? && |page.data| == PGSIZE
    requires k.free[0] in k.mem && k.mem[k.free[0]].Run? && Tabled(Filled(k, page), k', r)
    ensures k.free[0] in k'.own && Inv(lo, Freed(k', k.free[0]), 0) && Tabled(k, Freed(k', k.free[0]), r)
  {
    FilledInv(lo, k, page);
    BackGrew(k, Filled(k, page), k', r, k.free[0]);
    FreedInv(lo, k', k.free[0], 0);
  }

  lemma BackGrew(k: K, k1: K, k': K, r: nat, p: nat)
    requires p !in k.own && k1.own == k.own[p := Held] && Grew(k1, k', r, VPAGES)
    requires forall q :: q in k.own && q in k.mem ==> q in k1.mem && k1.mem[q] == k.mem[q]
    ensures Grew(k, Freed(k', p), r, VPAGES)
  {}

  // ----- growing and shrinking -----

  /** PTE_R | PTE_U | xperm, where xperm is made of PTE_W and PTE_X. */
  function UserPerm(xperm: nat): (perm: nat)
    requires xperm in {0, PTE_W, PTE_X, PTE_W + PTE_X}
    ensures perm < 1024 && IsLeaf(perm) && HasUser(WithValid(perm))
  {
    PTE_R + PTE_U + xperm
  }

  const PHYSPAGES := (PHYSTOP - KERNBASE) / PGSIZE

  lemma FrameNumbers(p: nat, q: nat)
    requires KERNBASE <= p < PHYSTOP && KERNBASE <= q < PHYSTOP && p % PGSIZE == 0 && q % PGSIZE == 0 && p != q
    ensures (p - KERNBASE) / PGSIZE != (q - KERNBASE) / PGSIZE
  {}

  /** Different managed pages are at most as many as there is memory. */
  lemma FewManaged(lo: nat, s: seq<nat>)
    requires KERNBASE <= lo && Distinct(s) && forall i :: 0 <= i < |s| ==> Managed(lo, s[i])
    ensures |s| <= PHYSPAGES
  {
    var t: seq<nat> := seq(|s|, i requires 0 <= i < |s| && Managed(lo, s[i]) => (s[i] - KERNBASE) / PGSIZE);
    forall i, j | 0 <= i < j < |t|
      ensures t[i] != t[j]
    {
      FrameNumbers(s[i], s[j]);
    }
    DistinctBound(t, PHYSPAGES);
  }

  /** A user memory cannot have more pages than there is memory, so it stays clear of the trapframe. */
  lemma FewPages(lo: nat, k: K, r: nat, v: nat)
    requires Inv(lo, k, 0) && r in k.spaces && v <= USERTOP && forall u :: 0 <= u < v ==> u in k.spaces[r].leaf
    ensures v <= PHYSPAGES
  {
    var sp := k.spaces[r];
    assert SpaceOwns(k.own, r, sp);
    PagesApart(lo, k.own, r, sp, v);
    FewLeaves(lo, sp, v);
  }

  lemma FewLeaves(lo: nat, sp: Space, v: nat)
    requires KERNBASE <= lo && forall u :: 0 <= u < v ==> u in sp.leaf && Managed(lo, sp.leaf[u].pa)
    requires forall u, w :: 0 <= u < w < v ==> sp.leaf[u].pa != sp.leaf[w].pa
    ensures v <= PHYSPAGES
  {
    FewManaged(lo, seq(v, u requires 0 <= u < v && u in sp.leaf => sp.leaf[u].pa));
  }

  lemma PagesApart(lo: nat, own: map<nat, Role>, r: nat, sp: Space, v: nat)
    requires SpaceOwns(own, r, sp) && (forall p :: p in own ==> Managed(lo, p)) && v <= USERTOP
             && forall u :: 0 <= u < v ==> u in sp.leaf
    ensures forall u :: 0 <= u < v ==> Managed(lo, sp.leaf[u].pa)
    ensures forall u, w :: 0 <= u < w < v ==> sp.leaf[u].pa != sp.leaf[w].pa
  {}

  /** Page u of r is a zeroed page with these flags. */
  ghost predicate Zeroed(k: K, r: nat, u: nat, flags: nat)
    requires r in k.spaces
  {
    var leaf := k.spaces[r].leaf;
    u in leaf && leaf[u].flags == flags && leaf[u].pa in k.mem && k.mem[leaf[u].pa] == Junk(0)
  }

  /** From k to k', r got the user pages n to m. */
  ghost predicate Extended(k: K, k': K, r: nat, n: nat, m: nat) {
    && Only(k, k', r) && Grew(k, k', r, n)
    && var leaf, leaf' := k.spaces[r].leaf, k'.spaces[r].leaf;
    && (forall u :: u in leaf' <==> u in leaf || n <= u < m)
    && (forall u :: u in leaf ==> leaf'[u] == leaf[u])
  }

  /** From k to k', r got the user pages n to m, zeroed. */
  ghost predicate Grown(k: K, k': K, r: nat, n: nat, m: nat, flags: nat) {
    Extended(k, k', r, n, m) && (forall u :: n <= u < m ==> Zeroed(k', r, u, flags))
  }

  lemma ExtendedOne(k: K, k1: K, k2: K, r: nat, n: nat, m: nat, page: Page, flags: nat)
    requires Extended(k, k1, r, n, m) && PutOne(k1, k2, r, m, page, flags) && n <= m && m !in k1.spaces[r].leaf
    ensures Extended(k, k2, r, n, Nth(m, 1))
  {
    OnlyTwice(k, k1, k2, r);
    GrewTwice(k, k1, k2, r, n, m);
  }

  lemma ExtendedTabled(k: K, k1: K, k2: K, r: nat, n: nat, m: nat)
    requires Extended(k, k1, r, n, m) && Tabled(k1, k2, r) && n <= VPAGES
    ensures Extended(k, k2, r, n, m)
  {
    OnlyTwice(k, k1, k2, r);
    GrewTwice(k, k1, k2, r, n, VPAGES);
  }

  lemma GrownNothing(k: K, r: nat, n: nat, flags: nat)
    requires r in k.spaces
    ensures Grown(k, k, r, n, n, flags)
  {}

  lemma GrownOne(k: K, k1: K, k2: K, r: nat, n: nat, m: nat, flags: nat)
    requires r in k1.spaces && SpaceOwns(k1.own, r, k1.spaces[r]) && Grown(k, k1, r, n, m, flags)
             && PutOne(k1, k2, r, m, Junk(0), flags) && n <= m < USERTOP && m !in k1.spaces[r].leaf
    ensures Grown(k, k2, r, n, Nth(m, 1), flags)
  {
    ExtendedOne(k, k1, k2, r, n, m, Junk(0), flags);
    forall u | n <= u < m + 1
      ensures Zeroed(k2, r, u, flags)
    {
      if u < m { ZeroedStays(k1, k2, r, u, flags, m); }
    }
  }

  lemma ZeroedStays(k1: K, k2: K, r: nat, u: nat, flags: nat, m: nat)
    requires r in k1.spaces && r in k2.spaces && SpaceOwns(k1.own, r, k1.spaces[r]) && Zeroed(k1, r, u, flags)
             && u < USERTOP
    requires Grew(k1, k2, r, m) && u in k2.spaces[r].leaf && k2.spaces[r].leaf[u] == k1.spaces[r].leaf[u]
    ensures Zeroed(k2, r, u, flags)
  {}

  lemma GrownTabled(k: K, k1: K, k2: K, r: nat, n: nat, m: nat, flags: nat)
    requires r in k1.spaces && SpaceOwns(k1.own, r, k1.spaces[r]) && Grown(k, k1, r, n, m, flags) && Tabled(k1, k2, r)
             && n <= m <= USERTOP
    ensures Grown(k, k2, r, n, m, flags)
  {
    ExtendedTabled(k, k1, k2, r, n, m);
    forall u | n <= u < m
      ensures Zeroed(k2, r, u, flags)
    {
      ZeroedStays(k1, k2, r, u, flags, VPAGES);
    }
  }

  /** Taking the new pages away again leaves nothing but new tables. */
  lemma ShrunkBack(lo: nat, k: K, k1: K, k2: K, r: nat, n: nat, c: nat)
    requires Inv(lo, k, 0) && Inv(lo, k1, 0) && Extended(k, k1, r, n, Nth(n, c)) && UnmappedRange(k1, k2, r, n, c, true)
    requires Nth(n, c) <= USERTOP && forall u :: u in k.spaces[r].leaf ==> u < n || u >= USERTOP
    ensures Tabled(k, k2, r)
  {
    OnlyTwice(k, k1, k2, r);
    CutBack(k.spaces[r].leaf, k1.spaces[r].leaf, n, c);
    ShrunkGrew(k, k1, k2, r, n, c);
  }

  lemma CutBack(leaf: map<nat, Leaf>, leaf1: map<nat, Leaf>, n: nat, c: nat)
    requires forall u :: u in leaf1 <==> u in leaf || n <= u < Nth(n, c)
    requires forall u :: u in leaf ==> leaf1[u] == leaf[u] && !(n <= u < Nth(n, c))
    ensures Cut(leaf1, n, c) == leaf
  {}

  lemma ShrunkGrew(k: K, k1: K, k2: K, r: nat, n: nat, c: nat)
    requires Roles(k.own, k.spaces) && Roles(k1.own, k1.spaces) && r in k.spaces && r in k1.spaces
    requires Grew(k, k1, r, n) && UnmappedRange(k1, k2, r, n, c, true) && forall p :: p in k.own ==>
               p in k.mem && p in k1.mem
    requires forall u :: u in k.spaces[r].leaf ==> u < n || u >= USERTOP
    requires forall u :: u in k1.spaces[r].leaf ==> u in k.spaces[r].leaf || n <= u < Nth(n, c)
    ensures Grew(k, k2, r, VPAGES)
  {}

  lemma PagesOrder(newsz: nat, oldsz: nat)
    requires newsz < oldsz
    ensures RoundUp(newsz) >= RoundUp(oldsz) ==> Pages(oldsz) == Nth(Pages(newsz), 0) && Pages(newsz) == Pages(oldsz)
    ensures RoundUp(newsz) < RoundUp(oldsz) ==>
              Pages(oldsz) == Nth(Pages(newsz), (RoundUp(oldsz) - RoundUp(newsz)) / PGSIZE)
    ensures PageNo(RoundUp(newsz)) == Pages(newsz)
  {}

  lemma SizedCut(sp: Space, sp': Space, newsz: nat, oldsz: nat, n: nat)
    requires Sized(sp, oldsz) && Pages(oldsz) == Nth(Pages(newsz), n)
             && sp' == sp.(leaf := Cut(sp.leaf, Pages(newsz), n))
    ensures Sized(sp', newsz)
  {}

  /** The page after those of a grown user memory is not mapped, and is the user's. */
  lemma NextIsFree(lo: nat, k: K, k1: K, r: nat, oldsz: nat, c: nat)
    requires Inv(lo, k1, 0) && r in k.spaces && Sized(k.spaces[r], oldsz) && Extended(k, k1, r, Pages(oldsz), c)
    requires Pages(oldsz) <= c <= USERTOP
    ensures c < USERTOP && c !in k1.spaces[r].leaf
  {
    ExtendedCovers(k, k1, r, oldsz, c);
    FewPages(lo, k1, r, c);
  }

  lemma ExtendedCovers(k: K, k1: K, r: nat, oldsz: nat, c: nat)
    requires r in k.spaces && Sized(k.spaces[r], oldsz) && Extended(k, k1, r, Pages(oldsz), c)
             && Pages(oldsz) <= c <= USERTOP
    ensures forall u :: 0 <= u < c ==> u in k1.spaces[r].leaf
    ensures c < USERTOP ==> c !in k1.spaces[r].leaf
  {}

  lemma SizedExtended(k: K, k1: K, r: nat, oldsz: nat, a: nat)
    requires r in k.spaces && Sized(k.spaces[r], oldsz) && Extended(k, k1, r, Pages(oldsz), PageNo(a))
    requires Pages(a) == PageNo(a) && Pages(oldsz) <= PageNo(a) <= USERTOP
    ensures Sized(k1.spaces[r], a)
  {}

  lemma SizedSame(sp: Space, a: nat, newsz: nat)
    requires Sized(sp, a) && Pages(a) == Pages(newsz)
    ensures Sized(sp, newsz)
  {}

  lemma OnlyBelow(sp: Space, oldsz: nat)
    requires Sized(sp, oldsz)
    ensures forall u :: u in sp.leaf ==> u < Pages(oldsz) || u >= USERTOP
  {}

  lemma AlignedNext(a: nat)
    requires a % PGSIZE == 0
    ensures PageNo(a + PGSIZE) == Nth(PageNo(a), 1) && (a + PGSIZE) % PGSIZE == 0
  {}

  lemma NextAddr(a: nat, b: nat)
    requires a % PGSIZE == 0 && b == a + PGSIZE
    ensures PageNo(b) == Nth(PageNo(a), 1) && b % PGSIZE == 0
  {}

  lemma AlignedPages(a: nat, newsz: nat)
    requires a % PGSIZE == 0 && a < newsz + PGSIZE
    ensures Pages(a) == PageNo(a) && (a >= newsz ==> PageNo(a) == Pages(newsz))
  {}

  lemma BackTo(oldsz: nat, a: nat, sz: nat)
    requires a >= RoundUp(oldsz) && sz == if RoundUp(oldsz) >= a then a else RoundUp(oldsz)
    ensures Pages(sz) == Pages(oldsz)
  {}

  // ----- copying -----

  /** Page u of w has the contents and flags of page u of o. */
  ghost predicate CopyOf(k: K, o: nat, w: nat, u: nat)
    requires o in k.spaces && w in k.spaces
  {
    var from, to := k.spaces[o].leaf, k.spaces[w].leaf;
    && u in from && u in to && to[u].flags == from[u].flags
    && from[u].pa in k.mem && to[u].pa in k.mem && k.mem[to[u].pa] == k.mem[from[u].pa]
  }

  /** From k to k', w got copies of the first m pages of o. */
  ghost predicate Copied(k: K, k': K, o: nat, w: nat, m: nat) {
    Extended(k, k', w, 0, m) && o in k'.spaces && forall u :: 0 <= u < m ==> CopyOf(k', o, w, u)
  }

  lemma OddFlags(flags: nat)
    requires LeafFlags(flags)
    ensures WithValid(flags) == flags && flags < 1024 && IsLeaf(flags)
  {}

  lemma CopyStays(k1: K, k2: K, o: nat, w: nat, u: nat, m: nat)
    requires o in k1.spaces && w in k1.spaces && o in k2.spaces && w in k2.spaces && CopyOf(k1, o, w, u) && u < USERTOP
    requires SpaceOwns(k1.own, o, k1.spaces[o]) && SpaceOwns(k1.own, w, k1.spaces[w]) && Grew(k1, k2, w, m)
    requires k2.spaces[o] == k1.spaces[o] && u in k2.spaces[w].leaf && k2.spaces[w].leaf[u] == k1.spaces[w].leaf[u]
    ensures CopyOf(k2, o, w, u)
  {}

  lemma CopiedOne(k: K, k1: K, k2: K, o: nat, w: nat, m: nat)
    requires o != w && o in k1.spaces && w in k1.spaces && SpaceOwns(k1.own, o, k1.spaces[o])
             && SpaceOwns(k1.own, w, k1.spaces[w])
    requires Copied(k, k1, o, w, m) && m < USERTOP && m !in k1.spaces[w].leaf && m in k1.spaces[o].leaf
             && k1.spaces[o].leaf[m].pa in k1.mem
    requires PutOne(k1, k2, w, m, k1.mem[k1.spaces[o].leaf[m].pa], k1.spaces[o].leaf[m].flags)
    ensures Copied(k, k2, o, w, Nth(m, 1))
  {
    ExtendedOne(k, k1, k2, w, 0, m, k1.mem[k1.spaces[o].leaf[m].pa], k1.spaces[o].leaf[m].flags);
    forall u | 0 <= u < m + 1
      ensures CopyOf(k2, o, w, u)
    {
      if u < m { CopyStays(k1, k2, o, w, u, m); }
    }
  }

  lemma CopiedTabled(k: K, k1: K, k2: K, o: nat, w: nat, m: nat)
    requires Copied(k, k1, o, w, m) && Tabled(k1, k2, w)
    ensures Extended(k, k2, w, 0, m)
  {
    ExtendedTabled(k, k1, k2, w, 0, m);
  }

  /** uvmcopy() has copied the pages below a; if not ok it has run out of memory. */
  ghost predicate Copying(k: K, k': K, o: nat, w: nat, sz: nat, a: nat, ok: bool) {
    && a % PGSIZE == 0 && a < sz + PGSIZE && PageNo(a) <= Pages(sz)
    && Extended(k, k', w, 0, PageNo(a)) && (ok ==> Copied(k, k', o, w, PageNo(a)))
  }

  lemma CopiedNothing(k: K, o: nat, w: nat, sz: nat)
    requires o in k.spaces && w in k.spaces
    ensures Copying(k, k, o, w, sz, 0, true)
  {}

  /** The next page to copy is mapped in o, and not in w. */
  lemma NextToCopy(k: K, k1: K, o: nat, w: nat, sz: nat, a: nat)
    requires o != w && o in k.spaces && w in k.spaces && Sized(k.spaces[o], sz) && Sized(k.spaces[w], 0)
    requires Extended(k, k1, w, 0, PageNo(a)) && a % PGSIZE == 0 && a < sz
    ensures PageNo(a) < Pages(sz) && PageNo(a) < USERTOP && o in k1.spaces && PageNo(a) in k1.spaces[o].leaf
            && PageNo(a) !in k1.spaces[w].leaf
    ensures Nth(PageNo(a), 1) <= Pages(sz)
  {}

  lemma SizedCopied(k: K, k1: K, w: nat, sz: nat)
    requires w in k.spaces && Sized(k.spaces[w], 0) && Extended(k, k1, w, 0, Pages(sz)) && Pages(sz) <= USERTOP
    ensures Sized(k1.spaces[w], sz)
  {}

  lemma UserOnly(k: K, k1: K, w: nat, c: nat, sz: nat)
    requires w in k.spaces && Sized(k.spaces[w], 0) && Extended(k, k1, w, 0, c) && c <= Pages(sz) <= USERTOP
    ensures (forall u :: u in k.spaces[w].leaf ==> u < 0 || u >= USERTOP) && Nth(0, c) == c && PageNo(0) == 0
    ensures forall j :: 0 <= j < c ==> Nth(PageNo(0), j) in k1.spaces[w].leaf
  {}

  // ----- boot and the free list as a whole -----

  /** At boot the kernel holds every page. */
  ghost function BootOwn(lo: nat): map<nat, Role> {
    map p: nat | lo <= p < PHYSTOP && p % PGSIZE == 0 :: Held
  }

  function Boot(lo: nat): K {
    K(map p: nat | lo <= p < PHYSTOP && p % PGSIZE == 0 :: Junk(0), 0, [], BootOwn(lo), map[])
  }

  lemma BootListed(lo: nat)
    requires KERNBASE <= lo
    ensures Listed(lo, Boot(lo)) && HoldsFrom(Boot(lo), lo)
  {}

  /** Before any address space, the kernel holds exactly the pages from p on. */
  ghost predicate HoldsFrom(k: K, p: nat) {
    k.spaces == map[] && forall q :: q in k.own <==> Managed(p, q)
  }

  lemma NextHeld(k: K, p: nat, p': nat)
    requires p % PGSIZE == 0 && p' == p + PGSIZE <= PHYSTOP && HoldsFrom(k, p)
    ensures p in k.own && HoldsFrom(Freed(k, p), p') && p' % PGSIZE == 0
  {
    assert Managed(p, p);
    forall q
      ensures q in k.own - {p} <==> Managed(p', q)
    {
      assert q in k.own <==> Managed(p, q);
    }
  }

  lemma NoneHeld(lo: nat, k: K, p: nat)
    requires Listed(lo, k) && p % PGSIZE == 0 && p + PGSIZE > PHYSTOP && HoldsFrom(k, p)
    ensures k.own == map[] && Inv(lo, k, 0)
  {
    assert forall q :: !Managed(p, q);
  }

  lemma FewFree(lo: nat, k: K)
    requires Inv(lo, k, 0)
    ensures |k.free| <= PHYSPAGES
  {
    forall i | 0 <= i < |k.free|
      ensures Managed(lo, k.free[i])
    {
      assert k.free[i] in k.free;
    }
    FewManaged(lo, k.free);
  }

  lemma FreeAt(lo: nat, k: K, i: nat)
    requires Inv(lo, k, 0) && i < |k.free|
    ensures k.free[i] != 0 && k.free[i] in k.mem && k.mem[k.free[i]] == Run(NextFree(k.free, i))
  {
    assert k.free[i] in k.free;
  }

  // ----- processes' address spaces -----

  const TRAMPOLINE := MAXVA - PGSIZE
  const TRAPFRAME := MAXVA - 2 * PGSIZE

  /** The map of a process without user memory. */
  function ProcLeaf(trampoline: nat, tf: nat): map<nat, Leaf> {
    map[][PageNo(TRAMPOLINE) := Leaf(trampoline, WithValid(PTE_R + PTE_X))][PageNo(TRAPFRAME) := Leaf(tf,
          WithValid(PTE_R + PTE_W))]
  }

  /** An address space of a process: sz bytes of user memory, the trapframe and the trampoline. */
  ghost predicate ProcSpace(sp: Space, sz: nat) {
    Sized(sp, sz) && PageNo(TRAMPOLINE) in sp.leaf && PageNo(TRAPFRAME) in sp.leaf
  }

  /** From k to k', address space r came to be; no other page changed its role, nor its contents unless a table. */
  ghost predicate Born(k: K, k': K, r: nat) {
    && r !in k.spaces && r in k'.spaces && k'.spaces == k.spaces[r := k'.spaces[r]]
    && (forall p :: p in k.own ==> p in k'.own && k'.own[p] == k.own[p])
    && (forall p :: p in k.own && p in k.mem && (k.own[p].Held? || k.own[p].Data?) ==>
         p in k'.mem && k'.mem[p] == k.mem[p])
    && (forall p :: p in k'.own && p !in k.own ==> !k'.own[p].Held? && k'.own[p].r == r)
  }

  /** Every page has its role, every address space its map; only free pages and tables may differ. */
  ghost predicate Same(k: K, k': K) {
    && k'.own == k.own && k'.spaces == k.spaces
    && (forall p :: p in k.own && p in k.mem && (k.own[p].Held? || k.own[p].Data?) ==>
         p in k'.mem && k'.mem[p] == k.mem[p])
  }

  lemma CreatedBorn(lo: nat, k: K)
    requires Inv(lo, k, 0) && k.free != []
    ensures k.free[0] in k.mem && k.mem[k.free[0]].Run? && Born(k, Created(k), k.free[0])
            && Created(k).spaces[k.free[0]].leaf == map[]
  {
    Popped(lo, k);
    FreeIsNoRoot(k, k.free[0]);
  }

  lemma BornGrew(k: K, k1: K, k2: K, r: nat)
    requires Born(k, k1, r) && Only(k1, k2, r) && Grew(k1, k2, r, VPAGES)
    ensures Born(k, k2, r)
  {}

  /** Taking a new address space apart undoes its making. */
  lemma BornGone(lo: nat, k: K, k1: K, k2: K, r: nat)
    requires Inv(lo, k, 0) && Born(k, k1, r) && Gone(k1, k2, r)
    ensures Same(k, k2)
  {
    NoneOf(lo, k, r);
    OwnAgain(k.own, k1.own, r);
    assert k.spaces[r := k1.spaces[r]] - {r} == k.spaces;
  }

  lemma NoneOf(lo: nat, k: K, r: nat)
    requires Inv(lo, k, 0) && r !in k.spaces
    ensures forall p :: p in k.own ==> k.own[p].Held? || k.own[p].r != r
  {}

  lemma OwnAgain(own: map<nat, Role>, own1: map<nat, Role>, r: nat)
    requires forall p :: p in own ==> p in own1 && own1[p] == own[p] && (own[p].Held? || own[p].r != r)
    requires forall p :: p in own1 && p !in own ==> !own1[p].Held? && own1[p].r == r
    ensures OwnWithout(own1, r) == own
  {}

  predicate SpecialPerm(perm: nat) { perm < 1024 && IsLeaf(perm) && !HasUser(WithValid(perm)) }

  /** The trampoline and the trapframe are above user memory. */
  lemma SpecialPages(a: nat)
    requires a == TRAMPOLINE || a == TRAPFRAME
    ensures a % PGSIZE == 0 && a < MAXVA && USERTOP <= PageNo(a) && PageNo(a) + 1 <= VPAGES
            && PageNo(TRAMPOLINE) != PageNo(TRAPFRAME)
    ensures SpecialPerm(PTE_R + PTE_X) && SpecialPerm(PTE_R + PTE_W) && forall j :: 0 <= j < 1 ==>
              Nth(PageNo(a), j) == PageNo(a)
  {}

  lemma SizedEmpty(sp: Space)
    requires sp.leaf == map[]
    ensures Sized(sp, 0)
  {}

  lemma ProcLeafSpace(sp: Space, trampoline: nat, tf: nat)
    requires sp.leaf == ProcLeaf(trampoline, tf)
    ensures ProcSpace(sp, 0)
  {}

  lemma AddedAndRemoved(v: nat, l: Leaf)
    ensures map[][v := l] - {v} == map[]
  {}

  lemma UnmappedSpecial(k0: K, k: K, k1: K, r: nat, v: nat)
    requires UnmappedRange(k, k1, r, v, 1, false) && OwnKept(k.own, r, v, 1) == k.own
    ensures k1.spaces[r].leaf == k.spaces[r].leaf - {v} && k1.own == k.own
    ensures Born(k0, k, r) ==> Born(k0, k1, r)
  {}

  const TWO64 := 0x1_0000_0000_0000_0000

  lemma LeafBound(lo: nat, k: K, r: nat)
    requires Inv(lo, k, 0) && r in k.spaces
    ensures forall v :: v in k.spaces[r].leaf ==> v < VPAGES
  {
    assert Rep(k.mem, r, k.spaces[r]);
    forall v | v in k.spaces[r].leaf
      ensures v < VPAGES
    {
      assert LeafOk(k.spaces[r], v);
    }
  }

  /** From k to k', the trampoline and the trapframe of r were unmapped. */
  ghost predicate Stripped(k: K, k': K, r: nat) {
    && Only(k, k', r) && k'.own == k.own
    && k'.spaces[r] == k.spaces[r].(leaf := k.spaces[r].leaf - {PageNo(TRAMPOLINE)} - {PageNo(TRAPFRAME)})
    && (forall p :: p in k'.own && p in k.mem && (k'.own[p].Held? || k'.own[p].Data?) ==>
         p in k'.mem && k'.mem[p] == k.mem[p])
  }

  lemma StrippedBoth(k: K, k1: K, k2: K, r: nat, sz: nat)
    requires UnmappedRange(k, k1, r, PageNo(TRAMPOLINE), 1, false)
             && UnmappedRange(k1, k2, r, PageNo(TRAPFRAME), 1, false) && k1.own == k.own && k2.own == k.own
    requires ProcSpace(k.spaces[r], sz) && forall v :: v in k.spaces[r].leaf ==> v < VPAGES
    ensures Stripped(k, k2, r) && Sized(k2.spaces[r], sz) && forall v :: v in k2.spaces[r].leaf ==> v < USERTOP
  {
    OnlyTwice(k, k1, k2, r);
    assert k1.spaces[r].leaf == k.spaces[r].leaf - {PageNo(TRAMPOLINE)};
    assert k2.spaces[r].leaf == k1.spaces[r].leaf - {PageNo(TRAPFRAME)};
    UserOnlyLeft(k.spaces[r], sz);
  }

  lemma StrippedGone(k: K, k1: K, k2: K, r: nat)
    requires Stripped(k, k1, r) && Gone(k1, k2, r)
    ensures Gone(k, k2, r)
  {}

  /** Without the trampoline and the trapframe only user memory is mapped. */
  lemma UserOnlyLeft(sp: Space, sz: nat)
    requires ProcSpace(sp, sz) && forall v :: v in sp.leaf ==> v < VPAGES
    ensures var sp' := sp.(leaf := sp.leaf - {PageNo(TRAMPOLINE)} - {PageNo(TRAPFRAME)});
            Sized(sp', sz) && forall v :: v in sp'.leaf ==> v < USERTOP
  {}

  /** A 64-bit sum. */
  function Wrap64(x: int): nat { x % TWO64 }

  lemma SizeBound(sp: Space, sz: nat, n: nat)
    requires Sized(sp, sz) && n <= 0x8000_0000
    ensures Wrap64(sz + n) == sz + n
    ensures if sz - n >= 0 then Wrap64(sz - n) == sz - n else Wrap64(sz - n) >= sz
  {
    assert sz <= MAXVA;
  }

  lemma LessSize(sp: Space, sz: nat, n: nat)
    requires Sized(sp, sz) && 0 < n <= 0x8000_0000
    ensures (if Wrap64(sz - n) >= sz then sz else Wrap64(sz - n)) == if sz >= n then sz - n else sz
  {
    SizeBound(sp, sz, n);
  }

  /** From k to k', the user pages n to m of r were unmapped and freed. */
  ghost predicate Shrunk(k: K, k': K, r: nat, n: nat, m: nat) {
    n <= m && UnmappedRange(k, k', r, n, m - n, true)
  }

  lemma GrewSpecial(k: K, k1: K, r: nat, sz: nat, newsz: nat, ok: bool)
    requires r in k.spaces && ProcSpace(k.spaces[r], sz)
    requires ok ==>
               Grown(k, k1, r, Pages(sz), Pages(newsz), WithValid(UserPerm(PTE_W))) && Sized(k1.spaces[r], newsz)
    requires !ok ==> Tabled(k, k1, r)
    ensures Only(k, k1, r) && HeldSame(k, k1) && ProcSpace(k1.spaces[r], if ok then newsz else sz)
  {
    HeldGrew(k, k1, r, if ok then Pages(sz) else VPAGES);
  }

  lemma ShrankSpecial(k: K, k1: K, r: nat, sz: nat, newsz: nat, m: nat)
    requires r in k.spaces && ProcSpace(k.spaces[r], sz) && Pages(sz) == Nth(Pages(newsz), m)
             && UnmappedRange(k, k1, r, Pages(newsz), m, true)
    requires Sized(k1.spaces[r], newsz)
    ensures Shrunk(k, k1, r, Pages(newsz), Pages(sz)) && Only(k, k1, r) && HeldSame(k, k1)
            && ProcSpace(k1.spaces[r], newsz)
  {
    SpecialPages(TRAMPOLINE);
    SpecialPages(TRAPFRAME);
  }

  // ----- any number of processes -----

  /** The address spaces are those of the processes, with their sizes. */
  ghost predicate Hosts(k: K, procs: map<nat, nat>) {
    k.spaces.Keys == procs.Keys && forall r :: r in procs ==> ProcSpace(k.spaces[r], procs[r])
  }

  predicate HeldIn(own: map<nat, Role>, p: nat) { p in own && own[p] == Held }

  /** The kernel holds the same pages. */
  ghost predicate HeldSame(k: K, k': K) {
    forall p :: HeldIn(k.own, p) <==> HeldIn(k'.own, p)
  }

  lemma HeldTwice(k: K, k1: K, k2: K)
    requires HeldSame(k, k1) && HeldSame(k1, k2)
    ensures HeldSame(k, k2)
  {}

  lemma HostsBorn(k: K, k': K, procs: map<nat, nat>, r: nat, sz: nat)
    requires Hosts(k, procs) && Born(k, k', r) && ProcSpace(k'.spaces[r], sz)
    ensures r !in procs && Hosts(k', procs[r := sz]) && HeldSame(k, k')
  {}

  lemma HostsOnly(k: K, k': K, procs: map<nat, nat>, r: nat, sz: nat)
    requires Hosts(k, procs) && Only(k, k', r) && ProcSpace(k'.spaces[r], sz)
    ensures Hosts(k', procs[r := sz])
  {}

  lemma HeldGrew(k: K, k': K, r: nat, from: nat)
    requires Grew(k, k', r, from)
    ensures HeldSame(k, k')
  {}

  lemma HostsGone(k: K, k': K, procs: map<nat, nat>, r: nat)
    requires Hosts(k, procs) && Gone(k, k', r)
    ensures Hosts(k', procs - {r}) && HeldSame(k, k')
  {}

  lemma CopiedSpecial(k: K, k1: K, o: nat, w: nat, sz: nat, ok: bool)
    requires w in k.spaces && ProcSpace(k.spaces[w], 0)
    requires if ok then Copied(k, k1, o, w, Pages(sz)) && Sized(k1.spaces[w], sz) else Tabled(k, k1, w)
    ensures Only(k, k1, w) && HeldSame(k, k1) && ProcSpace(k1.spaces[w], if ok then sz else 0)
  {
    HeldGrew(k, k1, w, if ok then 0 else VPAGES);
  }

  /** Without address spaces every page in use is held by the kernel, so the rest is free. */
  lemma AllBack(lo: nat, k: K, k': K)
    requires Inv(lo, k, 0) && Inv(lo, k', 0) && k.spaces == map[] && k'.spaces == map[] && HeldSame(k, k')
    ensures |k'.free| == |k.free| && forall p :: p in k'.free <==> p in k.free
  {
    forall p
      ensures p in k'.free <==> p in k.free
    {
      assert HeldIn(k.own, p) <==> p in k.own;
      assert HeldIn(k'.own, p) <==> p in k'.own;
    }
    SameLength(k.free, k'.free);
    SameLength(k'.free, k.free);
  }

  /** A list without repetitions is no longer than one that has all its elements. */
  lemma {:induction false} SameLength(s: seq<nat>, t: seq<nat>)
    requires Distinct(s) && forall p :: p in s ==> p in t
    ensures |s| <= |t|
    decreases |s|
  {
    if s != [] {
      var x, rest := s[0], s[1..];
      assert x in s && x in t;
      var i :| 0 <= i < |t| && t[i] == x;
      var t' := t[..i] + t[i + 1..];
      forall p | p in rest
        ensures p in t'
      {
        var j :| 0 <= j < |rest| && rest[j] == p;
        assert s[j + 1] == p && p in t && p != x;
      }
      SameLength(rest, t');
    }
  }
}
