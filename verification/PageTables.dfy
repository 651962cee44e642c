/**
 Physical pages, page-table entries and user address spaces: the representation of
 a three-level Sv39 tree as a finite map from virtual page to physical page and
 flags, and who owns each page.
 */
module PageTables {
  import opened Counting
  import opened Words

  const PGSIZE := 4096
  const ENTRIES := 512
  const PHYSTOP := 0x8800_0000
  const KERNBASE := 0x8000_0000
  const MAXVA := 0x40_0000_0000

  /** Number of virtual pages, and of those below the trapframe page: a user's own. */
  const VPAGES := MAXVA / PGSIZE
  const USERTOP := VPAGES - 2

  const PTE_V := 1
  const PTE_R := 2
  const PTE_W := 4
  const PTE_X := 8
  const PTE_U := 16

  /** A page is used as an entry of the free list, as a page table, or for bytes. */
  datatype Page = Run(next: nat) | Table(ptes: seq<nat>) | Bytes(data: seq<byte>)

  datatype Leaf = Leaf(pa: nat, flags: nat)

  /** An address space: its table pages by position, and the map it stands for. */
  datatype Space = Space(mid: map<nat, nat>, low: map<nat, nat>, leaf: map<nat, Leaf>)

  /** What a page that is not free is used for. */
  datatype Role =
    | Held                      // by the kernel: just allocated, a trapframe, ...
    | Root(r: nat)
    | Mid(r: nat, i: nat)
    | Low(r: nat, k: nat)
    | Data(r: nat, v: nat)

  // ----- page-table entries -----

  function MkPte(pa: nat, flags: nat): nat { pa / PGSIZE * 1024 + flags }
  function PteAddr(pte: nat): nat { pte / 1024 * PGSIZE }
  function PteFlags(pte: nat): nat { pte % 1024 }
  predicate PteValid(pte: nat) { pte % 2 == 1 }
  predicate HasUser(flags: nat) { flags / PTE_U % 2 == 1 }

  /** Some of R, W and X is set: an entry for a page, not for a table. */
  predicate IsLeaf(flags: nat) { flags / 2 % 8 != 0 }

  predicate LeafFlags(flags: nat) { flags < 1024 && flags % 2 == 1 && IsLeaf(flags) }

  /** Flags that page v may be mapped with: the user has no access above user memory. */
  predicate LeafFits(v: nat, flags: nat) { LeafFlags(flags) && (HasUser(flags) ==> v < USERTOP) }

  lemma PteRoundTrip(pa: nat, flags: nat)
    requires pa % PGSIZE == 0 && flags < 1024
    ensures PteAddr(MkPte(pa, flags)) == pa && PteFlags(MkPte(pa, flags)) == flags
    ensures PteValid(MkPte(pa, flags)) == (flags % 2 == 1)
  {
    var m := pa / PGSIZE * 512;
    assert MkPte(pa, flags) == 2 * m + flags;
  }

  /** The indices of a virtual address: each names an entry of the table found by the ones before it. */
  function Px(level: nat, va: nat): nat
    requires level <= 2
  {
    (if level == 2 then va / 0x4000_0000 else if level == 1 then va / 0x20_0000 else va / 0x1000) % 512
  }

  lemma PxSplits(va: nat)
    requires va < MAXVA
    ensures Px(2, va) == va / PGSIZE / 512 / 512 && Px(2, va) * 512 + Px(1, va) == va / PGSIZE / 512
    ensures va / PGSIZE / 512 * 512 + Px(0, va) == va / PGSIZE && va / PGSIZE < VPAGES
  {}

  // ----- a tree of tables stands for a map -----

  predicate IsTable(mem: map<nat, Page>, p: nat) {
    p in mem && mem[p].Table? && |mem[p].ptes| == ENTRIES
  }

  /** The entry for position k: the table found there, or nothing. */
  function TableEntry(tables: map<nat, nat>, k: nat): nat {
    if k in tables then MkPte(tables[k], PTE_V) else 0
  }

  function LeafEntry(leaf: map<nat, Leaf>, v: nat): nat {
    if v in leaf then MkPte(leaf[v].pa, leaf[v].flags) else 0
  }

  /** The position reached through entry j of the table at position k. */
  function Sub(k: nat, j: nat): (v: nat)
    requires j < ENTRIES
    ensures v / ENTRIES == k && v % ENTRIES == j
  {
    k * ENTRIES + j
  }

  ghost predicate RootRep(mem: map<nat, Page>, r: nat, sp: Space) {
    IsTable(mem, r) && forall i :: 0 <= i < ENTRIES ==> mem[r].ptes[i] == TableEntry(sp.mid, i)
  }

  ghost predicate MidRep(mem: map<nat, Page>, i: nat, sp: Space) {
    && i in sp.mid && i < ENTRIES && IsTable(mem, sp.mid[i])
    && forall j :: 0 <= j < ENTRIES ==> mem[sp.mid[i]].ptes[j] == TableEntry(sp.low, Sub(i, j))
  }

  ghost predicate LowRep(mem: map<nat, Page>, k: nat, sp: Space) {
    && k in sp.low && k / ENTRIES in sp.mid && IsTable(mem, sp.low[k])
    && forall j :: 0 <= j < ENTRIES ==> mem[sp.low[k]].ptes[j] == LeafEntry(sp.leaf, Sub(k, j))
  }

  ghost predicate LeafOk(sp: Space, v: nat) {
    v in sp.leaf && v < VPAGES && v / ENTRIES in sp.low && sp.leaf[v].pa % PGSIZE == 0 && LeafFits(v, sp.leaf[v].flags)
  }

  /** The tables in memory at root r are those of sp, and stand for its map. */
  ghost predicate Rep(mem: map<nat, Page>, r: nat, sp: Space) {
    && RootRep(mem, r, sp)
    && (forall i :: i in sp.mid ==> MidRep(mem, i, sp))
    && (forall k :: k in sp.low ==> LowRep(mem, k, sp))
    && (forall v :: v in sp.leaf ==> LeafOk(sp, v))
  }

  // ----- ownership -----

  ghost predicate SpaceOwns(own: map<nat, Role>, r: nat, sp: Space) {
    && r in own && own[r] == Root(r)
    && (forall i :: i in sp.mid ==> sp.mid[i] in own && own[sp.mid[i]] == Mid(r, i))
    && (forall k :: k in sp.low ==> sp.low[k] in own && own[sp.low[k]] == Low(r, k))
    && (forall v :: v in sp.leaf && v < USERTOP ==> sp.leaf[v].pa in own && own[sp.leaf[v].pa] == Data(r, v))
  }

  /** A page with this role is where its address space says. */
  predicate RoleIn(sp: Space, pa: nat, role: Role)
    requires !role.Held?
  {
    match role
    case Root(r) => pa == r
    case Mid(r, i) => i in sp.mid && sp.mid[i] == pa
    case Low(r, k) => k in sp.low && sp.low[k] == pa
    case Data(r, v) => v in sp.leaf && v < USERTOP && sp.leaf[v].pa == pa
  }

  predicate Managed(lo: nat, pa: nat) { lo <= pa < PHYSTOP && pa % PGSIZE == 0 }

  /** Every managed page is on the free list, once, or has a role, but not both. */
  ghost predicate Partition(lo: nat, free: seq<nat>, own: map<nat, Role>) {
    && Distinct(free)
    && (forall p :: p in free ==> Managed(lo, p) && p !in own)
    && (forall p :: p in own ==> Managed(lo, p))
    && (forall p :: Managed(lo, p) ==> p in own || p in free)
  }

  function NextFree(free: seq<nat>, i: nat): nat { if i + 1 < |free| then free[i + 1] else 0 }

  /** The free list in memory. */
  ghost predicate Linked(mem: map<nat, Page>, freelist: nat, free: seq<nat>) {
    && freelist == (if free == [] then 0 else free[0])
    && forall i :: 0 <= i < |free| ==>
         free[i] in mem && mem[free[i]] == Run(NextFree(free, i))
  }

  ghost predicate HoldsBytes(mem: map<nat, Page>, p: nat) {
    p in mem && mem[p].Bytes? && |mem[p].data| == PGSIZE
  }

  ghost predicate Reps(mem: map<nat, Page>, spaces: map<nat, Space>) {
    forall r :: r in spaces ==> Rep(mem, r, spaces[r])
  }

  ghost predicate Owns(own: map<nat, Role>, spaces: map<nat, Space>) {
    forall r :: r in spaces ==> SpaceOwns(own, r, spaces[r])
  }

  /** Roles in address spaces that exist are filled as they say. */
  ghost predicate Roles(own: map<nat, Role>, spaces: map<nat, Space>) {
    forall p :: p in own && !own[p].Held? && own[p].r in spaces ==> RoleIn(spaces[own[p].r], p, own[p])
  }

  ghost predicate Contents(mem: map<nat, Page>, own: map<nat, Role>) {
    forall p :: p in own ==> p in mem && (own[p].Data? ==> HoldsBytes(mem, p))
  }

  ghost predicate Owned(mem: map<nat, Page>, own: map<nat, Role>, spaces: map<nat, Space>) {
    Reps(mem, spaces) && Owns(own, spaces) && Roles(own, spaces) && Contents(mem, own)
  }

  // ----- what a write to one page leaves alone -----

  lemma RepFrame(mem: map<nat, Page>, r: nat, sp: Space, p: nat, page: Page)
    requires Rep(mem, r, sp) && p != r
    requires forall i :: i in sp.mid ==> sp.mid[i] != p
    requires forall k :: k in sp.low ==> sp.low[k] != p
    ensures Rep(mem[p := page], r, sp)
  {
    var mem' := mem[p := page];
    forall i | i in sp.mid
      ensures MidRep(mem', i, sp)
    {
      assert MidRep(mem, i, sp);
    }
    forall k | k in sp.low
      ensures LowRep(mem', k, sp)
    {
      assert LowRep(mem, k, sp);
    }
  }

  /** A page without a role in a live space, or with a data role, can be written. */
  lemma WriteFrame(mem: map<nat, Page>, own: map<nat, Role>, spaces: map<nat, Space>, p: nat, page: Page)
    requires Owned(mem, own, spaces)
    requires p !in own || own[p] == Held || own[p].r !in spaces || own[p].Data?
    requires p in own && own[p].Data? ==> page.Bytes? && |page.data| == PGSIZE
    ensures Owned(mem[p := page], own, spaces)
  {
    forall r | r in spaces
      ensures Rep(mem[p := page], r, spaces[r])
    {
      assert SpaceOwns(own, r, spaces[r]);
      RepFrame(mem, r, spaces[r], p, page);
    }
  }

  // ----- the ways a tree grows and shrinks -----

  function ZeroTable(): Page { Table(seq(ENTRIES, _ => 0)) }

  function SetEntry(page: Page, j: nat, pte: nat): Page
    requires page.Table? && j < |page.ptes|
  {
    Table(page.ptes[j := pte])
  }

  /** The tables of one address space are different pages. */
  ghost predicate Apart(r: nat, sp: Space) {
    && (forall i :: i in sp.mid ==> sp.mid[i] != r)
    && (forall k :: k in sp.low ==> sp.low[k] != r)
    && (forall i, k :: i in sp.mid && k in sp.low ==> sp.mid[i] != sp.low[k])
    && (forall i, j :: i in sp.mid && j in sp.mid && i != j ==> sp.mid[i] != sp.mid[j])
    && (forall i, j :: i in sp.low && j in sp.low && i != j ==> sp.low[i] != sp.low[j])
  }

  lemma OwnedApart(own: map<nat, Role>, r: nat, sp: Space)
    requires SpaceOwns(own, r, sp)
    ensures Apart(r, sp)
  {}

  function WithMid(sp: Space, i: nat, p: nat): Space { sp.(mid := sp.mid[i := p]) }
  function WithLow(sp: Space, k: nat, p: nat): Space { sp.(low := sp.low[k := p]) }
  function WithLeaf(sp: Space, v: nat, l: Leaf): Space { sp.(leaf := sp.leaf[v := l]) }
  function WithoutLeaf(sp: Space, v: nat): Space { sp.(leaf := sp.leaf - {v}) }

  /** With no table at i, there is none below it; with none at k, no page below it. */
  lemma NothingBelow(mem: map<nat, Page>, r: nat, sp: Space, k: nat)
    requires Rep(mem, r, sp)
    ensures k !in sp.mid ==> forall j :: 0 <= j < ENTRIES ==> Sub(k, j) !in sp.low
    ensures k !in sp.low ==> forall j :: 0 <= j < ENTRIES ==> Sub(k, j) !in sp.leaf
  {
    forall j | 0 <= j < ENTRIES
      ensures Sub(k, j) in sp.low ==> k in sp.mid
      ensures Sub(k, j) in sp.leaf ==> k in sp.low
    {
      if Sub(k, j) in sp.low { assert LowRep(mem, Sub(k, j), sp); }
      if Sub(k, j) in sp.leaf { assert LeafOk(sp, Sub(k, j)); }
    }
  }

  lemma MidRepAdded(mem: map<nat, Page>, r: nat, sp: Space, i: nat, p: nat)
    requires Rep(mem, r, sp) && Apart(r, sp) && i < ENTRIES && i !in sp.mid && p in mem && mem[p] == ZeroTable()
             && p != r
    requires forall j :: j in sp.mid ==> sp.mid[j] != p
    requires forall k :: k in sp.low ==> sp.low[k] != p
    ensures Rep(mem[r := SetEntry(mem[r], i, MkPte(p, PTE_V))], r, WithMid(sp, i, p))
  {
    var mem', sp' := mem[r := SetEntry(mem[r], i, MkPte(p, PTE_V))], WithMid(sp, i, p);
    NothingBelow(mem, r, sp, i);
    forall j | j in sp'.mid
      ensures MidRep(mem', j, sp')
    {
      if j != i { assert MidRep(mem, j, sp); }
    }
    forall k | k in sp'.low
      ensures LowRep(mem', k, sp')
    {
      assert LowRep(mem, k, sp);
    }
    forall v | v in sp'.leaf
      ensures LeafOk(sp', v)
    {
      assert LeafOk(sp, v);
    }
  }

  lemma MidRepWithLow(mem: map<nat, Page>, sp: Space, k: nat, p: nat, i: nat)
    requires MidRep(mem, i, sp) && k / ENTRIES in sp.mid && IsTable(mem, sp.mid[k / ENTRIES])
    requires i != k / ENTRIES ==> sp.mid[i] != sp.mid[k / ENTRIES]
    ensures var q := sp.mid[k / ENTRIES];
            MidRep(mem[q := SetEntry(mem[q], k % ENTRIES, MkPte(p, PTE_V))], i, WithLow(sp, k, p))
  {}

  lemma LowRepAdded(mem: map<nat, Page>, r: nat, sp: Space, k: nat, p: nat)
    requires Rep(mem, r, sp) && Apart(r, sp) && k !in sp.low && k / ENTRIES in sp.mid && p in mem
             && mem[p] == ZeroTable() && p != r
    requires forall j :: j in sp.mid ==> sp.mid[j] != p
    requires forall k :: k in sp.low ==> sp.low[k] != p
    requires IsTable(mem, sp.mid[k / ENTRIES])
    ensures var q := sp.mid[k / ENTRIES];
            Rep(mem[q := SetEntry(mem[q], k % ENTRIES, MkPte(p, PTE_V))], r, WithLow(sp, k, p))
  {
    var q, sp' := sp.mid[k / ENTRIES], WithLow(sp, k, p);
    var mem' := mem[q := SetEntry(mem[q], k % ENTRIES, MkPte(p, PTE_V))];
    NothingBelow(mem, r, sp, k);
    forall i | i in sp'.mid
      ensures MidRep(mem', i, sp')
    {
      assert MidRep(mem, i, sp);
      MidRepWithLow(mem, sp, k, p, i);
    }
    forall j | j in sp'.low
      ensures LowRep(mem', j, sp')
    {
      if j != k { assert LowRep(mem, j, sp); }
    }
    forall v | v in sp'.leaf
      ensures LeafOk(sp', v)
    {
      assert LeafOk(sp, v);
    }
  }

  /** Maps that agree except at one page. */
  ghost predicate Elsewhere(leaf: map<nat, Leaf>, leaf': map<nat, Leaf>, v: nat) {
    forall u :: u != v ==> (u in leaf' <==> u in leaf) && (u in leaf' ==> leaf'[u] == leaf[u])
  }

  lemma LowRepWithLeaf(mem: map<nat, Page>, sp: Space, v: nat, leaf': map<nat, Leaf>, k: nat)
    requires LowRep(mem, k, sp) && v / ENTRIES in sp.low && IsTable(mem, sp.low[v / ENTRIES])
             && Elsewhere(sp.leaf, leaf', v)
    requires k != v / ENTRIES ==> sp.low[k] != sp.low[v / ENTRIES]
    ensures var q := sp.low[v / ENTRIES];
            LowRep(mem[q := SetEntry(mem[q], v % ENTRIES, LeafEntry(leaf', v))], k, sp.(leaf := leaf'))
  {}

  /** Writing one entry of a lowest-level table changes the map at one page. */
  lemma LeafRepSet(mem: map<nat, Page>, r: nat, sp: Space, v: nat, leaf': map<nat, Leaf>)
    requires Rep(mem, r, sp) && Apart(r, sp) && v / ENTRIES in sp.low && IsTable(mem, sp.low[v / ENTRIES])
    requires Elsewhere(sp.leaf, leaf', v)
    requires v in leaf' ==> v < VPAGES && leaf'[v].pa % PGSIZE == 0 && LeafFits(v, leaf'[v].flags)
    ensures var q := sp.low[v / ENTRIES];
            Rep(mem[q := SetEntry(mem[q], v % ENTRIES, LeafEntry(leaf', v))], r, sp.(leaf := leaf'))
  {
    var q, sp' := sp.low[v / ENTRIES], sp.(leaf := leaf');
    var mem' := mem[q := SetEntry(mem[q], v % ENTRIES, LeafEntry(leaf', v))];
    forall i | i in sp'.mid
      ensures MidRep(mem', i, sp')
    {
      assert MidRep(mem, i, sp);
    }
    forall k | k in sp'.low
      ensures LowRep(mem', k, sp')
    {
      assert LowRep(mem, k, sp);
      LowRepWithLeaf(mem, sp, v, leaf', k);
    }
    forall u | u in sp'.leaf
      ensures LeafOk(sp', u)
    {
      if u != v { assert LeafOk(sp, u); }
    }
  }

  /** A write to a table of one address space leaves the others as they are. */
  lemma RepsUpdated(mem: map<nat, Page>, own: map<nat, Role>, spaces: map<nat, Space>, r: nat, q: nat, page: Page,
                    sp': Space)
    requires Reps(mem, spaces) && Owns(own, spaces) && q in own && !own[q].Held? && own[q].r == r
    requires Rep(mem[q := page], r, sp')
    ensures Reps(mem[q := page], spaces[r := sp'])
  {
    forall r' | r' in spaces && r' != r
      ensures Rep(mem[q := page], r', spaces[r'])
    {
      RepFrame(mem, r', spaces[r'], q, page);
    }
  }

  lemma OwnsUpdated(own: map<nat, Role>, spaces: map<nat, Space>, r: nat, x: nat, role: Role, sp': Space)
    requires Owns(own, spaces) && x in own && (own[x] == Held || own[x].r == r) && SpaceOwns(own[x := role], r, sp')
    ensures Owns(own[x := role], spaces[r := sp'])
  {}

  lemma RolesUpdated(own: map<nat, Role>, spaces: map<nat, Space>, r: nat, x: nat, role: Role, sp': Space)
    requires Roles(own, spaces) && r in spaces && (role.Held? || (role.r == r && RoleIn(sp', x, role)))
    requires forall p :: p in own && p != x && !own[p].Held? && own[p].r == r && RoleIn(spaces[r], p, own[p]) ==>
               RoleIn(sp', p, own[p])
    ensures Roles(own[x := role], spaces[r := sp'])
  {}

  lemma ContentsUpdated(mem: map<nat, Page>, own: map<nat, Role>, q: nat, page: Page, x: nat, role: Role)
    requires Contents(mem, own) && q in own && !own[q].Data? && x in own && q != x
             && (role.Data? ==> HoldsBytes(mem, x))
    ensures Contents(mem[q := page], own[x := role])
  {}

  /** A page held by the kernel is no table. */
  lemma HeldIsNoTable(own: map<nat, Role>, r: nat, sp: Space, p: nat)
    requires SpaceOwns(own, r, sp) && p in own && own[p] == Held
    ensures p != r && (forall j :: j in sp.mid ==> sp.mid[j] != p) && (forall k :: k in sp.low ==> sp.low[k] != p)
  {}

  lemma AddMid(mem: map<nat, Page>, own: map<nat, Role>, spaces: map<nat, Space>, r: nat, i: nat, p: nat)
    requires Owned(mem, own, spaces) && r in spaces && IsTable(mem, r) && i < ENTRIES && i !in spaces[r].mid
    requires p in own && own[p] == Held && mem[p] == ZeroTable()
    ensures Owned(mem[r := SetEntry(mem[r], i, MkPte(p, PTE_V))], own[p := Mid(r, i)],
              spaces[r := WithMid(spaces[r], i, p)])
  {
    var sp, sp', page := spaces[r], WithMid(spaces[r], i, p), SetEntry(mem[r], i, MkPte(p, PTE_V));
    assert SpaceOwns(own, r, sp) && Rep(mem, r, sp);
    OwnedApart(own, r, sp);
    HeldIsNoTable(own, r, sp, p);
    MidRepAdded(mem, r, sp, i, p);
    RepsUpdated(mem, own, spaces, r, r, page, sp');
    OwnsUpdated(own, spaces, r, p, Mid(r, i), sp');
    RolesUpdated(own, spaces, r, p, Mid(r, i), sp');
    ContentsUpdated(mem, own, r, page, p, Mid(r, i));
  }

  lemma AddLow(mem: map<nat, Page>, own: map<nat, Role>, spaces: map<nat, Space>, r: nat, k: nat, p: nat)
    requires Owned(mem, own, spaces) && r in spaces && k !in spaces[r].low && k / ENTRIES in spaces[r].mid
    requires IsTable(mem, spaces[r].mid[k / ENTRIES])
    requires p in own && own[p] == Held && mem[p] == ZeroTable()
    ensures var q := spaces[r].mid[k / ENTRIES];
            Owned(mem[q := SetEntry(mem[q], k % ENTRIES, MkPte(p, PTE_V))], own[p := Low(r, k)],
                  spaces[r := WithLow(spaces[r], k, p)])
  {
    var sp, sp' := spaces[r], WithLow(spaces[r], k, p);
    var q := sp.mid[k / ENTRIES];
    var page := SetEntry(mem[q], k % ENTRIES, MkPte(p, PTE_V));
    assert SpaceOwns(own, r, sp) && Rep(mem, r, sp);
    OwnedApart(own, r, sp);
    HeldIsNoTable(own, r, sp, p);
    LowRepAdded(mem, r, sp, k, p);
    RepsUpdated(mem, own, spaces, r, q, page, sp');
    OwnsUpdated(own, spaces, r, p, Low(r, k), sp');
    RolesUpdated(own, spaces, r, p, Low(r, k), sp');
    ContentsUpdated(mem, own, q, page, p, Low(r, k));
  }

  /** The roles after mapping page v to l, or removing its mapping: a user's page is the address space's own. */
  function OwnMapped(own: map<nat, Role>, r: nat, v: nat, pa: nat): map<nat, Role> {
    if v < USERTOP then own[pa := Data(r, v)] else own
  }

  function OwnUnmapped(own: map<nat, Role>, v: nat, pa: nat): map<nat, Role> {
    if v < USERTOP then own[pa := Held] else own
  }

  function Entered(mem: map<nat, Page>, sp: Space, v: nat, pte: nat): map<nat, Page>
    requires v / ENTRIES in sp.low && IsTable(mem, sp.low[v / ENTRIES])
  {
    var q := sp.low[v / ENTRIES];
    mem[q := SetEntry(mem[q], v % ENTRIES, pte)]
  }

  lemma MapLeaf(mem: map<nat, Page>, own: map<nat, Role>, spaces: map<nat, Space>, r: nat, v: nat, l: Leaf)
    requires Owned(mem, own, spaces) && r in spaces && v < VPAGES && v / ENTRIES in spaces[r].low
             && v !in spaces[r].leaf
    requires IsTable(mem, spaces[r].low[v / ENTRIES]) && l.pa % PGSIZE == 0 && LeafFits(v, l.flags)
    requires v < USERTOP ==> l.pa in own && own[l.pa] == Held && HoldsBytes(mem, l.pa)
    ensures Owned(Entered(mem, spaces[r], v, MkPte(l.pa, l.flags)), OwnMapped(own, r, v, l.pa),
              spaces[r := WithLeaf(spaces[r], v, l)])
  {
    var sp, sp' := spaces[r], WithLeaf(spaces[r], v, l);
    var q := sp.low[v / ENTRIES];
    assert SpaceOwns(own, r, sp) && Rep(mem, r, sp);
    OwnedApart(own, r, sp);
    LeafRepSet(mem, r, sp, v, sp'.leaf);
    var x, role := if v < USERTOP then l.pa else r, if v < USERTOP then Data(r, v) else own[r];
    assert OwnMapped(own, r, v, l.pa) == own[x := role];
    SetLeafOwned(mem, own, spaces, r, v, MkPte(l.pa, l.flags), x, role, sp');
  }

  lemma UnmapLeaf(mem: map<nat, Page>, own: map<nat, Role>, spaces: map<nat, Space>, r: nat, v: nat)
    requires Owned(mem, own, spaces) && r in spaces && v in spaces[r].leaf && v / ENTRIES in spaces[r].low
    requires IsTable(mem, spaces[r].low[v / ENTRIES])
    ensures Owned(Entered(mem, spaces[r], v, 0), OwnUnmapped(own, v, spaces[r].leaf[v].pa),
              spaces[r := WithoutLeaf(spaces[r], v)])
  {
    var sp, sp' := spaces[r], WithoutLeaf(spaces[r], v);
    assert SpaceOwns(own, r, sp) && Rep(mem, r, sp);
    OwnedApart(own, r, sp);
    LeafRepSet(mem, r, sp, v, sp'.leaf);
    var x, role := if v < USERTOP then sp.leaf[v].pa else r, if v < USERTOP then Held else own[r];
    assert OwnUnmapped(own, v, sp.leaf[v].pa) == own[x := role];
    SetLeafOwned(mem, own, spaces, r, v, 0, x, role, sp');
  }

  lemma SetLeafOwned(mem: map<nat, Page>, own: map<nat, Role>, spaces: map<nat, Space>, r: nat, v: nat, pte: nat,
                     x: nat, role: Role, sp': Space)
    requires Owned(mem, own, spaces) && r in spaces && v / ENTRIES in spaces[r].low
             && IsTable(mem, spaces[r].low[v / ENTRIES])
    requires Rep(Entered(mem, spaces[r], v, pte), r, sp') && sp'.mid == spaces[r].mid && sp'.low == spaces[r].low
    requires Elsewhere(spaces[r].leaf, sp'.leaf, v) && x in own
    requires if v >= USERTOP then x == r && role == own[r]
             else if v in sp'.leaf then v !in spaces[r].leaf && own[x] == Held && role == Data(r, v)
                 && HoldsBytes(mem, x) && sp'.leaf[v].pa == x
             else own[x] == Data(r, v) && role == Held
    ensures Owned(Entered(mem, spaces[r], v, pte), own[x := role], spaces[r := sp'])
  {
    var q := spaces[r].low[v / ENTRIES];
    var page := SetEntry(mem[q], v % ENTRIES, pte);
    assert SpaceOwns(own, r, spaces[r]);
    RepsUpdated(mem, own, spaces, r, q, page, sp');
    OwnsUpdated(own, spaces, r, x, role, sp');
    forall p | p in own && p != x && !own[p].Held? && own[p].r == r && RoleIn(spaces[r], p, own[p])
      ensures RoleIn(sp', p, own[p])
    {
      assert own[x] == Data(r, v) ==> RoleIn(spaces[r], x, own[x]);
    }
    RolesUpdated(own, spaces, r, x, role, sp');
    ContentsUpdated(mem, own, q, page, x, role);
  }

  /** A fresh table is the root of an address space that maps nothing. */
  lemma NewSpace(mem: map<nat, Page>, own: map<nat, Role>, spaces: map<nat, Space>, r: nat)
    requires Owned(mem, own, spaces) && r in own && own[r] == Held && mem[r] == ZeroTable()
    requires forall p :: p in own && !own[p].Held? ==> own[p].r != r
    ensures r !in spaces && Owned(mem, own[r := Root(r)], spaces[r := Space(map[], map[], map[])])
  {
    var sp := Space(map[], map[], map[]);
    assert RootRep(mem, r, sp);
    OwnsUpdated(own, spaces, r, r, Root(r), sp);
  }

  /** An address space that is given up leaves its pages with their roles, which bind nobody. */
  lemma DropSpace(mem: map<nat, Page>, own: map<nat, Role>, spaces: map<nat, Space>, r: nat)
    requires Owned(mem, own, spaces)
    ensures Owned(mem, own, spaces - {r})
  {}
}
