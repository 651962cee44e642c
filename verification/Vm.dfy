/** kernel/kalloc.c, kernel/vm.c and the address-space parts of kernel/proc.c. */
module Vm {
  import opened Words
  import opened PageTables
  import opened VmCount
  import opened VmTrace
  import opened VmState
  import opened VmFree
  import opened UserMemory

  class Kernel {
    const lo: nat            // the first page above the kernel
    const trampoline: nat    // the page of the trampoline code
    var k: K

    ghost predicate Valid()
      reads this
    {
      Inv(lo, k, 0) && trampoline % PGSIZE == 0
    }

    /** kinit(): every page from `end` to PHYSTOP is free. */
    constructor (end: nat, trampoline: nat)
      requires KERNBASE <= end <= PHYSTOP && trampoline % PGSIZE == 0
      ensures Valid() && lo == RoundUp(end) && this.trampoline == trampoline && k.own == map[] && k.spaces == map[]
    {
      this.lo, this.trampoline := RoundUp(end), trampoline;
      k := Boot(RoundUp(end));
      new;
      BootListed(lo);
      FreeRange(lo, PHYSTOP);
    }

    /** freerange(), when the kernel holds the pages from start on. */
    method FreeRange(start: nat, end: nat)
      requires Listed(lo, k) && start % PGSIZE == 0 && end == PHYSTOP && HoldsFrom(k, start)
      modifies this
      ensures k.own == map[] && k.spaces == map[] && Inv(lo, k, 0)
    {
      var p: nat := start;
      while p + PGSIZE <= end
        invariant Listed(lo, k) && p % PGSIZE == 0 && HoldsFrom(k, p)
        decreases end - p
      {
        var next: nat := p + PGSIZE;
        NextHeld(k, p, next);
        Kfree(p);
        p := next;
      }
      NoneHeld(lo, k, p);
    }

    /** kalloc(): the first page of the free list, or 0. */
    method Kalloc() returns (p: nat)
      requires Valid()
      modifies this
      ensures p == 0 <==> old(k.free) == []
      ensures p == 0 ==> k == old(k)
      ensures p != 0 ==>
                p == old(k.free)[0] && p !in old(k.own) && Managed(lo, p) && p in old(k.mem) && old(k.mem)[p].Run?
      ensures p != 0 ==> k == Allocated(old(k))
      ensures Valid()
    {
      p := k.freelist;
      if p != 0 {
        Popped(lo, k);
        AllocatedInv(lo, k, 0);
        k := K(k.mem[p := Junk(5)], k.mem[p].next, k.free[1..], k.own[p := Held], k.spaces);
      }
    }

    /** kfree(): give back a page in use. */
    method Kfree(pa: nat)
      requires Listed(lo, k) && pa in k.own
      modifies this
      ensures k == Freed(old(k), pa)
      ensures Listed(lo, k)
    {
      if pa % PGSIZE != 0 || pa < lo || pa >= PHYSTOP {
        assert false;
      }
      Pushed(lo, k, pa);
      k := K(k.mem[pa := Run(k.freelist)], pa, [pa] + k.free, k.own - {pa}, k.spaces);
    }

    /** The allocation in walk(): a zeroed page becomes the table of va below a level. */
    method NewTable(root: nat, pt: nat, level: nat, ghost below: nat, va: nat) returns (p: nat)
      requires Valid() && root in k.spaces && va < MAXVA && 0 < level <= 2 && below == level - 1
      requires HasTable(k.spaces[root], level, PageNo(va)) && !HasTable(k.spaces[root], below, PageNo(va))
      requires pt == TableAt(root, k.spaces[root], level, PageNo(va))
      modifies this
      ensures p == 0 ==> k.free == [] && k == old(k)
      ensures p != 0 ==> Tabled(old(k), k, root) && Stepped(old(k), k, root, level, PageNo(va))
      ensures p != 0 ==>
                HasTable(k.spaces[root], below, PageNo(va)) && p == TableAt(root, k.spaces[root], below, PageNo(va))
      ensures Valid()
    {
      ghost var v := PageNo(va);
      TableIsOwned(lo, k, root, level, v);
      p := Kalloc();
      if p != 0 {
        InstallTable(lo, k, root, level, va, p, pt);
        InstalledTabled(old(k), root, level, v, p, pt, Px(level, va));
        k := k.(mem := k.mem[p := ZeroTable()][pt := SetEntry(k.mem[pt], Px(level, va), MkPte(p, PTE_V))],
                own := k.own[p := TableRole(root, level, v)],
                spaces := k.spaces[root := WithTable(k.spaces[root], level, v, p)]);
        NewTableSteps(old(k), k, root, level, v, p);
      }
    }

    /** One level of walk()'s loop: the table below, if there is one or it could be allocated. */
    method Descend(root: nat, pt: nat, level: nat, ghost below: nat, va: nat, alloc: bool) returns (next: nat)
      requires Valid() && root in k.spaces && va < MAXVA && 0 < level <= 2 && below == level - 1
      requires HasTable(k.spaces[root], level, PageNo(va)) && pt == TableAt(root, k.spaces[root], level, PageNo(va))
      modifies this
      ensures !alloc ==> k == old(k)
      ensures Tabled(old(k), k, root)
      ensures next == 0 ==> k == old(k) && !HasTable(k.spaces[root], below, PageNo(va)) && (alloc ==> k.free == [])
      ensures next != 0 ==>
                HasTable(k.spaces[root], below, PageNo(va)) && next == TableAt(root, k.spaces[root], below, PageNo(va))
                && Stepped(old(k), k, root, level, PageNo(va))
      ensures Valid()
    {
      Follows(lo, k, root, level, va);
      TabledSelf(k, root);
      var pte := k.mem[pt].ptes[Px(level, va)];
      if PteValid(pte) {
        next := PteAddr(pte);
        TableIsOwned(lo, k, root, below, PageNo(va));
        SameSteps(k, root, level, PageNo(va));
      } else if alloc {
        next := NewTable(root, pt, level, below, va);
      } else {
        next := 0;
      }
    }

    /** walk(): the lowest-level table of va, or 0; with alloc, missing tables are created. */
    method Walk(root: nat, va: nat, alloc: bool) returns (pt: nat)
      requires Valid() && root in k.spaces && va < MAXVA
      modifies this
      ensures !alloc ==> k == old(k)
      ensures Tabled(old(k), k, root)
      ensures pt == 0 ==> if alloc then k.free == [] else va / PGSIZE / ENTRIES !in k.spaces[root].low
      ensures pt != 0 ==> va / PGSIZE / ENTRIES in k.spaces[root].low && pt == k.spaces[root].low[va / PGSIZE / ENTRIES]
      ensures pt != 0 ==> Took(old(k), k, root, PageNo(va), 1, 0)
      ensures pt == 0 && alloc ==> Short(old(k), root, PageNo(va), 1, 0) && Stock(old(k), root) == Stock(k, root)
      ensures Valid()
    {
      pt := root;
      var level: nat := 2;
      while level > 0
        invariant level <= 2 && Valid() && Tabled(old(k), k, root) && Down(old(k), k, root, level, PageNo(va))
        invariant !alloc ==> k == old(k)
        invariant HasTable(k.spaces[root], level, PageNo(va)) && pt == TableAt(root, k.spaces[root], level, PageNo(va))
      {
        ghost var k1 := k;
        var below: nat := level - 1;
        pt := Descend(root, pt, level, below, va, alloc);
        TabledTwice(old(k), k1, k, root);
        if pt == 0 {
          TablesAbove(lo, k, root, PageNo(va));
          if alloc { DownShort(old(k), k, root, level, PageNo(va)); }
          return;
        }
        DownStep(old(k), k1, k, root, level, PageNo(va), below);
        level := below;
      }
      DownTook(old(k), k, root, PageNo(va));
      TableIsOwned(lo, k, root, 0, PageNo(va));
    }

    /** walkaddr(): the physical page of a user-accessible virtual address, or 0. */
    method WalkAddr(root: nat, va: nat) returns (pa: nat)
      requires Valid() && root in k.spaces
      modifies this
      ensures k == old(k) && pa == Translate(k.spaces[root], va)
    {
      if va >= MAXVA {
        return 0;
      }
      var pt := Walk(root, va, false);
      if pt == 0 {
        TablesAbove(lo, k, root, va / PGSIZE);
        return 0;
      }
      FindsLeaf(lo, k, root, va);
      var pte := k.mem[pt].ptes[Px(0, va)];
      if !PteValid(pte) {
        return 0;
      }
      if !HasUser(PteFlags(pte)) {
        return 0;
      }
      pa := PteAddr(pte);
    }

    /** One page of mappages(). */
    method MapPage(root: nat, a: nat, pa: nat, perm: nat) returns (ok: bool)
      requires Valid() && root in k.spaces && a < MAXVA && a % PGSIZE == 0 && perm < 1024 && IsLeaf(perm)
      requires CanMap(k, root, PageNo(a), pa, WithValid(perm))
      modifies this
      ensures !ok ==> k.free == [] && Tabled(old(k), k, root)
      ensures ok ==> MappedOne(old(k), k, root, PageNo(a), Leaf(pa, WithValid(perm)))
      ensures if ok then Took(old(k), k, root, PageNo(a), 1, 0) else Short(old(k), root, PageNo(a), 1, 0)
      ensures !ok ==> Stock(old(k), root) == Stock(k, root)
      ensures Valid()
    {
      var pt := Walk(root, a, true);
      if pt == 0 {
        return false;
      }
      FindsLeaf(lo, k, root, a);
      if PteValid(k.mem[pt].ptes[Px(0, a)]) {
        assert false;
      }
      ghost var v, l := PageNo(a), Leaf(pa, WithValid(perm));
      TableIsOwned(lo, k, root, 0, v);
      EnterLeaf(lo, k, pt, root, v, l);
      EnteredMapped(old(k), k, pt, root, v, l);
      ghost var k1 := k;
      k := k.(mem := k.mem[pt := SetEntry(k.mem[pt], Px(0, a), MkPte(pa, WithValid(perm)))],
              own := OwnMapped(k.own, root, v, pa),
              spaces := k.spaces[root := WithLeaf(k.spaces[root], v, l)]);
      TookSame(old(k), k1, k, root, v, 1, 0);
      return true;
    }

    /** One pass of mappages(), after n pages. */
    method MapNext(root: nat, a: nat, p: nat, perm: nat, ghost k0: K, ghost v: nat, ghost n: nat, ghost pa: nat)
        returns (ok: bool, ghost m: nat)
      requires Valid() && perm < 1024 && IsLeaf(perm) && a < MAXVA && a % PGSIZE == 0 && PageNo(a) == Nth(v, n)
               && p == PageAddr(pa, n)
      requires MappedRange(k0, k, root, v, n, pa, WithValid(perm))
               && CanMap(k0, root, Nth(v, n), PageAddr(pa, n), WithValid(perm))
      requires Took(k0, k, root, v, n, 0)
      modifies this
      ensures m == (if ok then n + 1 else n) && MappedRange(k0, k, root, v, m, pa, WithValid(perm))
      ensures !ok ==> k.free == [] && Stock(k0, root) == Stock(k, root)
      ensures if ok then Took(k0, k, root, v, m, 0) else Short(k0, root, v, Nth(n, 1), 0)
      ensures Valid()
    {
      StillReady(k0, k, root, v, n, pa, WithValid(perm));
      ok := MapPage(root, a, p, perm);
      m := if ok then n + 1 else n;
      if ok {
        TookNext(k0, old(k), k, root, v, n, 0, 0, m, 0);
        MappedNext(k0, old(k), k, root, v, n, pa, WithValid(perm));
      } else {
        ShortBefore(k0, old(k), root, v, n, 0, 0, Nth(n, 1), 0);
        MappedTabled(k0, old(k), k, root, v, n, pa, WithValid(perm));
      }
    }

    /**
     mappages(): map the pages of [va, va + size) to successive pages from pa on.
     Returns whether all could be mapped; n is how many were.
     */
    method Mappages(root: nat, va: nat, size: nat, pa: nat, perm: nat) returns (ok: bool, ghost n: nat)
      requires Valid() && root in k.spaces && 0 < size && va + size <= MAXVA && perm < 1024 && IsLeaf(perm)
      requires forall j :: 0 <= j < PageCount(va, size) ==>
                 CanMap(k, root, Nth(PageNo(va), j), PageAddr(pa, j), WithValid(perm))
      modifies this
      ensures n <= PageCount(va, size) && (ok <==> n == PageCount(va, size))
      ensures MappedRange(old(k), k, root, PageNo(va), n, pa, WithValid(perm))
      ensures !ok ==> k.free == [] && Stock(old(k), root) == Stock(k, root)
      ensures ok <==> !Short(old(k), root, PageNo(va), PageCount(va, size), 0)
      ensures ok ==> Took(old(k), k, root, PageNo(va), n, 0)
      ensures Valid()
    {
      var a: nat, p: nat := RoundDown(va), pa;
      var last := RoundDown(va + size - 1);
      n, ok := 0, true;
      var more := true;
      Starts(va, size, pa);
      TookNone(k, root, PageNo(va));
      while more
        invariant Valid() && MappedRange(old(k), k, root, PageNo(va), n, pa, WithValid(perm))
        invariant Progress(va, size, pa, n, a, p, more, ok)
        invariant Counted(old(k), k, root, PageNo(va), n, PageCount(va, size), ok)
        decreases if more then PageCount(va, size) - n else 0
      {
        InRange(va, size, n, a, p, pa);
        ghost var n0, a0, p0 := n, a, p;
        ok, n := MapNext(root, a, p, perm, old(k), PageNo(va), n, pa);
        CountedNext(old(k), k, root, PageNo(va), n, Nth(n0, 1), PageCount(va, size), ok);
        more := ok && a != last;
        a := a + PGSIZE;
        p := p + PGSIZE;
        Progresses(va, size, pa, n0, a0, p0, ok, n, a, p, more);
      }
      CountedEnds(old(k), k, root, PageNo(va), n, PageCount(va, size), ok);
    }

    /** One page of uvmunmap(). */
    method UnmapPage(root: nat, a: nat, doFree: bool)
      requires Valid() && root in k.spaces && a < MAXVA && PageNo(a) in k.spaces[root].leaf
               && (doFree ==> PageNo(a) < USERTOP)
      modifies this
      ensures old(PageNo(a) / ENTRIES in k.spaces[root].low && IsTable(k.mem, k.spaces[root].low[PageNo(a) / ENTRIES]))
      ensures k == Unmapped(old(k), root, PageNo(a), doFree)
      ensures Valid()
    {
      TablesAbove(lo, k, root, PageNo(a));
      var pt := Walk(root, a, false);
      if pt == 0 {
        assert false;
      }
      FindsLeaf(lo, k, root, a);
      var pte := k.mem[pt].ptes[Px(0, a)];
      if !PteValid(pte) {
        assert false;
      }
      if PteFlags(pte) == PTE_V {
        assert false;
      }
      if doFree {
        FreeLeaf(lo, k, root, PageNo(a));
        TableIsOwned(lo, k, root, 0, PageNo(a));
        var pa := PteAddr(pte);
        Kfree(pa);
      } else {
        ClearLeaf(lo, k, root, PageNo(a));
        k := k.(own := OwnUnmapped(k.own, PageNo(a), PteAddr(pte)));
      }
      k := k.(mem := k.mem[pt := SetEntry(k.mem[pt], Px(0, a), 0)],
              spaces := k.spaces[root := WithoutLeaf(k.spaces[root], PageNo(a))]);
    }

    /** One pass of uvmunmap(), after n pages. */
    method UnmapStep(root: nat, a: nat, doFree: bool, ghost k0: K, ghost v: nat, ghost n: nat)
      requires Valid() && UnmappedRange(k0, k, root, v, n, doFree) && Nth(v, n) in k0.spaces[root].leaf
      requires a < MAXVA && PageNo(a) == Nth(v, n) && (doFree ==> Nth(v, n) < USERTOP)
      modifies this
      ensures UnmappedRange(k0, k, root, v, n + 1, doFree)
      ensures Valid()
    {
      TablesAbove(lo, k, root, Nth(v, n));
      TableIsOwned(lo, k, root, 0, Nth(v, n));
      UnmapNext(lo, k0, k, root, v, n, doFree);
      UnmapPage(root, a, doFree);
    }

    /** uvmunmap(): remove npages mappings from va on, which must exist, and with doFree free their pages. */
    method Uvmunmap(root: nat, va: nat, npages: nat, doFree: bool)
      requires Valid() && root in k.spaces && va % PGSIZE == 0 && PageNo(va) + npages <= VPAGES
      requires doFree ==> PageNo(va) + npages <= USERTOP
      requires forall j :: 0 <= j < npages ==> Nth(PageNo(va), j) in k.spaces[root].leaf
      modifies this
      ensures UnmappedRange(old(k), k, root, PageNo(va), npages, doFree)
      ensures Valid()
    {
      UnmapNothing(k, root, PageNo(va), doFree);
      var a := va;
      ghost var n := 0;
      while a < va + npages * PGSIZE
        invariant n <= npages && a == PageAddr(va, n) && Valid()
                  && UnmappedRange(old(k), k, root, PageNo(va), n, doFree)
        decreases npages - n
      {
        NextPage(va, n, npages);
        UnmapStep(root, a, doFree, old(k), PageNo(va), n);
        a := a + PGSIZE;
        n := n + 1;
      }
      assert n == npages by { NextPage(va, n, npages); }
    }

    /** One entry of freewalk()'s loop. */
    method FreeEntry(pt: nat, i: nat, ghost r: nat, ghost level: nat, ghost pos: nat, ghost sp: Space, ghost k0: K)
      requires Inv(lo, k0, r) && Inv(lo, k, r) && level <= 2 && i < ENTRIES && Dying(k0, r, sp)
               && Tree(k0, r, level, pos, sp)
      requires pt == SubTable(r, sp, level, pos) && Walked(k0, k, r, level, pos, pt, i)
      modifies this
      ensures Walked(k0, k, r, level, pos, pt, i + 1)
      ensures Inv(lo, k, r)
      decreases level, 0
    {
      EntryIs(k0, r, level, pos, sp, i);
      var pte := k.mem[pt].ptes[i];
      if PteValid(pte) && !IsLeaf(PteFlags(pte)) {
        var child := PteAddr(pte);
        ChildStays(k0, k, r, level, pos, sp, i);
        DyingLess(k0, k, r, sp, pt);
        ghost var k1 := k;
        FreeWalk(child, r, level - 1, Child(level, pos, i), sp);
        ChildGone(k0, k1, k, r, level, pos, pt, i);
        ClearEntry(lo, k, r, pt, SetEntry(k.mem[pt], i, 0));
        k := k.(mem := k.mem[pt := SetEntry(k.mem[pt], i, 0)]);
      } else if PteValid(pte) {
        assert false;
      } else {
        DropNothing(k0, r, level, pos, sp, i);
      }
    }

    /** freewalk(): free a table and the tables below it; there are no leaves. */
    method FreeWalk(pt: nat, ghost r: nat, ghost level: nat, ghost pos: nat, ghost sp: Space)
      requires Inv(lo, k, r) && level <= 2 && Dying(k, r, sp) && Tree(k, r, level, pos, sp)
               && pt == SubTable(r, sp, level, pos)
      modifies this
      ensures k.own == Without(old(k).own, r, level, pos) && Kept(old(k), k, -1)
      ensures Inv(lo, k, r)
      decreases level, 1
    {
      WalkStart(lo, k, r, level, pos, sp);
      var i := 0;
      while i < 512
        invariant i <= ENTRIES && Inv(lo, k, r) && Walked(old(k), k, r, level, pos, pt, i)
      {
        FreeEntry(pt, i, r, level, pos, sp, old(k));
        i := i + 1;
      }
      DropTable(old(k), r, level, pos, sp);
      FreedInv(lo, k, pt, r);
      Kfree(pt);
    }

    /** uvmcreate(): an address space that maps nothing, or 0. */
    method Uvmcreate() returns (root: nat)
      requires Valid()
      modifies this
      ensures root == 0 <==> old(k.free) == []
      ensures root == 0 ==> k == old(k)
      ensures root != 0 ==>
                root == old(k.free)[0] && root !in old(k.spaces) && root !in old(k.own) && root in old(k.mem)
                && old(k.mem)[root].Run?
      ensures root != 0 ==> k == Created(old(k))
      ensures Valid()
    {
      if k.freelist != 0 { CreatedInv(lo, k); }
      root := Kalloc();
      if root != 0 {
        k := k.(mem := k.mem[root := ZeroTable()], own := k.own[root := Root(root)],
              spaces := k.spaces[root := Space(map[], map[], map[])]);
      }
    }

    /** uvmfree(): free a user memory of sz bytes, then the tables. */
    method Uvmfree(root: nat, sz: nat)
      requires Valid() && root in k.spaces && Sized(k.spaces[root], sz)
               && (forall v :: v in k.spaces[root].leaf ==> v < USERTOP)
      modifies this
      ensures Gone(old(k), k, root)
      ensures Valid()
    {
      if sz > 0 {
        Uvmunmap(root, 0, RoundUp(sz) / PGSIZE, true);
      }
      CutAll(old(k), k, root, sz);
      GivenUp(lo, k, root);
      ghost var sp, k1 := k.spaces[root], k;
      k := k.(spaces := k.spaces - {root});
      FreeWalk(root, root, 2, 0, sp);
      AllGone(lo, k1, k, root);
      CutGone(old(k), k1, k, root, sz);
    }

    /**
     The loop body that uvmalloc() and uvmcopy() share: allocate a page, fill it and
     map it at a; if that fails, give it back.
     */
    method PutPage(root: nat, a: nat, page: Page, perm: nat) returns (ok: bool)
      requires Valid() && root in k.spaces && a % PGSIZE == 0 && PageNo(a) < USERTOP
               && PageNo(a) !in k.spaces[root].leaf
      requires page.Bytes? && |page.data| == PGSIZE && perm < 1024 && IsLeaf(perm)
      modifies this
      ensures ok ==> PutOne(old(k), k, root, PageNo(a), page, WithValid(perm))
      ensures !ok ==> Tabled(old(k), k, root)
      ensures if ok then Took(old(k), k, root, PageNo(a), 1, 1) else Short(old(k), root, PageNo(a), 1, 1)
      ensures Valid()
    {
      if k.freelist != 0 { FilledInv(lo, k, page); }
      var p := Kalloc();
      if p == 0 {
        NonePage(k, root, PageNo(a));
        return false;
      }
      k := k.(mem := k.mem[p := page]);
      ghost var k1 := k;
      ok := MapOne(root, a, p, perm);
      TookPage(old(k), k1, k, root, PageNo(a));
      if ok {
        PutPageOk(lo, old(k), k, root, PageNo(a), page, WithValid(perm));
      } else {
        PutPageFailed(lo, old(k), k, root, page);
        Kfree(p);
      }
    }

    /** mappages() of one page. */
    method MapOne(root: nat, a: nat, pa: nat, perm: nat) returns (ok: bool)
      requires Valid() && root in k.spaces && a % PGSIZE == 0 && a < MAXVA
               && CanMap(k, root, PageNo(a), pa, WithValid(perm)) && perm < 1024 && IsLeaf(perm)
      modifies this
      ensures ok ==> MappedOne(old(k), k, root, PageNo(a), Leaf(pa, WithValid(perm)))
      ensures !ok ==> Tabled(old(k), k, root) && Stock(old(k), root) == Stock(k, root)
      ensures if ok then Took(old(k), k, root, PageNo(a), 1, 0) else Short(old(k), root, PageNo(a), 1, 0)
      ensures Valid()
    {
      OnePageRange(k, root, a, pa, WithValid(perm));
      ghost var n;
      ok, n := Mappages(root, a, PGSIZE, pa, perm);
      OnePageMapped(old(k), k, root, PageNo(a), n, pa, WithValid(perm));
    }

    /** uvmdealloc(): bring a user memory of oldsz bytes down to newsz, by n pages. */
    method Uvmdealloc(root: nat, oldsz: nat, newsz: nat) returns (sz: nat, ghost n: nat)
      requires Valid() && root in k.spaces && Sized(k.spaces[root], oldsz)
      modifies this
      ensures sz == (if newsz >= oldsz then oldsz else newsz) && Pages(oldsz) == Nth(Pages(sz), n)
      ensures UnmappedRange(old(k), k, root, Pages(sz), n, true)
      ensures Sized(k.spaces[root], sz)
      ensures Valid()
    {
      n := 0;
      sz := if newsz >= oldsz then oldsz else newsz;
      UnmapNothing(k, root, Pages(sz), true);
      if newsz >= oldsz {
        return;
      }
      PagesOrder(newsz, oldsz);
      if RoundUp(newsz) < RoundUp(oldsz) {
        var npages := (RoundUp(oldsz) - RoundUp(newsz)) / PGSIZE;
        n := npages;
        Uvmunmap(root, RoundUp(newsz), npages, true);
        SizedCut(old(k).spaces[root], k.spaces[root], newsz, oldsz, n);
      }
    }

    /** One pass of uvmalloc(), after pages n to PageNo(a). */
    method AllocStep(root: nat, a: nat, perm: nat, ghost k0: K, ghost n: nat) returns (ok: bool, ghost next: nat)
      requires Valid() && a % PGSIZE == 0 && n <= PageNo(a) < USERTOP && perm < 1024 && IsLeaf(perm)
      requires Grown(k0, k, root, n, PageNo(a), WithValid(perm)) && PageNo(a) !in k.spaces[root].leaf
      modifies this
      ensures next == (if ok then Nth(PageNo(a), 1) else PageNo(a)) && Grown(k0, k, root, n, next, WithValid(perm))
      ensures if ok then Took(old(k), k, root, PageNo(a), 1, 1) else Short(old(k), root, PageNo(a), 1, 1)
      ensures Valid()
    {
      assert SpaceOwns(k.own, root, k.spaces[root]);
      ok := PutPage(root, a, Junk(0), perm);
      next := if ok then Nth(PageNo(a), 1) else PageNo(a);
      if ok {
        GrownOne(k0, old(k), k, root, n, PageNo(a), WithValid(perm));
      } else {
        GrownTabled(k0, old(k), k, root, n, PageNo(a), WithValid(perm));
      }
    }

    /** The same, with the address of the next pass, or the same if memory ran out. */
    method AllocNext(root: nat, oldsz: nat, newsz: nat, perm: nat, a: nat, ghost k0: K) returns (a': nat, ok: bool)
      requires Valid() && root in k0.spaces && Sized(k0.spaces[root], oldsz) && perm < 1024 && IsLeaf(perm)
      requires a % PGSIZE == 0 && Pages(oldsz) <= PageNo(a) <= USERTOP && a < newsz
      requires Grown(k0, k, root, Pages(oldsz), PageNo(a), WithValid(perm))
      requires Filling(k0, k, root, Pages(oldsz), a, newsz, true)
      modifies this
      ensures a' == (if ok then a + PGSIZE else a) && a' % PGSIZE == 0 && Pages(oldsz) <= PageNo(a') <= USERTOP
      ensures Grown(k0, k, root, Pages(oldsz), PageNo(a'), WithValid(perm))
      ensures Filling(k0, k, root, Pages(oldsz), a', newsz, ok)
      ensures Valid()
    {
      NextIsFree(lo, k0, k, root, oldsz, PageNo(a));
      ghost var next;
      ok, next := AllocStep(root, a, perm, k0, Pages(oldsz));
      var b := a + PGSIZE;
      NextAddr(a, b);
      FillingNext(k0, old(k), k, root, Pages(oldsz), a, newsz, b);
      a' := if ok then b else a;
    }

    /** The loop of uvmalloc(): pages from start on, up to newsz or until memory runs out. */
    method AllocPages(root: nat, oldsz: nat, newsz: nat, perm: nat) returns (a: nat, ok: bool)
      requires Valid() && root in k.spaces && Sized(k.spaces[root], oldsz) && oldsz <= newsz && perm < 1024
               && IsLeaf(perm)
      modifies this
      ensures a % PGSIZE == 0 && Pages(a) == PageNo(a) && Pages(oldsz) <= PageNo(a)
              && (ok ==> PageNo(a) == Pages(newsz))
      ensures RoundUp(oldsz) <= a && Grown(old(k), k, root, Pages(oldsz), PageNo(a), WithValid(perm))
      ensures Sized(k.spaces[root], a) && (ok <==> !TooFew(old(k), root, Pages(oldsz), Pages(newsz)))
      ensures Valid()
    {
      a, ok := RoundUp(oldsz), true;
      GrownNothing(k, root, Pages(oldsz), WithValid(perm));
      SpentNone(k, root, Pages(oldsz));
      while ok && a < newsz
        invariant RoundUp(oldsz) <= a && a % PGSIZE == 0 && Pages(oldsz) <= PageNo(a) <= USERTOP
        invariant a < newsz + PGSIZE && Valid() && Grown(old(k), k, root, Pages(oldsz), PageNo(a), WithValid(perm))
        invariant Filling(old(k), k, root, Pages(oldsz), a, newsz, ok)
        decreases ok, newsz + PGSIZE - a
      {
        a, ok := AllocNext(root, oldsz, newsz, perm, a, old(k));
      }
      AlignedPages(a, newsz);
      FillingEnds(old(k), k, root, Pages(oldsz), a, newsz, ok);
      SizedExtended(old(k), k, root, oldsz, a);
    }

    /**
     uvmalloc(): bring a user memory of oldsz bytes up to newsz. Returns newsz, or 0
     if memory ran out, and then no page is mapped that was not before.
     */
    method Uvmalloc(root: nat, oldsz: nat, newsz: nat, xperm: nat) returns (r: nat, ghost ok: bool)
      requires Valid() && root in k.spaces && Sized(k.spaces[root], oldsz) && xperm in {0, PTE_W, PTE_X, PTE_W + PTE_X}
      modifies this
      ensures newsz < oldsz ==> ok && r == oldsz && k == old(k)
      ensures newsz >= oldsz ==> r == if ok then newsz else 0
      ensures newsz >= oldsz ==> (ok <==> !TooFew(old(k), root, Pages(oldsz), Pages(newsz)))
      ensures newsz >= oldsz && ok ==> Grown(old(k), k, root, Pages(oldsz), Pages(newsz), WithValid(UserPerm(xperm)))
      ensures ok ==> Sized(k.spaces[root], r)
      ensures !ok ==> Tabled(old(k), k, root)
      ensures Valid()
    {
      ok := true;
      if newsz < oldsz {
        return oldsz, true;
      }
      var a, done := AllocPages(root, oldsz, newsz, UserPerm(xperm));
      ok := done;
      if done {
        SizedSame(k.spaces[root], a, newsz);
        return newsz, true;
      }
      ghost var k1 := k;
      var sz;
      ghost var n;
      sz, n := Uvmdealloc(root, a, RoundUp(oldsz));
      BackTo(oldsz, a, sz);
      OnlyBelow(old(k).spaces[root], oldsz);
      ShrunkBack(lo, old(k), k1, k, root, Pages(oldsz), n);
      return 0, false;
    }

    /** One pass of uvmcopy(), after PageNo(a) pages. */
    method CopyStep(o: nat, w: nat, a: nat, ghost k0: K) returns (ok: bool)
      requires Valid() && o != w && a % PGSIZE == 0 && PageNo(a) < USERTOP && Copied(k0, k, o, w, PageNo(a))
      requires PageNo(a) in k.spaces[o].leaf && PageNo(a) !in k.spaces[w].leaf
      modifies this
      ensures ok ==> Copied(k0, k, o, w, Nth(PageNo(a), 1))
      ensures !ok ==> Extended(k0, k, w, 0, PageNo(a))
      ensures if ok then Took(old(k), k, w, PageNo(a), 1, 1) else Short(old(k), w, PageNo(a), 1, 1)
      ensures Valid()
    {
      TablesAbove(lo, k, o, PageNo(a));
      var pt := Walk(o, a, false);
      if pt == 0 {
        assert false;
      }
      FindsLeaf(lo, k, o, a);
      var pte := k.mem[pt].ptes[Px(0, a)];
      if !PteValid(pte) {
        assert false;
      }
      assert SpaceOwns(k.own, o, k.spaces[o]) && SpaceOwns(k.own, w, k.spaces[w]);
      OddFlags(PteFlags(pte));
      ok := PutPage(w, a, k.mem[PteAddr(pte)], PteFlags(pte));
      if ok {
        CopiedOne(k0, old(k), k, o, w, PageNo(a));
      } else {
        CopiedTabled(k0, old(k), k, o, w, PageNo(a));
      }
    }

    /** One pass of uvmcopy(): the address of the next, or the same if memory ran out. */
    method CopyNext(o: nat, w: nat, sz: nat, a: nat, ghost k0: K) returns (a': nat, ok: bool)
      requires Valid() && o != w && o in k0.spaces && w in k0.spaces && Sized(k0.spaces[o], sz)
               && Sized(k0.spaces[w], 0)
      requires Copying(k0, k, o, w, sz, a, true) && a < sz && Filling(k0, k, w, 0, a, sz, true)
      modifies this
      ensures Copying(k0, k, o, w, sz, a', ok) && a' == if ok then a + PGSIZE else a
      ensures Filling(k0, k, w, 0, a', sz, ok)
      ensures Valid()
    {
      NextToCopy(k0, k, o, w, sz, a);
      ok := CopyStep(o, w, a, k0);
      AlignedNext(a);
      FillingNext(k0, old(k), k, w, 0, a, sz, a + PGSIZE);
      a' := if ok then a + PGSIZE else a;
    }

    /** The loop of uvmcopy(): copy pages until sz or until memory runs out. */
    method CopyPages(o: nat, w: nat, sz: nat) returns (a: nat, ok: bool)
      requires Valid() && o != w && o in k.spaces && w in k.spaces && Sized(k.spaces[o], sz) && Sized(k.spaces[w], 0)
      modifies this
      ensures Copying(old(k), k, o, w, sz, a, ok) && (ok ==> PageNo(a) == Pages(sz))
      ensures ok <==> !TooFew(old(k), w, 0, Pages(sz))
      ensures Valid()
    {
      a, ok := 0, true;
      CopiedNothing(k, o, w, sz);
      SpentNone(k, w, 0);
      while ok && a < sz
        invariant Copying(old(k), k, o, w, sz, a, ok) && Valid()
        invariant Filling(old(k), k, w, 0, a, sz, ok)
        decreases ok, sz + PGSIZE - a
      {
        a, ok := CopyNext(o, w, sz, a, old(k));
      }
      AlignedPages(a, sz);
      FillingEnds(old(k), k, w, 0, a, sz, ok);
    }

    /**
     uvmcopy(): give w copies of the user pages of o. If memory runs out, w is left
     without any, and false is returned.
     */
    method Uvmcopy(o: nat, w: nat, sz: nat) returns (ok: bool)
      requires Valid() && o != w && o in k.spaces && w in k.spaces && Sized(k.spaces[o], sz) && Sized(k.spaces[w], 0)
      modifies this
      ensures ok ==> Copied(old(k), k, o, w, Pages(sz)) && Sized(k.spaces[w], sz)
      ensures !ok ==> Tabled(old(k), k, w)
      ensures ok <==> !TooFew(old(k), w, 0, Pages(sz))
      ensures Valid()
    {
      var a;
      a, ok := CopyPages(o, w, sz);
      if ok {
        SizedCopied(old(k), k, w, sz);
      } else {
        ghost var k1 := k;
        UserOnly(old(k), k, w, PageNo(a), sz);
        Uvmunmap(w, 0, a / PGSIZE, true);
        ShrunkBack(lo, old(k), k1, k, w, 0, PageNo(a));
      }
    }

    /** A mapping above user memory in a new address space. */
    method MapSpecial(root: nat, a: nat, pa: nat, perm: nat, ghost k0: K) returns (ok: bool)
      requires Valid() && Born(k0, k, root) && (a == TRAMPOLINE || a == TRAPFRAME) && pa % PGSIZE == 0
      requires PageNo(a) !in k.spaces[root].leaf && SpecialPerm(perm)
      modifies this
      ensures Born(k0, k, root)
      ensures ok ==> k.spaces[root].leaf == old(k).spaces[root].leaf[PageNo(a) := Leaf(pa, WithValid(perm))]
      ensures !ok ==> k.spaces[root].leaf == old(k).spaces[root].leaf
      ensures if ok then Took(old(k), k, root, PageNo(a), 1, 0) else Short(old(k), root, PageNo(a), 1, 0)
      ensures Valid()
    {
      SpecialPages(a);
      ok := MapOne(root, a, pa, perm);
      BornGrew(k0, old(k), k, root);
    }

    /** uvmfree() of a new address space that maps nothing. */
    method FreeBorn(root: nat, ghost k0: K)
      requires Valid() && Inv(lo, k0, 0) && Born(k0, k, root) && k.spaces[root].leaf == map[]
      modifies this
      ensures Same(k0, k)
      ensures Valid()
    {
      SizedEmpty(k.spaces[root]);
      Uvmfree(root, 0);
      BornGone(lo, k0, old(k), k, root);
    }

    /** proc_pagetable(): an address space with only the trampoline and the trapframe, or 0 and no trace. */
    method ProcPagetable(tf: nat) returns (root: nat)
      requires Valid() && tf % PGSIZE == 0
      modifies this
      ensures root == 0 <==> |old(k).free| < 3
      ensures root == 0 ==> Same(old(k), k)
      ensures root != 0 ==> Born(old(k), k, root) && ProcSpace(k.spaces[root], 0)
      ensures root != 0 ==> k.spaces[root].leaf == ProcLeaf(trampoline, tf) && Fresh(old(k), k, root)
      ensures Valid()
    {
      if k.freelist != 0 { CreatedBorn(lo, k); }
      root := Uvmcreate();
      if root != 0 {
        ghost var k1 := k;
        var ok := MapSpecials(root, tf, old(k));
        if ok {
          SpecialsFresh(old(k), k1, k, root);
          ProcLeafSpace(k.spaces[root], trampoline, tf);
        } else {
          FreeBorn(root, old(k));
          root := 0;
        }
      }
    }

    /** The two mappings of proc_pagetable(): both are made, or none is left. */
    method MapSpecials(root: nat, tf: nat, ghost k0: K) returns (ok: bool)
      requires Valid() && tf % PGSIZE == 0 && Born(k0, k, root) && k.spaces[root] == BARE
      modifies this
      ensures Born(k0, k, root) && (ok <==> |old(k).free| >= 2)
      ensures ok ==> k.spaces[root].leaf == ProcLeaf(trampoline, tf) && Took(old(k), k, root, PageNo(TRAMPOLINE), 1, 0)
      ensures !ok ==> k.spaces[root].leaf == map[]
      ensures Valid()
    {
      SpecialPages(TRAMPOLINE);
      SpecialPages(TRAPFRAME);
      AddedAndRemoved(PageNo(TRAMPOLINE), Leaf(trampoline, WithValid(PTE_R + PTE_X)));
      ok := MapSpecial(root, TRAMPOLINE, trampoline, PTE_R + PTE_X, k0);
      if ok {
        ghost var k1 := k;
        ok := MapSpecial(root, TRAPFRAME, tf, PTE_R + PTE_W, k0);
        if ok {
          SpecialsTook(old(k), k1, k, root);
        } else {
          UnmapSpecial(root, TRAMPOLINE, k0);
        }
        TrapframeFits(old(k), k1, root);
        TookFits(old(k), k1, root, PageNo(TRAMPOLINE), 1, 0);
      }
      SpecialTables(old(k), root);
    }

    /** Remove a mapping above user memory. */
    method UnmapSpecial(root: nat, a: nat, ghost k0: K)
      requires Valid() && root in k.spaces && (a == TRAMPOLINE || a == TRAPFRAME) && PageNo(a) in k.spaces[root].leaf
      modifies this
      ensures UnmappedRange(old(k), k, root, PageNo(a), 1, false)
      ensures k.spaces[root].leaf == old(k).spaces[root].leaf - {PageNo(a)} && k.own == old(k).own
      ensures Born(k0, old(k), root) ==> Born(k0, k, root)
      ensures Valid()
    {
      SpecialPages(a);
      KeptAbove(lo, k, root, PageNo(a), 1);
      Uvmunmap(root, a, 1, false);
      UnmappedSpecial(k0, old(k), k, root, PageNo(a));
    }

    /** The two calls of uvmunmap() in proc_freepagetable(). */
    method UnmapSpecials(root: nat, ghost sz: nat)
      requires Valid() && root in k.spaces && ProcSpace(k.spaces[root], sz)
      modifies this
      ensures Stripped(old(k), k, root)
      ensures Sized(k.spaces[root], sz) && forall v :: v in k.spaces[root].leaf ==> v < USERTOP
      ensures Valid()
    {
      LeafBound(lo, k, root);
      SpecialPages(TRAMPOLINE);
      UnmapSpecial(root, TRAMPOLINE, k);
      ghost var k1 := k;
      UnmapSpecial(root, TRAPFRAME, k);
      StrippedBoth(old(k), k1, k, root, sz);
    }

    /** proc_freepagetable(): free a process's address space, tables and user memory. */
    method ProcFreepagetable(root: nat, sz: nat)
      requires Valid() && root in k.spaces && ProcSpace(k.spaces[root], sz)
      modifies this
      ensures Gone(old(k), k, root)
      ensures Valid()
    {
      UnmapSpecials(root, sz);
      ghost var k1 := k;
      Uvmfree(root, sz);
      StrippedGone(old(k), k1, k, root);
    }

    /** The part of growproc() for n > 0. */
    method GrowBy(root: nat, sz: nat, n: nat) returns (sz': nat, ok: bool)
      requires Valid() && root in k.spaces && ProcSpace(k.spaces[root], sz) && 0 < n < 0x8000_0000
      modifies this
      ensures ok ==> sz' == sz + n && Grown(old(k), k, root, Pages(sz), Pages(sz'), WithValid(UserPerm(PTE_W)))
      ensures !ok ==> sz' == sz && Tabled(old(k), k, root)
      ensures ok <==> !TooFew(old(k), root, Pages(sz), Pages(sz + n))
      ensures Only(old(k), k, root) && HeldSame(old(k), k) && ProcSpace(k.spaces[root], sz')
      ensures Valid()
    {
      SizeBound(k.spaces[root], sz, n);
      var newsz := Wrap64(sz + n);
      SameSize(newsz, sz, n);
      ghost var done;
      sz', done := Uvmalloc(root, sz, newsz, PTE_W);
      GrewSpecial(old(k), k, root, sz, newsz, done);
      ok := sz' != 0;
      if !ok {
        sz' := sz;
      }
    }

    /** The part of growproc() for a negative number, -n. */
    method ShrinkBy(root: nat, sz: nat, n: nat) returns (sz': nat)
      requires Valid() && root in k.spaces && ProcSpace(k.spaces[root], sz) && 0 < n <= 0x8000_0000
      modifies this
      ensures sz' == (if sz >= n then sz - n else sz) && Shrunk(old(k), k, root, Pages(sz'), Pages(sz))
      ensures Only(old(k), k, root) && HeldSame(old(k), k) && ProcSpace(k.spaces[root], sz')
      ensures Valid()
    {
      LessSize(k.spaces[root], sz, n);
      var newsz := Wrap64(sz - n);
      ghost var m;
      sz', m := Uvmdealloc(root, sz, newsz);
      ShrankSpecial(old(k), k, root, sz, sz', m);
    }

    /** growproc(): change the size of user memory by n bytes. Returns 0 or -1, and the new size. */
    method Growproc(root: nat, sz: nat, n: int) returns (r: int, sz': nat)
      requires Valid() && root in k.spaces && ProcSpace(k.spaces[root], sz) && -0x8000_0000 <= n < 0x8000_0000
      modifies this
      ensures r == 0 || r == -1
      ensures r == -1 <==> n > 0 && TooFew(old(k), root, Pages(sz), Pages(sz + n))
      ensures n == 0 ==> sz' == sz && k == old(k)
      ensures n > 0 && r == 0 ==>
                sz' == sz + n && Grown(old(k), k, root, Pages(sz), Pages(sz'), WithValid(UserPerm(PTE_W)))
      ensures r == -1 ==> sz' == sz && Tabled(old(k), k, root)
      ensures n < 0 ==> sz' == (if sz >= -n then sz - -n else sz) && Shrunk(old(k), k, root, Pages(sz'), Pages(sz))
      ensures Only(old(k), k, root) && HeldSame(old(k), k) && ProcSpace(k.spaces[root], sz')
      ensures Valid()
    {
      r, sz' := 0, sz;
      if n > 0 {
        var ok;
        sz', ok := GrowBy(root, sz, n);
        r := if ok then 0 else -1;
      } else if n < 0 {
        sz' := ShrinkBy(root, sz, -n);
      }
    }

    /** get_freemem(): the number of free bytes, which fits an int. */
    method GetFreemem() returns (freemem: int)
      requires Valid()
      ensures freemem == PGSIZE * |k.free| && freemem <= PHYSTOP - KERNBASE < 0x8000_0000
    {
      FewFree(lo, k);
      freemem := 0;
      var p := k.freelist;
      ghost var i := 0;
      while p != 0
        invariant i <= |k.free| && freemem == PGSIZE * i && p == if i < |k.free| then k.free[i] else 0
        decreases |k.free| - i
      {
        FreeAt(lo, k, i);
        freemem := freemem + PGSIZE;
        p := k.mem[p].next;
        i := i + 1;
      }
      if i < |k.free| { FreeAt(lo, k, i); }
    }

    /** allocproc()'s part: an address space for a new process. */
    method CreateProc(procs: map<nat, nat>, tf: nat) returns (procs': map<nat, nat>, root: nat)
      requires Valid() && Hosts(k, procs) && tf % PGSIZE == 0
      modifies this
      ensures Hosts(k, procs') && HeldSame(old(k), k)
      ensures procs' == if root == 0 then procs else procs[root := 0]
      ensures root != 0 ==> Fresh(old(k), k, root)
      ensures Acts(old(k), procs, Create(tf), Made(root), k, procs')
      ensures Valid()
    {
      InvPlaced(lo, k);
      root := ProcPagetable(tf);
      CreateGains(old(k), procs, tf, root, k, trampoline);
      if root == 0 {
        procs' := procs;
      } else {
        HostsBorn(old(k), k, procs, root, 0);
        procs' := procs[root := 0];
      }
    }

    method ResizeProc(procs: map<nat, nat>, p: nat, n: int) returns (procs': map<nat, nat>, r: int)
      requires Valid() && Hosts(k, procs) && p in procs && -0x8000_0000 <= n < 0x8000_0000
      modifies this
      ensures Hosts(k, procs') && HeldSame(old(k), k)
      ensures Acts(old(k), procs, Grow(p, n), Status(r), k, procs')
      ensures Valid()
    {
      var sz;
      InvPlaced(lo, k);
      assert ProcSpace(k.spaces[p], procs[p]);
      r, sz := Growproc(p, procs[p], n);
      if n > 0 && r == 0 {
        SizeGrows(old(k), k, p, procs[p], sz);
      } else if n < 0 {
        SizeShrinks(old(k), k, p, procs[p], sz);
      } else {
        SizeStays(old(k), k, p, sz);
      }
      GrowActs(old(k), procs, p, n, r, sz, k);
      HostsOnly(old(k), k, procs, p, sz);
      procs' := procs[p := sz];
    }

    /** freeproc()'s part: the end of a process's address space. */
    method ExitProc(procs: map<nat, nat>, p: nat) returns (procs': map<nat, nat>)
      requires Valid() && Hosts(k, procs) && p in procs
      modifies this
      ensures procs' == procs - {p} && Hosts(k, procs') && HeldSame(old(k), k) && Gone(old(k), k, p)
      ensures Valid()
    {
      ProcFreepagetable(p, procs[p]);
      HostsGone(old(k), k, procs, p);
      procs' := procs - {p};
    }

    /** fork()'s part: the child gets a copy of user memory, or is freed again. */
    method CopyOrFree(procs: map<nat, nat>, p: nat, root: nat, ghost k0: K) returns (procs': map<nat, nat>, root': nat)
      requires Valid() && k0.spaces.Keys == procs.Keys && Hosts(k, procs[root := 0])
      requires p in procs && root != 0 && Fresh(k0, k, root) && Gains(k0, procs, root, 0, map[], k, procs[root := 0])
      modifies this
      ensures Hosts(k, procs') && HeldSame(old(k), k)
      ensures root' == 0 <==> NoRoom(k0, Pages(procs[p]))
      ensures Gains(k0, procs, root', procs[p], Memory(k0, p), k, procs')
      ensures Valid()
    {
      InvPlaced(lo, k);
      var ok := CopyInto(procs, p, root, k0);
      if ok {
        procs', root' := procs[root := procs[p]], root;
      } else {
        procs' := GiveUp(procs, root, k0, old(k));
        root' := 0;
      }
    }

    method CopyInto(procs: map<nat, nat>, p: nat, root: nat, ghost k0: K) returns (ok: bool)
      requires Valid() && Placed(k) && k0.spaces.Keys == procs.Keys && Hosts(k, procs[root := 0])
      requires p in procs && root != 0 && Fresh(k0, k, root) && Gains(k0, procs, root, 0, map[], k, procs[root := 0])
      modifies this
      ensures HeldSame(old(k), k) && (ok <==> !NoRoom(k0, Pages(procs[p])))
      ensures ok ==> Hosts(k, procs[root := procs[p]])
      ensures ok ==> Gains(k0, procs, root, procs[p], Memory(k0, p), k, procs[root := procs[p]])
      ensures !ok ==> Hosts(k, procs[root := 0]) && Tabled(old(k), k, root)
      ensures Valid()
    {
      HostedSizes(k, procs, p, root);
      RoomFor(k0, k, root, Pages(procs[p]));
      ok := Uvmcopy(p, root, procs[p]);
      CopiedSpecial(old(k), k, p, root, procs[p], ok);
      HostsCopied(old(k), k, procs, root, if ok then procs[p] else 0);
      if ok { CopyGains(k0, procs, p, root, old(k), k); }
    }

    /** The end of a child that could not be copied. */
    method GiveUp(procs: map<nat, nat>, root: nat, ghost k0: K, ghost k1: K) returns (procs': map<nat, nat>)
      requires Valid() && k0.spaces.Keys == procs.Keys && Hosts(k, procs[root := 0]) && HeldSame(k1, k) && root != 0
      requires Placed(k1) && Gains(k0, procs, root, 0, map[], k1, procs[root := 0]) && Tabled(k1, k, root)
      modifies this
      ensures Hosts(k, procs') && HeldSame(k1, k) && procs' == procs && Memories(k) == Memories(k0)
      ensures Valid()
    {
      InvPlaced(lo, k);
      procs' := ExitProc(procs[root := 0], root);
      CopyGivenUp(k0, procs, root, k1, old(k), k);
      HeldTwice(k1, old(k), k);
    }

    /** fork()'s part: a new address space with a copy of the parent's memory. */
    method ForkProc(procs: map<nat, nat>, p: nat, tf: nat) returns (procs': map<nat, nat>, root: nat)
      requires Valid() && Hosts(k, procs) && p in procs && tf % PGSIZE == 0
      modifies this
      ensures Hosts(k, procs') && HeldSame(old(k), k)
      ensures Acts(old(k), procs, Copy(p, tf), Made(root), k, procs')
      ensures Valid()
    {
      procs', root := CreateProc(procs, tf);
      if root == 0 {
        NoRoomAtAll(old(k), Pages(procs[p]));
      } else {
        ghost var k1 := k;
        procs', root := CopyOrFree(procs, p, root, old(k));
        HeldTwice(old(k), k1, k);
      }
    }

    /** Any of the operations; procs has the size of every process. Those on what does not exist do nothing. */
    method Operate(procs: map<nat, nat>, op: Op) returns (procs': map<nat, nat>, reply: Reply)
      requires Valid() && Hosts(k, procs) && OpOk(op)
      modifies this
      ensures Hosts(k, procs') && HeldSame(old(k), k)
      ensures Acts(old(k), procs, op, reply, k, procs')
      ensures Valid()
    {
      procs' := procs;
      match op
      case Create(tf) =>
        var root;
        procs', root := CreateProc(procs, tf);
        reply := Made(root);
      case Grow(p, n) =>
        reply := Status(-1);
        if p in procs {
          var r;
          procs', r := ResizeProc(procs, p, n);
          reply := Status(r);
        }
      case Copy(p, tf) =>
        reply := Made(0);
        if p in procs {
          var root;
          procs', root := ForkProc(procs, p, tf);
          reply := Made(root);
        }
      case Exit(p) =>
        reply := Ended;
        if p in procs {
          procs' := ExitProc(procs, p);
          ExitActs(lo, old(k), procs, p, k);
        } else {
          NotThere(k, procs, p);
        }
    }

    /**
     Any sequence of operations from a state without processes: each does to the sizes and the
     memories of all processes what it should, and fails exactly for want of pages. Once no
     process is left, the free list has exactly the pages it had.
     */
    method Live(ops: seq<Op>) returns (procs: map<nat, nat>, replies: seq<Reply>, ghost trace: seq<Point>)
      requires Valid() && k.spaces == map[] && forall i :: 0 <= i < |ops| ==> OpOk(ops[i])
      modifies this
      ensures Valid() && Hosts(k, procs) && IsTrace(old(k), ops, replies, trace, k, procs)
      ensures procs == map[] ==> |k.free| == |old(k).free| && forall p :: p in k.free <==> p in old(k).free
    {
      procs, replies, trace := map[], [], [Point(k, map[])];
      for i := 0 to |ops|
        invariant Valid() && Hosts(k, procs) && HeldSame(old(k), k)
        invariant IsTrace(old(k), ops[..i], replies, trace, k, procs)
      {
        ghost var k1, procs1 := k, procs;
        var reply;
        procs, reply := Operate(procs, ops[i]);
        HeldTwice(old(k), k1, k);
        TraceMore(old(k), ops, i, replies, trace, k1, procs1, reply, k, procs);
        replies, trace := replies + [reply], trace + [Point(k, procs)];
      }
      assert ops[..|ops|] == ops;
      if procs == map[] { AllBack(lo, old(k), k); }
    }

    /** The part of copyin() and copyout() for one page: its address and how much of it to copy. */
    method Chunk(root: nat, va: nat, len: nat) returns (pa: nat, off: nat, n: nat)
      requires Valid() && root in k.spaces && len > 0
      modifies this
      ensures k == old(k) && pa == Translate(k.spaces[root], va) && off == va % PGSIZE
      ensures 0 < n <= len && n <= PGSIZE - off && (n == len || n == PGSIZE - off)
    {
      var va0 := RoundDown(va);
      SameTranslation(k.spaces[root], va);
      pa := WalkAddr(root, va0);
      off := va - va0;
      n := if PGSIZE - off > len then len else PGSIZE - off;
    }

    /** One pass of copyin(): bytes of one page. */
    method LoadPage(root: nat, va: nat, len: nat) returns (ok: bool, bytes: seq<byte>, n: nat)
      requires Valid() && root in k.spaces && len > 0
      modifies this
      ensures k == old(k) && (ok <==> Accessible(k.spaces[root], va))
      ensures ok ==>
                0 < n <= len && bytes == BytesAt(k.mem, k.spaces[root], va, n) && AllAccessible(k.spaces[root], va, n)
    {
      var pa, off;
      pa, off, n := Chunk(root, va, len);
      ok, bytes := pa != 0, [];
      if ok {
        UserChunk(lo, k, root, va, n);
        bytes := PartOf(pa, off, n);
      }
    }

    method PartOf(pa: nat, off: nat, n: nat) returns (bytes: seq<byte>)
      requires HoldsBytes(k.mem, pa) && off + n <= PGSIZE
      ensures bytes == k.mem[pa].data[off..off + n]
    {
      bytes := k.mem[pa].data[off..off + n];
    }

    /** copyin(): copy len bytes from user memory at srcva, or fail if one is not accessible. */
    method Copyin(root: nat, srcva: nat, len: nat) returns (ok: bool, dst: seq<byte>)
      requires Valid() && root in k.spaces
      modifies this
      ensures k == old(k)
      ensures ok <==> AllAccessible(k.spaces[root], srcva, len)
      ensures ok ==> dst == BytesAt(k.mem, k.spaces[root], srcva, len)
    {
      ok, dst := true, [];
      var d: nat := 0;
      while ok && d < len
        invariant k == old(k) && d <= len && dst == BytesAt(k.mem, k.spaces[root], srcva, d)
                  && AllAccessible(k.spaces[root], srcva, d)
        invariant !ok ==> d < len && !Accessible(k.spaces[root], Nth(srcva, d))
        decreases ok, len - d
      {
        var bytes, n;
        ok, bytes, n := LoadPage(root, Nth(srcva, d), len - d);
        if ok {
          BytesJoin(k.mem, k.spaces[root], srcva, d, n);
          dst := dst + bytes;
          d := d + n;
        }
      }
    }

    /** copyout(): copy src to user memory at dstva; `done` bytes were written before one was not accessible. */
    method Copyout(root: nat, dstva: nat, src: seq<byte>) returns (ok: bool, ghost done: nat)
      requires Valid() && root in k.spaces
      modifies this
      ensures done <= |src| && k == old(k).(mem := Store(old(k).mem, old(k).spaces[root], dstva, src[..done]))
      ensures ok <==> AllAccessible(k.spaces[root], dstva, |src|)
      ensures ok ==> done == |src|
      ensures Valid()
    {
      ok := true;
      var d: nat := 0;
      while ok && d < |src|
        invariant d <= |src| && Valid() && k == old(k).(mem := Store(old(k).mem, old(k).spaces[root], dstva, src[..d]))
        invariant AllAccessible(k.spaces[root], dstva, d)
        invariant !ok ==> d < |src| && !Accessible(k.spaces[root], Nth(dstva, d))
        decreases ok, |src| - d
      {
        var pa, off, n := Chunk(root, Nth(dstva, d), |src| - d);
        if pa == 0 {
          ok := false;
        } else {
          ghost var k1 := k;
          StorePage(root, pa, off, src[d..d + n], Nth(dstva, d));
          StoreMore(old(k).mem, k1.spaces[root], dstva, src, d, n);
          d := d + n;
        }
      }
      done := d;
    }

    /** The memmove() of copyout(). */
    method StorePage(root: nat, pa: nat, off: nat, bytes: seq<byte>, ghost va: nat)
      requires Valid() && root in k.spaces && Accessible(k.spaces[root], va) && pa == Translate(k.spaces[root], va)
               && off == va % PGSIZE
      requires |bytes| <= PGSIZE - off
      modifies this
      ensures k == old(k).(mem := Store(old(k).mem, old(k).spaces[root], va, bytes))
      ensures AllAccessible(k.spaces[root], va, |bytes|)
      ensures Valid()
    {
      SpacesAre(lo, k, root);
      AccessibleOwned(lo, k, root, va);
      ChunkStore(k.mem, k.spaces[root], va, bytes);
      ChunkBytes(k.mem, k.spaces[root], va, |bytes|);
      WrittenInv(lo, k, pa, Bytes(Patch(k.mem[pa].data, off, bytes)));
      k := k.(mem := k.mem[pa := Bytes(Patch(k.mem[pa].data, off, bytes))]);
    }

    /** What copyout() has written, copyin() reads. */
    method CopyBack(root: nat, va: nat, src: seq<byte>) returns (ok: bool, dst: seq<byte>)
      requires Valid() && root in k.spaces
      modifies this
      ensures Valid() && k.spaces == old(k).spaces && (ok <==> AllAccessible(k.spaces[root], va, |src|))
      ensures ok ==> dst == src
    {
      ghost var done;
      dst := [];
      SpacesAre(lo, k, root);
      ok, done := Copyout(root, va, src);
      if ok {
        assert src[..done] == src;
        CopyRoundTrip(old(k).mem, k.spaces[root], va, src);
        ok, dst := Copyin(root, va, |src|);
      }
    }

    /** The inner loop of copyinstr(): copy bytes up to a NUL or n of them. */
    static method CopyToNul(bytes: seq<byte>) returns (found: bool, copied: seq<byte>)
      ensures CutAtNul(bytes, copied, found)
    {
      found, copied := false, [];
      var i := 0;
      while !found && i < |bytes|
        invariant i <= |bytes| && copied == bytes[..i]
        invariant if found then i > 0 && bytes[i - 1] == 0 && 0 !in bytes[..i - 1] else 0 !in bytes[..i]
        decreases |bytes| - i
      {
        found := bytes[i] == 0;
        copied := copied + [bytes[i]];
        i := i + 1;
      }
    }

    /** One pass of copyinstr(): the bytes of one page, up to a NUL. */
    method ScanPage(root: nat, srcva: nat, max: nat, d: nat, dst: seq<byte>)
        returns (d': nat, dst': seq<byte>, got: bool, fault: bool)
      requires Valid() && root in k.spaces && d < max
               && Scanned(k.mem, k.spaces[root], srcva, max, d, dst, false, false)
      modifies this
      ensures k == old(k) && Scanned(k.mem, k.spaces[root], srcva, max, d', dst', got, fault)
      ensures fault || d < d'
    {
      d', dst', got := d, dst, false;
      var left: nat := max - d;
      var ok, bytes, n := LoadPage(root, Nth(srcva, d), left);
      fault := !ok;
      if ok {
        var copied;
        got, copied := CopyToNul(bytes);
        d', dst' := d + |copied|, dst + copied;
        ScannedMore(k.mem, k.spaces[root], srcva, max, d, dst, n, copied, got, d');
      }
    }

    /** copyinstr(): copy a string of fewer than max bytes from user memory, with its NUL. */
    method Copyinstr(root: nat, srcva: nat, max: nat) returns (ok: bool, dst: seq<byte>)
      requires Valid() && root in k.spaces
      modifies this
      ensures k == old(k)
      ensures ok <==> exists n: nat :: n < max && StringAt(k.mem, k.spaces[root], srcva, n)
      ensures ok ==>
                dst != [] && StringAt(k.mem, k.spaces[root], srcva, |dst| - 1)
                && dst == BytesAt(k.mem, k.spaces[root], srcva, |dst|)
    {
      var fault := false;
      var d: nat := 0;
      ok, dst := false, [];
      while !ok && !fault && d < max
        invariant k == old(k) && Scanned(k.mem, k.spaces[root], srcva, max, d, dst, ok, fault)
        decreases !fault, max - d
      {
        d, dst, ok, fault := ScanPage(root, srcva, max, d, dst);
      }
      ScannedAll(k.mem, k.spaces[root], srcva, max, d, dst, ok, fault);
    }
  }
}
