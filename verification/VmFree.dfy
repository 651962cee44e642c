/** The pages of an address space being taken apart by freewalk(). */
module VmFree {
  import opened PageTables
  import opened VmState

  /** The position of the table that entry j of the table at a level and position leads to. */
  function Child(level: nat, pos: nat, j: nat): nat
    requires j < ENTRIES
  {
    if level == 2 then j else Sub(pos, j)
  }

  predicate HasSub(sp: Space, level: nat, pos: nat) {
    if level == 2 then true else if level == 1 then pos in sp.mid else pos in sp.low
  }

  function SubTable(r: nat, sp: Space, level: nat, pos: nat): nat
    requires HasSub(sp, level, pos)
  {
    if level == 2 then r else if level == 1 then sp.mid[pos] else sp.low[pos]
  }

  /** The role of the table at a level and position. */
  function SubRole(r: nat, level: nat, pos: nat): Role {
    if level == 2 then Root(r) else if level == 1 then Mid(r, pos) else Low(r, pos)
  }

  /** The roles of the tables at or below a position. */
  predicate Under(role: Role, r: nat, level: nat, pos: nat) {
    if level == 2 then !role.Held? && role.r == r
    else if level == 1 then role == Mid(r, pos) || (role.Low? && role.r == r && role.k / ENTRIES == pos)
    else role == Low(r, pos)
  }

  /** The roles of the tables below the first n entries of the table at a position. */
  predicate Below(role: Role, r: nat, level: nat, pos: nat, n: nat) {
    if level == 2 then (role.Mid? && role.r == r && role.i < n) || (role.Low? && role.r == r && role.k / ENTRIES < n)
    else if level == 1 then role.Low? && role.r == r && role.k / ENTRIES == pos && role.k % ENTRIES < n
    else false
  }

  ghost function Without(own: map<nat, Role>, r: nat, level: nat, pos: nat): map<nat, Role> {
    map p | p in own && !Under(own[p], r, level, pos) :: own[p]
  }

  ghost function WithoutFirst(own: map<nat, Role>, r: nat, level: nat, pos: nat, n: nat): map<nat, Role> {
    map p | p in own && !Below(own[p], r, level, pos, n) :: own[p]
  }

  /** r is given up, maps nothing any more, and what is left of its tables is where sp says. */
  ghost predicate Dying(k: K, r: nat, sp: Space) {
    && r !in k.spaces && sp.leaf == map[]
    && (forall i :: i in sp.mid ==> i < ENTRIES) && (forall j :: j in sp.low ==> j / ENTRIES in sp.mid)
    && forall p :: p in k.own && !k.own[p].Held? && k.own[p].r == r ==> RoleIn(sp, p, k.own[p])
  }

  /** The table at a position, in memory. */
  ghost predicate TableHere(k: K, r: nat, level: nat, pos: nat, sp: Space) {
    && HasSub(sp, level, pos)
    && var pt := SubTable(r, sp, level, pos);
    && pt in k.own && k.own[pt] == SubRole(r, level, pos) && IsTable(k.mem, pt)
    && forall j :: 0 <= j < ENTRIES ==>
         k.mem[pt].ptes[j] == if level > 0
             && HasSub(sp, level - 1,
               Child(level, pos, j)) then MkPte(SubTable(r, sp, level - 1, Child(level, pos, j)), PTE_V) else 0
  }

  /** The tables at and below a position are all there. */
  ghost predicate Tree(k: K, r: nat, level: nat, pos: nat, sp: Space)
    decreases level
  {
    && TableHere(k, r, level, pos, sp)
    && (level > 0 ==>
         forall j :: 0 <= j < ENTRIES && HasSub(sp, level - 1, Child(level, pos, j)) ==>
           Tree(k, r, level - 1, Child(level, pos, j), sp))
  }

  /** A tree depends only on its own tables. */
  lemma {:induction false} TreeFrame(k: K, k': K, r: nat, level: nat, pos: nat, sp: Space)
    requires level <= 2 && Tree(k, r, level, pos, sp)
    requires forall p :: p in k.own && Under(k.own[p], r, level, pos) ==>
               p in k'.own && k'.own[p] == k.own[p] && p in k.mem && p in k'.mem && k'.mem[p] == k.mem[p]
    ensures Tree(k', r, level, pos, sp)
    decreases level
  {
    if level > 0 {
      forall j | 0 <= j < ENTRIES && HasSub(sp, level - 1, Child(level, pos, j))
        ensures Tree(k', r, level - 1, Child(level, pos, j), sp)
      {
        TreeFrame(k, k', r, level - 1, Child(level, pos, j), sp);
      }
    }
  }

  /** What entry j of a table says. */
  lemma EntryIs(k: K, r: nat, level: nat, pos: nat, sp: Space, j: nat)
    requires level <= 2 && j < ENTRIES && Tree(k, r, level, pos, sp) && forall p :: p in k.own ==> p % PGSIZE == 0
    ensures var pte := k.mem[SubTable(r, sp, level, pos)].ptes[j];
            if level > 0 && HasSub(sp, level - 1, Child(level, pos, j)) then
              && PteValid(pte) && !IsLeaf(PteFlags(pte)) && Tree(k, r, level - 1, Child(level, pos, j), sp)
              && PteAddr(pte) == SubTable(r, sp, level - 1, Child(level, pos, j))
            else !PteValid(pte)
  {
    if level > 0 && HasSub(sp, level - 1, Child(level, pos, j)) {
      assert Tree(k, r, level - 1, Child(level, pos, j), sp);
      PteRoundTrip(SubTable(r, sp, level - 1, Child(level, pos, j)), PTE_V);
    }
  }

  // ----- the roles that go -----

  lemma DropChild(own: map<nat, Role>, r: nat, level: nat, pos: nat, n: nat)
    requires 0 < level <= 2 && n < ENTRIES
    ensures Without(WithoutFirst(own, r, level, pos, n), r, level - 1, Child(level, pos, n)) == WithoutFirst(own, r,
              level, pos, n + 1)
  {
    assert forall k: nat :: k / ENTRIES == pos && k % ENTRIES == n <==> k == Sub(pos, n);
  }

  /** Without a table below entry n there is no role below it. */
  lemma DropNothing(k: K, r: nat, level: nat, pos: nat, sp: Space, n: nat)
    requires Dying(k, r, sp) && level <= 2 && n < ENTRIES && !(level > 0 && HasSub(sp, level - 1, Child(level, pos, n)))
    ensures WithoutFirst(k.own, r, level, pos, n + 1) == WithoutFirst(k.own, r, level, pos, n)
  {
    forall p | p in k.own && Below(k.own[p], r, level, pos, n + 1)
      ensures Below(k.own[p], r, level, pos, n)
    {
      assert RoleIn(sp, p, k.own[p]);
    }
  }

  /** The table itself is the last. */
  lemma DropTable(k: K, r: nat, level: nat, pos: nat, sp: Space)
    requires Dying(k, r, sp) && level <= 2 && HasSub(sp, level, pos)
    requires SubTable(r, sp, level, pos) in k.own && k.own[SubTable(r, sp, level, pos)] == SubRole(r, level, pos)
    ensures WithoutFirst(k.own, r, level, pos, ENTRIES) - {SubTable(r, sp, level, pos)} == Without(k.own, r, level, pos)
  {
    forall p | p in k.own && Under(k.own[p], r, level, pos)
      ensures Below(k.own[p], r, level, pos, ENTRIES) || p == SubTable(r, sp, level, pos)
    {
      assert RoleIn(sp, p, k.own[p]);
    }
  }

  // ----- freewalk()'s progress -----

  /** From k to k', pages lost their roles, and those that did not kept their contents, except for pt. */
  ghost predicate Kept(k: K, k': K, pt: int) {
    && k'.spaces == k.spaces
    && forall p :: p in k'.own ==>
         p in k.own && k'.own[p] == k.own[p] && p in k.mem && p in k'.mem && (p != pt ==> k'.mem[p] == k.mem[p])
  }

  /** freewalk() has done the first n entries of table pt. */
  ghost predicate Walked(k: K, k': K, r: nat, level: nat, pos: nat, pt: nat, n: nat) {
    && Kept(k, k', pt) && k'.own == WithoutFirst(k.own, r, level, pos, n) && pt in k'.own
    && IsTable(k.mem, pt) && IsTable(k'.mem, pt) && forall j :: n <= j < ENTRIES ==>
         k'.mem[pt].ptes[j] == k.mem[pt].ptes[j]
  }

  lemma WalkStart(lo: nat, k: K, r: nat, level: nat, pos: nat, sp: Space)
    requires Inv(lo, k, r) && level <= 2 && Tree(k, r, level, pos, sp)
    ensures Walked(k, k, r, level, pos, SubTable(r, sp, level, pos), 0)
  {
    assert WithoutFirst(k.own, r, level, pos, 0) == k.own;
  }

  lemma DyingLess(k: K, k': K, r: nat, sp: Space, pt: nat)
    requires Dying(k, r, sp) && Kept(k, k', pt)
    ensures Dying(k', r, sp)
  {}

  /** The subtree below entry n is still there. */
  lemma ChildStays(k: K, k': K, r: nat, level: nat, pos: nat, sp: Space, n: nat)
    requires 0 < level <= 2 && n < ENTRIES && Tree(k, r, level, pos, sp)
             && Walked(k, k', r, level, pos, SubTable(r, sp, level, pos), n)
    requires HasSub(sp, level - 1, Child(level, pos, n))
    ensures Tree(k', r, level - 1, Child(level, pos, n), sp)
  {
    assert Tree(k, r, level - 1, Child(level, pos, n), sp);
    TreeFrame(k, k', r, level - 1, Child(level, pos, n), sp);
  }

  /** After the subtree below entry n is gone and the entry cleared. */
  lemma ChildGone(k: K, k1: K, k2: K, r: nat, level: nat, pos: nat, pt: nat, n: nat)
    requires 0 < level <= 2 && n < ENTRIES && Walked(k, k1, r, level, pos, pt, n) && k.own[pt] == SubRole(r, level, pos)
    requires k2.own == Without(k1.own, r, level - 1, Child(level, pos, n)) && Kept(k1, k2, -1)
    ensures pt in k2.own && IsTable(k2.mem, pt)
    ensures Walked(k, k2.(mem := k2.mem[pt := SetEntry(k2.mem[pt], n, 0)]), r, level, pos, pt, n + 1)
  {
    DropChild(k.own, r, level, pos, n);
  }

  lemma ClearEntry(lo: nat, k: K, r: nat, pt: nat, page: Page)
    requires Inv(lo, k, r) && r !in k.spaces && pt in k.own && !k.own[pt].Held? && !k.own[pt].Data? && k.own[pt].r == r
    ensures Inv(lo, k.(mem := k.mem[pt := page]), r)
  {
    LinkedFrame(k.mem, k.freelist, k.free, pt, page);
    WriteFrame(k.mem, k.own, k.spaces, pt, page);
  }

  // ----- an address space that maps nothing -----

  lemma LowTree(k: K, r: nat, sp: Space, j: nat)
    requires Rep(k.mem, r, sp) && SpaceOwns(k.own, r, sp) && sp.leaf == map[] && j in sp.low
    ensures Tree(k, r, 0, j, sp) && j / ENTRIES in sp.mid
  {
    assert LowRep(k.mem, j, sp);
  }

  lemma MidTree(k: K, r: nat, sp: Space, i: nat)
    requires Rep(k.mem, r, sp) && SpaceOwns(k.own, r, sp) && sp.leaf == map[] && i in sp.mid
    ensures Tree(k, r, 1, i, sp) && i < ENTRIES
  {
    assert MidRep(k.mem, i, sp);
    forall j | 0 <= j < ENTRIES && HasSub(sp, 0, Child(1, i, j))
      ensures Tree(k, r, 0, Child(1, i, j), sp)
    {
      LowTree(k, r, sp, Child(1, i, j));
    }
  }

  lemma RepTree(k: K, r: nat, sp: Space)
    requires Rep(k.mem, r, sp) && SpaceOwns(k.own, r, sp) && sp.leaf == map[]
    ensures Tree(k, r, 2, 0, sp)
  {
    forall j | 0 <= j < ENTRIES && HasSub(sp, 1, Child(2, 0, j))
      ensures Tree(k, r, 1, Child(2, 0, j), sp)
    {
      MidTree(k, r, sp, j);
    }
  }

  lemma RepDying(k: K, r: nat, sp: Space)
    requires Rep(k.mem, r, sp) && SpaceOwns(k.own, r, sp) && sp.leaf == map[] && r !in k.spaces
    requires forall p :: p in k.own && !k.own[p].Held? && k.own[p].r == r ==> RoleIn(sp, p, k.own[p])
    ensures Dying(k, r, sp)
  {
    forall i | i in sp.mid
      ensures i < ENTRIES
    {
      MidTree(k, r, sp, i);
    }
    forall j | j in sp.low
      ensures j / ENTRIES in sp.mid
    {
      LowTree(k, r, sp, j);
    }
  }

  /** An address space that maps nothing is a tree of tables, which nobody needs once it is given up. */
  lemma GivenUp(lo: nat, k: K, r: nat)
    requires Inv(lo, k, 0) && r in k.spaces && k.spaces[r].leaf == map[]
    ensures var k' := k.(spaces := k.spaces - {r});
            Inv(lo, k', r) && Dying(k', r, k.spaces[r]) && Tree(k', r, 2, 0, k.spaces[r])
  {
    var k' := k.(spaces := k.spaces - {r});
    DropSpace(k.mem, k.own, k.spaces, r);
    assert Rep(k.mem, r, k.spaces[r]) && SpaceOwns(k.own, r, k.spaces[r]);
    RepTree(k', r, k.spaces[r]);
    RepDying(k', r, k.spaces[r]);
  }

  /** With all its tables gone, an address space is gone. */
  lemma AllGone(lo: nat, k: K, k': K, r: nat)
    requires k'.own == Without(k.own, r, 2, 0) && Inv(lo, k', r)
    ensures k'.own == OwnWithout(k.own, r) && Inv(lo, k', 0)
  {}
}
