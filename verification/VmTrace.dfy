/** What any sequence of operations on address spaces does to the user memory of every process. */
module VmTrace {
  import opened Words
  import opened PageTables
  import opened VmState
  import opened VmCount

  /** What happens to address spaces: allocproc(), growproc(), fork() and the end of a process. */
  datatype Op = Create(tf: nat) | Grow(p: nat, n: int) | Copy(p: nat, tf: nat) | Exit(p: nat)

  predicate OpOk(op: Op) {
    match op
    case Create(tf) => tf % PGSIZE == 0
    case Grow(_, n) => -0x8000_0000 <= n < 0x8000_0000
    case Copy(_, tf) => tf % PGSIZE == 0
    case Exit(_) => true
  }

  /** The new address space or 0, what growproc() returns, or nothing. */
  datatype Reply = Made(root: nat) | Status(r: int) | Ended

  datatype UserPage = UserPage(page: Page, flags: nat)

  /** The user memory of an address space: contents and flags of its pages. */
  ghost function Memory(k: K, r: nat): map<nat, UserPage>
    requires r in k.spaces
  {
    var leaf := k.spaces[r].leaf;
    map v | v in leaf && v < USERTOP && leaf[v].pa in k.mem :: UserPage(k.mem[leaf[v].pa], leaf[v].flags)
  }

  ghost function Memories(k: K): map<nat, map<nat, UserPage>> { map r | r in k.spaces :: Memory(k, r) }

  // ----- the operations on plain memories -----

  /** Pages n to m, zeroed. */
  ghost function ZeroPages(n: nat, m: nat, flags: nat): map<nat, UserPage> {
    map v: nat | v in Numbers(n, m) :: UserPage(Junk(0), flags)
  }

  ghost function Numbers(n: nat, m: nat): set<nat> { set j | 0 <= j < Count(n, m) :: Nth(n, j) }

  lemma NumbersAre(n: nat, m: nat)
    ensures forall v: nat :: v in Numbers(n, m) <==> n <= v < m
  {
    forall v: nat | n <= v < m
      ensures v in Numbers(n, m)
    {
      assert Nth(n, v - n) == v;
    }
  }

  /** growproc(): pages up to the new size, the new ones zeroed. */
  ghost function Resized(memory: map<nat, UserPage>, n: nat, m: nat): map<nat, UserPage> {
    if n <= m then memory + ZeroPages(n, m, WithValid(UserPerm(PTE_W))) else map v | v in memory && v < m :: memory[v]
  }

  function NewSize(sz: nat, n: int, r: int): int { if r == -1 || sz + n < 0 then sz else sz + n }

  /** There are too few pages for a process with n pages of user memory. */
  ghost predicate NoRoom(k: K, n: nat) {
    var t := PageNo(TRAMPOLINE);
    |k.free| < 3 + n + |Mids(0, n) - Mids(t, 1)| + |Lows(0, n) - Lows(t, 1)|
  }

  /**
   An operation with its reply takes the sizes and memories of all processes from one state to
   the next; those on what does not exist do nothing. Operations fail exactly for want of pages.
   */
  ghost predicate Acts(k: K, procs: map<nat, nat>, op: Op, reply: Reply, k': K, procs': map<nat, nat>)
    requires procs.Keys == k.spaces.Keys
  {
    match op
    case Create(_) =>
      && reply.Made? && (reply.root == 0 <==> |k.free| < 3)
      && Gains(k, procs, reply.root, 0, map[], k', procs')
    case Grow(p, n) =>
      if p !in procs then reply == Status(-1) && k' == k && procs' == procs
      else
        && reply.Status? && (reply.r == 0 || reply.r == -1)
        && (reply.r == -1 <==> NoGrowth(k, p, procs[p], n))
        && p in procs' && procs' == procs[p := procs'[p]] && procs'[p] == NewSize(procs[p], n, reply.r)
        && Resizes(k, p, procs[p], procs'[p], k')
    case Copy(p, _) =>
      if p !in procs then reply == Made(0) && k' == k && procs' == procs
      else
        && reply.Made? && (reply.root == 0 <==> NoRoom(k, Pages(procs[p])))
        && Gains(k, procs, reply.root, procs[p], Memory(k, p), k', procs')
    case Exit(p) =>
      reply == Ended && procs' == procs - {p} && Memories(k') == Memories(k) - {p}
  }

  /** There are too few pages for n more bytes. */
  ghost predicate NoGrowth(k: K, p: nat, sz: nat, n: int) { n > 0 && TooFew(k, p, Pages(sz), Pages(sz + n)) }

  ghost predicate Resizes(k: K, p: nat, sz: nat, sz': nat, k': K)
    requires p in k.spaces
  {
    Memories(k') == Memories(k)[p := Resized(Memory(k, p), Pages(sz), Pages(sz'))]
  }

  /** There is a new process, unless root is 0. */
  ghost predicate Gains(k: K, procs: map<nat, nat>, root: nat, sz: nat, memory: map<nat, UserPage>, k': K,
                        procs': map<nat, nat>) {
    if root == 0 then procs' == procs && Memories(k') == Memories(k)
    else root !in procs && procs' == procs[root := sz] && Memories(k') == Memories(k)[root := memory]
  }

  // ----- why they do -----

  /** User pages are in memory, each in the role of its place. */
  ghost predicate Placed(k: K) {
    forall r, v :: r in k.spaces && v in k.spaces[r].leaf && v < USERTOP ==> PlacedAt(k, r, k.spaces[r].leaf[v].pa, v)
  }

  ghost predicate PlacedAt(k: K, r: nat, p: nat, v: nat) { p in k.own && k.own[p] == Data(r, v) && p in k.mem }

  lemma InvPlaced(lo: nat, k: K)
    requires Inv(lo, k, 0)
    ensures Placed(k) && forall p :: p in k.own ==> p in k.mem
  {
    forall r, v | r in k.spaces && v in k.spaces[r].leaf && v < USERTOP
      ensures PlacedAt(k, r, k.spaces[r].leaf[v].pa, v)
    {
      assert SpaceOwns(k.own, r, k.spaces[r]);
    }
  }

  /** The contents of user pages in these roles have not changed. */
  ghost predicate Intact(k: K, k': K, r: nat) {
    forall p :: p in k.own && k.own[p].Data? && k.own[p].r == r && p in k.mem ==> p in k'.mem && k'.mem[p] == k.mem[p]
  }

  lemma SameMemory(k: K, k': K, r: nat)
    requires Placed(k) && r in k.spaces && r in k'.spaces && k'.spaces[r].leaf == k.spaces[r].leaf && Intact(k, k', r)
    ensures Memory(k', r) == Memory(k, r)
  {
    var leaf := k.spaces[r].leaf;
    forall v | v in leaf && v < USERTOP
      ensures leaf[v].pa in k.mem && leaf[v].pa in k'.mem && k'.mem[leaf[v].pa] == k.mem[leaf[v].pa]
    {
      assert PlacedAt(k, r, leaf[v].pa, v);
    }
  }

  /** If no address space but r differs, all other memories are the same. */
  lemma OthersSame(k: K, k': K, r: nat)
    requires Placed(k) && forall q :: q in k.spaces && q != r ==> q in k'.spaces && k'.spaces[q] == k.spaces[q]
    requires forall q :: q in k.spaces && q != r ==> Intact(k, k', q)
    ensures forall q :: q in k.spaces && q != r ==> Memory(k', q) == Memory(k, q)
  {
    forall q | q in k.spaces && q != r
      ensures Memory(k', q) == Memory(k, q)
    {
      SameMemory(k, k', q);
    }
  }

  lemma OneMemory(k: K, k': K, r: nat)
    requires Placed(k) && r in k'.spaces && k'.spaces == k.spaces[r := k'.spaces[r]]
    requires forall q :: q in k.spaces && q != r ==> Intact(k, k', q)
    ensures Memories(k') == Memories(k)[r := Memory(k', r)]
  {
    OthersSame(k, k', r);
  }

  lemma BornMemory(k: K, k': K, r: nat)
    requires Placed(k) && Born(k, k', r)
    ensures Memories(k') == Memories(k)[r := Memory(k', r)]
  {
    OneMemory(k, k', r);
  }

  lemma GoneMemory(k: K, k': K, r: nat)
    requires Placed(k) && r in k.spaces && Gone(k, k', r)
    ensures Memories(k') == Memories(k) - {r}
  {
    OthersSame(k, k', r);
  }

  lemma SameMemories(k: K, k': K)
    requires Placed(k) && Same(k, k')
    ensures Memories(k') == Memories(k)
  {
    forall q | q in k.spaces
      ensures Memory(k', q) == Memory(k, q)
    {
      SameMemory(k, k', q);
    }
  }

  lemma TabledMemory(k: K, k': K, r: nat)
    requires Placed(k) && Tabled(k, k', r)
    ensures Memories(k') == Memories(k)
  {
    OneMemory(k, k', r);
    SameMemory(k, k', r);
  }

  lemma ExtendedMemory(k: K, k': K, r: nat, n: nat, m: nat)
    requires Placed(k) && Extended(k, k', r, n, m)
    ensures Memories(k') == Memories(k)[r := Memory(k', r)]
    ensures forall v :: v in Memory(k, r) ==> v in Memory(k', r) && Memory(k', r)[v] == Memory(k, r)[v]
    ensures forall v :: v in Memory(k', r) ==> v in Memory(k, r) || n <= v < m
  {
    OneMemory(k, k', r);
    var leaf := k.spaces[r].leaf;
    forall v | v in leaf && v < USERTOP
      ensures leaf[v].pa in k.mem && leaf[v].pa in k'.mem && k'.mem[leaf[v].pa] == k.mem[leaf[v].pa]
    {
      assert PlacedAt(k, r, leaf[v].pa, v);
    }
  }

  lemma GrownMemory(k: K, k': K, r: nat, n: nat, m: nat)
    requires Placed(k) && Grown(k, k', r, n, m, WithValid(UserPerm(PTE_W))) && n <= m <= USERTOP
    requires forall v :: v in k.spaces[r].leaf && v < USERTOP ==> v < n
    ensures Memories(k') == Memories(k)[r := Resized(Memory(k, r), n, m)]
  {
    ExtendedMemory(k, k', r, n, m);
    NewPages(k, k', r, n, m, WithValid(UserPerm(PTE_W)));
  }

  lemma NewPages(k: K, k': K, r: nat, n: nat, m: nat, flags: nat)
    requires r in k.spaces && r in k'.spaces && n <= m <= USERTOP
    requires forall u :: n <= u < m ==> Zeroed(k', r, u, flags)
    requires forall v :: v in Memory(k, r) ==> v < n && v in Memory(k', r) && Memory(k', r)[v] == Memory(k, r)[v]
    requires forall v :: v in Memory(k', r) ==> v in Memory(k, r) || n <= v < m
    ensures Memory(k', r) == Memory(k, r) + ZeroPages(n, m, flags)
  {
    NumbersAre(n, m);
    forall v | n <= v < m
      ensures v in Memory(k', r) && Memory(k', r)[v] == UserPage(Junk(0), flags)
    {
      assert Zeroed(k', r, v, flags);
    }
  }

  /** A page that is not cut off stays as it is. */
  lemma CutPage(k: K, k': K, r: nat, n: nat, m: nat, p: nat)
    requires Shrunk(k, k', r, n, m) && p in k.own && k.own[p].Data? && p in k.mem && (k.own[p].r != r || k.own[p].v < n)
    ensures p in k'.mem && k'.mem[p] == k.mem[p]
  {
    assert p in OwnCut(k.own, r, n, m - n) && OwnCut(k.own, r, n, m - n)[p] == k.own[p];
  }

  lemma CutOthers(k: K, k': K, r: nat, n: nat, m: nat, q: nat)
    requires Shrunk(k, k', r, n, m) && q != r
    ensures Intact(k, k', q)
  {
    forall p | p in k.own && k.own[p].Data? && k.own[p].r == q && p in k.mem
      ensures p in k'.mem && k'.mem[p] == k.mem[p]
    {
      CutPage(k, k', r, n, m, p);
    }
  }

  lemma ShrunkMemory(k: K, k': K, r: nat, n: nat, m: nat)
    requires Placed(k) && Shrunk(k, k', r, n, m)
    requires forall v :: v in k.spaces[r].leaf && v < USERTOP ==> v < m
    ensures Memories(k') == Memories(k)[r := Resized(Memory(k, r), m, n)]
  {
    forall q | q in k.spaces && q != r
      ensures Intact(k, k', q)
    {
      CutOthers(k, k', r, n, m, q);
    }
    OneMemory(k, k', r);
    if n < m { FewerPages(k, k', r, n, m); } else { NoFewerPages(k, k', r, n); }
  }

  lemma FewerPages(k: K, k': K, r: nat, n: nat, m: nat)
    requires Placed(k) && Shrunk(k, k', r, n, m) && n < m
    requires forall v :: v in k.spaces[r].leaf && v < USERTOP ==> v < m
    ensures Memory(k', r) == Resized(Memory(k, r), m, n)
  {
    var leaf := k.spaces[r].leaf;
    forall v | v in leaf && v < USERTOP && v < n
      ensures leaf[v].pa in k.mem && leaf[v].pa in k'.mem && k'.mem[leaf[v].pa] == k.mem[leaf[v].pa]
    {
      assert PlacedAt(k, r, leaf[v].pa, v);
      CutPage(k, k', r, n, m, leaf[v].pa);
    }
    CutLeaf(k, k', r, n, m);
  }

  lemma CutLeaf(k: K, k': K, r: nat, n: nat, m: nat)
    requires r in k.spaces && r in k'.spaces && n < m && k'.spaces[r].leaf == Cut(k.spaces[r].leaf, n, m - n)
    requires forall v :: v in k.spaces[r].leaf && v < USERTOP ==> v < m
    requires var leaf := k.spaces[r].leaf;
             forall v :: v in leaf && v < USERTOP && v < n ==>
               leaf[v].pa in k.mem && leaf[v].pa in k'.mem && k'.mem[leaf[v].pa] == k.mem[leaf[v].pa]
    ensures Memory(k', r) == Resized(Memory(k, r), m, n)
  {}

  lemma NoFewerPages(k: K, k': K, r: nat, n: nat)
    requires Placed(k) && Shrunk(k, k', r, n, n)
    ensures Memory(k', r) == Resized(Memory(k, r), n, n)
  {
    NumbersAre(n, n);
    assert ZeroPages(n, n, WithValid(UserPerm(PTE_W))) == map[];
    assert Cut(k.spaces[r].leaf, n, 0) == k.spaces[r].leaf && OwnCut(k.own, r, n, 0) == k.own;
    SameMemory(k, k', r);
  }

  lemma CopiedMemory(k: K, k': K, o: nat, w: nat, m: nat)
    requires Placed(k) && Copied(k, k', o, w, m) && o != w && o in k.spaces && m <= USERTOP
    requires forall v :: 0 <= v < USERTOP ==> (v in k.spaces[o].leaf <==> v < m)
    requires forall v :: v in k.spaces[w].leaf ==> v >= USERTOP
    ensures Memories(k') == Memories(k)[w := Memory(k, o)]
  {
    OneMemory(k, k', w);
    OthersSame(k, k', w);
    CopiedPages(k', o, w, m);
  }

  lemma CopiedPages(k: K, o: nat, w: nat, m: nat)
    requires o in k.spaces && w in k.spaces && forall u :: 0 <= u < m ==> CopyOf(k, o, w, u)
    requires forall v :: v in k.spaces[o].leaf && v < USERTOP ==> v < m
    requires forall v :: v in k.spaces[w].leaf && v < USERTOP ==> v < m
    ensures Memory(k, w) == Memory(k, o)
  {
    forall v: nat | v < m && v < USERTOP
      ensures v in Memory(k, w) && v in Memory(k, o) && Memory(k, w)[v] == Memory(k, o)[v]
    {
      assert CopyOf(k, o, w, v);
    }
  }

  lemma NoResize(memory: map<nat, UserPage>, n: nat)
    ensures Resized(memory, n, n) == memory
  {
    NumbersAre(n, n);
    assert ZeroPages(n, n, WithValid(UserPerm(PTE_W))) == map[];
  }

  lemma CreateGains(k: K, procs: map<nat, nat>, tf: nat, root: nat, k': K, trampoline: nat)
    requires Placed(k) && procs.Keys == k.spaces.Keys
    requires if root == 0 then Same(k, k') else Born(k, k', root) && k'.spaces[root].leaf == ProcLeaf(trampoline, tf)
    ensures Gains(k, procs, root, 0, map[], k', if root == 0 then procs else procs[root := 0])
  {
    if root == 0 {
      SameMemories(k, k');
    } else {
      BornMemory(k, k', root);
      NoMemory(k', root, trampoline, tf);
    }
  }

  lemma NoMemory(k: K, r: nat, trampoline: nat, tf: nat)
    requires r in k.spaces && k.spaces[r].leaf == ProcLeaf(trampoline, tf)
    ensures Memory(k, r) == map[]
  {}

  lemma SizeStays(k: K, k': K, p: nat, sz: nat)
    requires Placed(k) && p in k.spaces && (k' == k || Tabled(k, k', p))
    ensures Resizes(k, p, sz, sz, k')
  {
    if k' != k { TabledMemory(k, k', p); }
    NoResize(Memory(k, p), Pages(sz));
  }

  lemma SizeGrows(k: K, k': K, p: nat, sz: nat, sz': nat)
    requires Placed(k) && p in k.spaces && p in k'.spaces && Sized(k.spaces[p], sz) && Sized(k'.spaces[p], sz')
             && sz <= sz'
    requires Grown(k, k', p, Pages(sz), Pages(sz'), WithValid(UserPerm(PTE_W)))
    ensures Resizes(k, p, sz, sz', k')
  {
    GrownMemory(k, k', p, Pages(sz), Pages(sz'));
  }

  lemma SizeShrinks(k: K, k': K, p: nat, sz: nat, sz': nat)
    requires Placed(k) && p in k.spaces && Sized(k.spaces[p], sz) && Shrunk(k, k', p, Pages(sz'), Pages(sz))
    ensures Resizes(k, p, sz, sz', k')
  {
    ShrunkMemory(k, k', p, Pages(sz'), Pages(sz));
  }

  lemma GrowActs(k: K, procs: map<nat, nat>, p: nat, n: int, r: int, sz: nat, k': K)
    requires procs.Keys == k.spaces.Keys && p in procs && (r == 0 || r == -1)
    requires r == -1 <==> NoGrowth(k, p, procs[p], n)
    requires sz == NewSize(procs[p], n, r) && Resizes(k, p, procs[p], sz, k')
    ensures Acts(k, procs, Grow(p, n), Status(r), k', procs[p := sz])
  {}

  lemma ExitActs(lo: nat, k: K, procs: map<nat, nat>, p: nat, k': K)
    requires Inv(lo, k, 0) && Hosts(k, procs) && p in procs && Gone(k, k', p)
    ensures Acts(k, procs, Exit(p), Ended, k', procs - {p})
  {
    InvPlaced(lo, k);
    GoneMemory(k, k', p);
  }

  /** fork() with enough memory: a new address space, then copies of the pages. */
  lemma CopyGains(k: K, procs: map<nat, nat>, p: nat, root: nat, k1: K, k2: K)
    requires procs.Keys == k.spaces.Keys && p in procs && root != 0
             && Gains(k, procs, root, 0, map[], k1, procs[root := 0])
    requires Placed(k1) && p in k1.spaces && root in k1.spaces && Sized(k1.spaces[p], procs[p])
             && Sized(k1.spaces[root], 0)
    requires Copied(k1, k2, p, root, Pages(procs[p]))
    ensures Gains(k, procs, root, procs[p], Memory(k, p), k2, procs[root := procs[p]])
  {
    NoUserPages(k1, root);
    CopiedMemory(k1, k2, p, root, Pages(procs[p]));
    SameAt(k, k1, p, root);
    PutTwice(Memories(k), root, map[], Memory(k, p));
  }

  lemma SameAt(k: K, k1: K, p: nat, root: nat)
    requires p in k.spaces && p in k1.spaces && p != root && Memories(k1) == Memories(k)[root := map[]]
    ensures Memory(k1, p) == Memory(k, p)
  {
    assert Memories(k1)[p] == Memories(k)[p];
  }

  lemma PutTwice<T>(m: map<nat, T>, r: nat, x: T, y: T)
    ensures m[r := x][r := y] == m[r := y]
  {}

  lemma NoUserPages(k: K, r: nat)
    requires r in k.spaces && Sized(k.spaces[r], 0)
    ensures forall v :: v in k.spaces[r].leaf ==> v >= USERTOP
  {}

  lemma HostsCopied(k: K, k': K, procs: map<nat, nat>, root: nat, sz: nat)
    requires Hosts(k, procs[root := 0]) && Only(k, k', root) && ProcSpace(k'.spaces[root], sz)
    ensures Hosts(k', procs[root := sz])
  {
    HostsOnly(k, k', procs[root := 0], root, sz);
    PutTwice(procs, root, 0, sz);
  }

  lemma HostedSizes(k: K, procs: map<nat, nat>, p: nat, root: nat)
    requires Hosts(k, procs[root := 0]) && p in procs && p != root
    ensures p in k.spaces && root in k.spaces && ProcSpace(k.spaces[p], procs[p]) && ProcSpace(k.spaces[root], 0)
  {
    var with := procs[root := 0];
    assert with[p] == procs[p] && with[root] == 0;
  }

  /** Without, the new address space is given up again. */
  lemma CopyGivenUp(k: K, procs: map<nat, nat>, root: nat, k1: K, k2: K, k3: K)
    requires procs.Keys == k.spaces.Keys && root != 0 && Gains(k, procs, root, 0, map[], k1, procs[root := 0])
    requires Placed(k1) && Placed(k2) && Tabled(k1, k2, root) && Gone(k2, k3, root)
    ensures Memories(k3) == Memories(k) && procs[root := 0] - {root} == procs
  {
    TabledMemory(k1, k2, root);
    GoneMemory(k2, k3, root);
    GainAndLoss(Memories(k), root, map[]);
    GainAndLoss(procs, root, 0);
  }

  lemma GainAndLoss<T>(m: map<nat, T>, r: nat, x: T)
    requires r !in m
    ensures m[r := x] - {r} == m
  {}

  /** A copy needs what a new address space takes and what the pages take. */
  lemma RoomFor(k: K, k1: K, root: nat, n: nat)
    requires Fresh(k, k1, root)
    ensures TooFew(k1, root, 0, n) <==> NoRoom(k, n)
  {}

  lemma NoRoomAtAll(k: K, n: nat)
    requires |k.free| < 3
    ensures NoRoom(k, n)
  {}

  /** Nothing is removed with a process that is not there. */
  lemma NotThere(k: K, procs: map<nat, nat>, p: nat)
    requires Hosts(k, procs) && p !in procs
    ensures Acts(k, procs, Exit(p), Ended, k, procs)
  {
    assert procs - {p} == procs && Memories(k) - {p} == Memories(k);
  }

  // ----- any number of operations -----

  /** A run so far: the kernel and the sizes of the processes after each operation. */
  datatype Point = Point(k: K, procs: map<nat, nat>)

  ghost predicate ActsAt(ops: seq<Op>, replies: seq<Reply>, trace: seq<Point>, i: nat)
    requires i < |ops| == |replies| < |trace|
  {
    && trace[i].procs.Keys == trace[i].k.spaces.Keys
    && Acts(trace[i].k, trace[i].procs, ops[i], replies[i], trace[i + 1].k, trace[i + 1].procs)
  }

  ghost predicate IsTrace(k: K, ops: seq<Op>, replies: seq<Reply>, trace: seq<Point>, k': K, procs: map<nat, nat>) {
    && |replies| == |ops| && |trace| == |ops| + 1 && trace[0] == Point(k, map[]) && trace[|ops|] == Point(k', procs)
    && forall i :: 0 <= i < |ops| ==> ActsAt(ops, replies, trace, i)
  }

  lemma TraceMore(k: K, ops: seq<Op>, n: nat, replies: seq<Reply>, trace: seq<Point>, k1: K, procs1: map<nat, nat>,
                  reply: Reply, k2: K, procs2: map<nat, nat>)
    requires n < |ops| && IsTrace(k, ops[..n], replies, trace, k1, procs1)
    requires procs1.Keys == k1.spaces.Keys && Acts(k1, procs1, ops[n], reply, k2, procs2)
    ensures IsTrace(k, ops[..n + 1], replies + [reply], trace + [Point(k2, procs2)], k2, procs2)
  {
    var os, rs, ts := ops[..n + 1], replies + [reply], trace + [Point(k2, procs2)];
    forall i | 0 <= i < |os|
      ensures ActsAt(os, rs, ts, i)
    {
      if i < n { assert ActsAt(ops[..n], replies, trace, i); }
    }
  }
}
