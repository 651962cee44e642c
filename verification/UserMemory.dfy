/** User memory as its owner sees it, byte by byte through the address space. */
module UserMemory {
  import opened Words
  import opened PageTables
  import opened VmState

  /** The user may access virtual address va. */
  predicate Accessible(sp: Space, va: nat) { Translate(sp, va) != 0 }

  predicate AllAccessible(sp: Space, va: nat, n: nat) {
    forall i :: 0 <= i < n ==> Accessible(sp, Nth(va, i))
  }

  /** Memory holds the bytes of every page the user may access. */
  ghost predicate Backed(mem: map<nat, Page>, sp: Space) {
    forall va :: Accessible(sp, va) ==> HoldsBytes(mem, Translate(sp, va))
  }

  /** Different user pages are different physical pages. */
  ghost predicate Injective(sp: Space) {
    forall a, b :: Accessible(sp, a) && Accessible(sp, b) && Translate(sp, a) == Translate(sp, b) ==>
          PageNo(a) == PageNo(b)
  }

  /** A page the user may access is the address space's own. */
  lemma AccessibleOwned(lo: nat, k: K, r: nat, va: nat)
    requires Inv(lo, k, 0) && r in k.spaces && Accessible(k.spaces[r], va)
    ensures var pa := Translate(k.spaces[r], va);
            pa in k.own && k.own[pa] == Data(r, PageNo(va)) && HoldsBytes(k.mem, pa)
  {
    assert Rep(k.mem, r, k.spaces[r]) && SpaceOwns(k.own, r, k.spaces[r]);
    assert LeafOk(k.spaces[r], PageNo(va));
  }

  /** So in every state of the kernel all address spaces are backed and injective. */
  lemma SpacesAre(lo: nat, k: K, r: nat)
    requires Inv(lo, k, 0) && r in k.spaces
    ensures Backed(k.mem, k.spaces[r]) && Injective(k.spaces[r])
  {
    var sp := k.spaces[r];
    forall va | Accessible(sp, va)
      ensures HoldsBytes(k.mem, Translate(sp, va))
    {
      AccessibleOwned(lo, k, r, va);
    }
    forall a, b | Accessible(sp, a) && Accessible(sp, b) && Translate(sp, a) == Translate(sp, b)
      ensures PageNo(a) == PageNo(b)
    {
      AccessibleOwned(lo, k, r, a);
      AccessibleOwned(lo, k, r, b);
    }
  }

  /** The byte the user sees at va. */
  function ByteAt(mem: map<nat, Page>, sp: Space, va: nat): byte {
    var pa := Translate(sp, va);
    if pa in mem && mem[pa].Bytes? && va % PGSIZE < |mem[pa].data| then mem[pa].data[va % PGSIZE] else 0
  }

  function BytesAt(mem: map<nat, Page>, sp: Space, va: nat, n: nat): (s: seq<byte>)
    ensures |s| == n
  {
    seq(n, i requires 0 <= i < n => ByteAt(mem, sp, Nth(va, i)))
  }

  /** Writing one byte at va, and bytes from va on, one by one. */
  function Poke(mem: map<nat, Page>, sp: Space, va: nat, b: byte): map<nat, Page> {
    var pa := Translate(sp, va);
    if pa in mem && mem[pa].Bytes?
        && va % PGSIZE < |mem[pa].data| then mem[pa := Bytes(mem[pa].data[va % PGSIZE := b])] else mem
  }

  function Store(mem: map<nat, Page>, sp: Space, va: nat, bytes: seq<byte>): map<nat, Page>
    decreases |bytes|
  {
    if bytes == [] then mem else Poke(Store(mem, sp, va, bytes[..|bytes| - 1]), sp, Nth(va, |bytes| - 1),
          bytes[|bytes| - 1])
  }

  lemma PokeBacked(mem: map<nat, Page>, sp: Space, va: nat, b: byte)
    requires Backed(mem, sp)
    ensures Backed(Poke(mem, sp, va, b), sp)
  {}

  lemma {:induction false} StoreBacked(mem: map<nat, Page>, sp: Space, va: nat, bytes: seq<byte>)
    requires Backed(mem, sp)
    ensures Backed(Store(mem, sp, va, bytes), sp)
    decreases |bytes|
  {
    if bytes != [] {
      StoreBacked(mem, sp, va, bytes[..|bytes| - 1]);
      PokeBacked(Store(mem, sp, va, bytes[..|bytes| - 1]), sp, Nth(va, |bytes| - 1), bytes[|bytes| - 1]);
    }
  }

  /** After a write the user sees the new byte there, and the old ones elsewhere. */
  lemma PokeAt(mem: map<nat, Page>, sp: Space, va: nat, b: byte, a: nat)
    requires Backed(mem, sp) && Injective(sp) && Accessible(sp, va) && Accessible(sp, a)
    ensures ByteAt(Poke(mem, sp, va, b), sp, a) == if a == va then b else ByteAt(mem, sp, a)
  {
    assert HoldsBytes(mem, Translate(sp, va)) && HoldsBytes(mem, Translate(sp, a));
  }

  lemma {:induction false} StoreAt(mem: map<nat, Page>, sp: Space, va: nat, bytes: seq<byte>, a: nat)
    requires Backed(mem, sp) && Injective(sp) && AllAccessible(sp, va, |bytes|) && Accessible(sp, a)
    ensures ByteAt(Store(mem, sp, va, bytes), sp, a) ==
            if va <= a < va + |bytes| then bytes[a - va] else ByteAt(mem, sp, a)
    decreases |bytes|
  {
    if bytes != [] {
      var n := |bytes| - 1;
      StoreAt(mem, sp, va, bytes[..n], a);
      StoreBacked(mem, sp, va, bytes[..n]);
      PokeAt(Store(mem, sp, va, bytes[..n]), sp, Nth(va, n), bytes[n], a);
    }
  }

  /** What was written is what is read. */
  lemma CopyRoundTrip(mem: map<nat, Page>, sp: Space, va: nat, bytes: seq<byte>)
    requires Backed(mem, sp) && Injective(sp) && AllAccessible(sp, va, |bytes|)
    ensures BytesAt(Store(mem, sp, va, bytes), sp, va, |bytes|) == bytes
  {
    forall i | 0 <= i < |bytes|
      ensures ByteAt(Store(mem, sp, va, bytes), sp, Nth(va, i)) == bytes[i]
    {
      StoreAt(mem, sp, va, bytes, Nth(va, i));
    }
  }

  // ----- a page at a time -----

  /** Addresses of one page. */
  lemma SamePage(sp: Space, va: nat, n: nat, i: nat)
    requires i < n <= PGSIZE - va % PGSIZE
    ensures Translate(sp, Nth(va, i)) == Translate(sp, va) && Nth(va, i) % PGSIZE == va % PGSIZE + i
  {
    assert Nth(va, i) / PGSIZE == va / PGSIZE;
  }

  /** The bytes of part of a page. */
  lemma ChunkBytes(mem: map<nat, Page>, sp: Space, va: nat, n: nat)
    requires Backed(mem, sp) && Accessible(sp, va) && n <= PGSIZE - va % PGSIZE
    ensures var pa, off := Translate(sp, va), va % PGSIZE;
            HoldsBytes(mem, pa) && mem[pa].data[off..off + n] == BytesAt(mem, sp, va, n) && AllAccessible(sp, va, n)
  {
    forall i | 0 <= i < n
      ensures Accessible(sp, Nth(va, i)) && mem[Translate(sp, va)].data[va % PGSIZE + i] == ByteAt(mem, sp, Nth(va, i))
    {
      SamePage(sp, va, n, i);
    }
  }

  /** Part of a page replaced. */
  function Patch(data: seq<byte>, off: nat, bytes: seq<byte>): seq<byte>
    requires off + |bytes| <= |data|
  {
    data[..off] + bytes + data[off + |bytes|..]
  }

  lemma {:induction false} ChunkStore(mem: map<nat, Page>, sp: Space, va: nat, bytes: seq<byte>)
    requires Backed(mem, sp) && Accessible(sp, va) && |bytes| <= PGSIZE - va % PGSIZE
    ensures var pa := Translate(sp, va);
            HoldsBytes(mem, pa)
                && Store(mem, sp, va, bytes) == mem[pa := Bytes(Patch(mem[pa].data, va % PGSIZE, bytes))]
    decreases |bytes|
  {
    var pa, off := Translate(sp, va), va % PGSIZE;
    assert HoldsBytes(mem, pa);
    if bytes == [] {
      assert Patch(mem[pa].data, off, bytes) == mem[pa].data;
    } else {
      var n := |bytes| - 1;
      ChunkStore(mem, sp, va, bytes[..n]);
      SamePage(sp, va, |bytes|, n);
      assert Patch(mem[pa].data, off, bytes) == Patch(mem[pa].data, off, bytes[..n])[off + n := bytes[n]];
    }
  }

  lemma {:induction false} StoreTwice(mem: map<nat, Page>, sp: Space, va: nat, s: seq<byte>, t: seq<byte>)
    ensures Store(Store(mem, sp, va, s), sp, Nth(va, |s|), t) == Store(mem, sp, va, s + t)
    decreases |t|
  {
    if t == [] {
      assert s + t == s;
    } else {
      var n := |t| - 1;
      StoreTwice(mem, sp, va, s, t[..n]);
      assert (s + t)[..|s + t| - 1] == s + t[..n];
      assert Nth(Nth(va, |s|), n) == Nth(va, |s + t| - 1);
    }
  }

  lemma BytesJoin(mem: map<nat, Page>, sp: Space, va: nat, n: nat, m: nat)
    ensures BytesAt(mem, sp, va, n) + BytesAt(mem, sp, Nth(va, n), m) == BytesAt(mem, sp, va, n + m)
    ensures AllAccessible(sp, va, n) && AllAccessible(sp, Nth(va, n), m) ==> AllAccessible(sp, va, n + m)
  {
    var b := BytesAt(mem, sp, va, n) + BytesAt(mem, sp, Nth(va, n), m);
    forall i | 0 <= i < n + m
      ensures b[i] == ByteAt(mem, sp, Nth(va, i))
      ensures AllAccessible(sp, va, n) && AllAccessible(sp, Nth(va, n), m) ==> Accessible(sp, Nth(va, i))
    {
      if i >= n { assert Nth(Nth(va, n), i - n) == Nth(va, i); }
    }
  }

  lemma SameTranslation(sp: Space, va: nat)
    ensures Translate(sp, RoundDown(va)) == Translate(sp, va) && va - RoundDown(va) == va % PGSIZE
    ensures (va + (PGSIZE - va % PGSIZE)) % PGSIZE == 0
  {
    assert RoundDown(va) < MAXVA <==> va < MAXVA;
  }

  lemma StoreMore(mem: map<nat, Page>, sp: Space, va: nat, src: seq<byte>, d: nat, n: nat)
    requires d + n <= |src| && AllAccessible(sp, va, d) && AllAccessible(sp, Nth(va, d), n)
    ensures Store(Store(mem, sp, va, src[..d]), sp, Nth(va, d), src[d..d + n]) == Store(mem, sp, va, src[..d + n])
    ensures AllAccessible(sp, va, d + n)
  {
    StoreTwice(mem, sp, va, src[..d], src[d..d + n]);
    assert src[..d] + src[d..d + n] == src[..d + n];
    BytesJoin(mem, sp, va, d, n);
  }

  /** A data page may be given other bytes. */
  lemma WrittenInv(lo: nat, k: K, pa: nat, page: Page)
    requires Inv(lo, k, 0) && pa in k.own && k.own[pa].Data? && page.Bytes? && |page.data| == PGSIZE
    ensures Inv(lo, k.(mem := k.mem[pa := page]), 0)
  {
    WriteFrame(k.mem, k.own, k.spaces, pa, page);
    LinkedFrame(k.mem, k.freelist, k.free, pa, page);
  }

  lemma UserChunk(lo: nat, k: K, r: nat, va: nat, n: nat)
    requires Inv(lo, k, 0) && r in k.spaces && Accessible(k.spaces[r], va) && n <= PGSIZE - va % PGSIZE
    ensures var sp := k.spaces[r];
            var pa, off := Translate(sp, va), va % PGSIZE;
            HoldsBytes(k.mem, pa) && k.mem[pa].data[off..off + n] == BytesAt(k.mem, sp, va, n)
                && AllAccessible(sp, va, n)
  {
    SpacesAre(lo, k, r);
    ChunkBytes(k.mem, k.spaces[r], va, n);
  }

  // ----- strings -----

  /** At va there is a string of n bytes, followed by its NUL, all accessible. */
  ghost predicate StringAt(mem: map<nat, Page>, sp: Space, va: nat, n: nat) {
    AllAccessible(sp, va, n + 1) && ByteAt(mem, sp, Nth(va, n)) == 0 && 0 !in BytesAt(mem, sp, va, n)
  }

  lemma BytesPrefix(mem: map<nat, Page>, sp: Space, va: nat, n: nat, m: nat)
    requires m <= n
    ensures BytesAt(mem, sp, va, n)[..m] == BytesAt(mem, sp, va, m)
    ensures AllAccessible(sp, va, n) ==> AllAccessible(sp, va, m)
  {}

  /** d bytes without NUL, then some of the next n: up to a NUL if there is one. */
  lemma StringGrows(mem: map<nat, Page>, sp: Space, va: nat, d: nat, n: nat, dst: seq<byte>, copied: seq<byte>,
                    found: bool)
    requires AllAccessible(sp, va, d) && AllAccessible(sp, Nth(va, d), n) && dst == BytesAt(mem, sp, va, d) && 0 !in dst
    requires copied <= BytesAt(mem, sp, Nth(va, d), n)
    requires found ==> copied != [] && copied[|copied| - 1] == 0 && 0 !in copied[..|copied| - 1]
    requires !found ==> 0 !in copied && |copied| == n
    ensures dst + copied == BytesAt(mem, sp, va, d + |copied|) && AllAccessible(sp, va, d + |copied|)
    ensures found ==> StringAt(mem, sp, va, d + |copied| - 1)
    ensures !found ==> 0 !in dst + copied
  {
    BytesPrefix(mem, sp, Nth(va, d), n, |copied|);
    BytesJoin(mem, sp, va, d, |copied|);
    if found {
      var m := d + |copied| - 1;
      BytesPrefix(mem, sp, va, d + |copied|, m);
      assert (dst + copied)[..m] == dst + copied[..|copied| - 1];
      assert (dst + copied)[m] == 0;
    }
  }

  /** Without a NUL in the first d bytes, and nothing to read after them, there is no string. */
  lemma NoString(mem: map<nat, Page>, sp: Space, va: nat, d: nat, max: nat, fault: bool)
    requires 0 !in BytesAt(mem, sp, va, d) && d <= max && (if fault then !Accessible(sp, Nth(va, d)) else d == max)
    ensures forall n: nat :: n < max ==> !StringAt(mem, sp, va, n)
  {
    forall n: nat | n < max
      ensures !StringAt(mem, sp, va, n)
    {
      if n < d { assert BytesAt(mem, sp, va, d)[n] == ByteAt(mem, sp, Nth(va, n)); }
    }
  }

  /** copyinstr() has read d bytes: up to a NUL if it got one, else without; at a fault, the next is not accessible. */
  ghost predicate Scanned(mem: map<nat, Page>, sp: Space, va: nat, max: nat, d: nat, dst: seq<byte>, got: bool,
                          fault: bool) {
    && d <= max && dst == BytesAt(mem, sp, va, d) && AllAccessible(sp, va, d)
    && (if got then d > 0 && StringAt(mem, sp, va, d - 1) else 0 !in dst)
    && (fault ==> !got && d < max && !Accessible(sp, Nth(va, d)))
  }

  /** The bytes up to and with the first 0, if there is one. */
  ghost predicate CutAtNul(bytes: seq<byte>, copied: seq<byte>, found: bool) {
    && copied <= bytes && (found <==> 0 in bytes) && (!found ==> copied == bytes)
    && (found ==> copied != [] && copied[|copied| - 1] == 0 && 0 !in copied[..|copied| - 1])
  }

  lemma ScannedMore(mem: map<nat, Page>, sp: Space, va: nat, max: nat, d: nat, dst: seq<byte>, n: nat,
                    copied: seq<byte>, found: bool, d': nat)
    requires Scanned(mem, sp, va, max, d, dst, false, false) && AllAccessible(sp, Nth(va, d), n) && 0 < n <= max - d
    requires CutAtNul(BytesAt(mem, sp, Nth(va, d), n), copied, found) && d' == d + |copied|
    ensures d < d' && Scanned(mem, sp, va, max, d', dst + copied, found, false)
  {
    StringGrows(mem, sp, va, d, n, dst, copied, found);
  }

  lemma ScannedAll(mem: map<nat, Page>, sp: Space, va: nat, max: nat, d: nat, dst: seq<byte>, got: bool, fault: bool)
    requires Scanned(mem, sp, va, max, d, dst, got, fault) && (got || fault || d == max)
    ensures got <==> exists n: nat :: n < max && StringAt(mem, sp, va, n)
    ensures got ==> dst != [] && StringAt(mem, sp, va, |dst| - 1) && dst == BytesAt(mem, sp, va, |dst|)
  {
    if got {
      assert d - 1 < max && StringAt(mem, sp, va, d - 1);
    } else {
      NoString(mem, sp, va, d, max, fault);
    }
  }
}
