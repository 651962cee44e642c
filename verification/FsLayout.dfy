/**
 The block and inode layer of kernel/fs.c as values: which block each inode slot
 refers to, who owns each block, and what bytes a file consists of.
 */
module FsLayout {
  import opened Counting
  import opened Words
  import LogCore

  const MAXOPBLOCKS := LogCore.MAXOPBLOCKS
  const NDIRECT: nat := 12
  const NINDIRECT: nat := WORDS
  const MAXFILE: nat := NDIRECT + NINDIRECT
  const BPB: nat := 8 * BSIZE
  const IPB: nat := BSIZE / 64

  /** Slots of an inode: direct pointers, the pointer to the indirect block, its entries. */
  const INDIRECT: nat := NDIRECT
  const SLOTS: nat := NDIRECT + 1 + NINDIRECT

  datatype Inode = Inode(kind: nat, nlink: nat, size: nat, addrs: seq<nat>)
  datatype Slot = Slot(inum: nat, k: nat)

  /** `datastart` is the first block after the boot block, super block, log, inodes and bitmap. */
  datatype Super = Super(size: nat, inodestart: nat, bmapstart: nat, datastart: nat)

  datatype Fs = Fs(bits: seq<bool>, data: seq<Block>, inodes: seq<Inode>)

  /** The bitmap block with the bit of block b, and the block with inode i. */
  function BBlock(sb: Super, b: nat): nat { b / BPB + sb.bmapstart }
  function IBlock(sb: Super, i: nat): nat { i / IPB + sb.inodestart }

  /** The slot that holds the address of a file's bn-th block. */
  function SlotOf(bn: nat): (k: nat)
    requires bn < MAXFILE
    ensures k < SLOTS && k != INDIRECT
  {
    if bn < NDIRECT then bn else bn + 1
  }

  ghost predicate InodeOk(sb: Super, ip: Inode) {
    |ip.addrs| == NDIRECT + 1 && forall k :: 0 <= k <= NDIRECT ==> ip.addrs[k] < sb.size
  }

  ghost predicate Shape(sb: Super, fs: Fs) {
    && 0 < sb.datastart <= sb.size < 0x1_0000_0000
    && |fs.bits| == |fs.data| == sb.size
    && forall i :: 0 <= i < |fs.inodes| ==> InodeOk(sb, fs.inodes[i])
  }

  /** What slot k of an inode refers to; 0 is nothing. */
  function SlotRef(data: seq<Block>, ip: Inode, k: nat): nat
    requires k < SLOTS && |ip.addrs| == NDIRECT + 1 && ip.addrs[INDIRECT] < |data|
  {
    if k <= NDIRECT then ip.addrs[k]
    else if ip.addrs[INDIRECT] == 0 then 0
    else Word(data[ip.addrs[INDIRECT]], k - NDIRECT - 1)
  }

  predicate IsSlot(fs: Fs, i: int, k: int) { 0 <= i < |fs.inodes| && 0 <= k < SLOTS }

  ghost function Ref(sb: Super, fs: Fs, i: nat, k: nat): nat
    requires Shape(sb, fs) && IsSlot(fs, i, k)
  {
    SlotRef(fs.data, fs.inodes[i], k)
  }

  // ----- ownership -----

  /** `owner` names the one slot that refers to each allocated data block. */
  ghost predicate Owned(sb: Super, fs: Fs, owner: map<nat, Slot>) {
    && Shape(sb, fs)
    && (forall i, k :: IsSlot(fs, i, k) && Ref(sb, fs, i, k) != 0 ==>
          Ref(sb, fs, i, k) in owner && owner[Ref(sb, fs, i, k)] == Slot(i, k))
    && (forall b :: b in owner ==>
          && sb.datastart <= b < sb.size && IsSlot(fs, owner[b].inum, owner[b].k)
          && Ref(sb, fs, owner[b].inum, owner[b].k) == b)
    && (forall b :: 0 <= b < sb.size ==> (fs.bits[b] <==> b < sb.datastart || b in owner))
  }

  /**
   Exclusive ownership: a block's bit is set exactly when it is metadata or some
   slot refers to it, and no two slots refer to the same block.
   */
  lemma ExclusiveOwnership(sb: Super, fs: Fs, owner: map<nat, Slot>, b: nat)
    requires Owned(sb, fs, owner) && b < sb.size
    ensures fs.bits[b] <==> b < sb.datastart || exists i, k :: IsSlot(fs, i, k) && b != 0 && Ref(sb, fs, i, k) == b
    ensures forall i, k, j, l ::
              (IsSlot(fs, i, k) && IsSlot(fs, j, l) && Ref(sb, fs, i, k) == b && Ref(sb, fs, j, l) == b && b != 0) ==>
                i == j && k == l
    ensures forall i, k :: IsSlot(fs, i, k) && Ref(sb, fs, i, k) == b && b != 0 ==> b >= sb.datastart
  {
    if b in owner { assert Ref(sb, fs, owner[b].inum, owner[b].k) == b; }
  }

  // ----- allocating a block for a slot -----

  /** balloc(): mark b in use and zero it. */
  function Allocated(fs: Fs, b: nat): Fs
    requires b < |fs.bits| == |fs.data|
  {
    fs.(bits := fs.bits[b := true], data := fs.data[b := ZeroBlock()])
  }

  function SetAddr(fs: Fs, i: nat, k: nat, b: nat): Fs
    requires i < |fs.inodes| && k < |fs.inodes[i].addrs|
  {
    var ip := fs.inodes[i];
    fs.(inodes := fs.inodes[i := ip.(addrs := ip.addrs[k := b])])
  }

  /** Store b in entry e of the indirect block ind. */
  function SetEntry(fs: Fs, ind: nat, e: nat, b: uint): Fs
    requires ind < |fs.data| && e < NINDIRECT
  {
    fs.(data := fs.data[ind := SetWord(fs.data[ind], e, b)])
  }

  /** fs' differs from fs in that slot (i, k), empty before, now refers to the fresh block b. */
  ghost predicate Attached(sb: Super, fs: Fs, fs': Fs, i: nat, k: nat, b: nat)
    requires Shape(sb, fs) && IsSlot(fs, i, k)
  {
    && Shape(sb, fs') && b < sb.size && |fs'.inodes| == |fs.inodes|
    && fs'.bits == fs.bits[b := true]
    && fs'.data[b] == ZeroBlock()
    && (forall j, l :: IsSlot(fs, j, l) ==> Ref(sb, fs', j, l) == if j == i && l == k then b else Ref(sb, fs, j, l))
    && (forall c :: 0 <= c < sb.size && c != b && c != fs.inodes[i].addrs[INDIRECT] ==> fs'.data[c] == fs.data[c])
    && (forall j :: 0 <= j < |fs.inodes| && j != i ==> fs'.inodes[j] == fs.inodes[j])
    && fs'.inodes[i] == fs.inodes[i].(addrs := fs'.inodes[i].addrs)
  }

  lemma NewAddr(sb: Super, fs: Fs, owner: map<nat, Slot>, i: nat, k: nat, b: nat)
    requires Owned(sb, fs, owner) && i < |fs.inodes| && k <= NDIRECT && fs.inodes[i].addrs[k] == 0
    requires b < sb.size && !fs.bits[b]
    ensures Attached(sb, fs, SetAddr(Allocated(fs, b), i, k, b), i, k, b)
  {
    var fs' := SetAddr(Allocated(fs, b), i, k, b);
    forall j, l | IsSlot(fs, j, l)
      ensures Ref(sb, fs', j, l) == if j == i && l == k then b else Ref(sb, fs, j, l)
    {
      if l > NDIRECT {
        ZeroWord(l - NDIRECT - 1);
        assert Ref(sb, fs, j, INDIRECT) != 0 ==> Ref(sb, fs, j, INDIRECT) in owner;
      }
    }
  }

  lemma NewEntry(sb: Super, fs: Fs, owner: map<nat, Slot>, i: nat, e: nat, b: nat)
    requires Owned(sb, fs, owner) && i < |fs.inodes| && e < NINDIRECT
    requires fs.inodes[i].addrs[INDIRECT] != 0 && Ref(sb, fs, i, NDIRECT + 1 + e) == 0
    requires b < sb.size && !fs.bits[b]
    ensures Attached(sb, fs, SetEntry(Allocated(fs, b), fs.inodes[i].addrs[INDIRECT], e, b), i, NDIRECT + 1 + e, b)
  {
    var ind := fs.inodes[i].addrs[INDIRECT];
    var fs' := SetEntry(Allocated(fs, b), ind, e, b);
    assert Ref(sb, fs, i, INDIRECT) == ind;
    forall j, l | IsSlot(fs, j, l)
      ensures Ref(sb, fs', j, l) == if j == i && l == NDIRECT + 1 + e then b else Ref(sb, fs, j, l)
    {
      if l > NDIRECT {
        WordAfterSet(fs.data[ind], e, b, l - NDIRECT - 1);
        assert Ref(sb, fs, j, INDIRECT) != 0 ==> Ref(sb, fs, j, INDIRECT) in owner;
      }
    }
  }

  /** Attaching a free block keeps every block singly owned. */
  lemma AttachOwns(sb: Super, fs: Fs, fs': Fs, owner: map<nat, Slot>, i: nat, k: nat, b: nat)
    requires Owned(sb, fs, owner) && IsSlot(fs, i, k) && Ref(sb, fs, i, k) == 0
    requires Attached(sb, fs, fs', i, k, b) && !fs.bits[b]
    ensures Owned(sb, fs', owner[b := Slot(i, k)]) && b >= sb.datastart
  {
    var owner' := owner[b := Slot(i, k)];
    forall j, l | IsSlot(fs', j, l) && Ref(sb, fs', j, l) != 0
      ensures Ref(sb, fs', j, l) in owner' && owner'[Ref(sb, fs', j, l)] == Slot(j, l)
    {
      assert IsSlot(fs, j, l);
    }
    forall c | c in owner'
      ensures sb.datastart <= c < sb.size && IsSlot(fs', owner'[c].inum, owner'[c].k)
              && Ref(sb, fs', owner'[c].inum, owner'[c].k) == c
    {
      if c != b { assert IsSlot(fs, owner[c].inum, owner[c].k); }
    }
  }

  // ----- file contents -----

  /** The byte at offset p of file i, as the block map finds it. */
  ghost function ByteAt(sb: Super, fs: Fs, i: nat, p: nat): byte
    requires Shape(sb, fs) && i < |fs.inodes| && p < MAXFILE * BSIZE
  {
    var b := Ref(sb, fs, i, SlotOf(p / BSIZE));
    if b < |fs.data| then fs.data[b][p % BSIZE] else 0
  }

  /** Every byte below the size of file i lies in a mapped block. */
  ghost predicate Mapped(sb: Super, fs: Fs, i: nat)
    requires Shape(sb, fs) && i < |fs.inodes|
  {
    && fs.inodes[i].size <= MAXFILE * BSIZE
    && forall bn :: 0 <= bn < MAXFILE && bn * BSIZE < fs.inodes[i].size ==> Ref(sb, fs, i, SlotOf(bn)) != 0
  }

  ghost function Content(sb: Super, fs: Fs, i: nat): (c: seq<byte>)
    requires Shape(sb, fs) && i < |fs.inodes| && Mapped(sb, fs, i)
    ensures |c| == fs.inodes[i].size
  {
    seq(fs.inodes[i].size, p requires 0 <= p < fs.inodes[i].size => ByteAt(sb, fs, i, p))
  }

  /** Every file is mapped up to its size. */
  ghost predicate AllMapped(sb: Super, fs: Fs) {
    Shape(sb, fs) && forall i :: 0 <= i < |fs.inodes| ==> Mapped(sb, fs, i)
  }

  ghost predicate FsInv(sb: Super, fs: Fs, owner: map<nat, Slot>) {
    Owned(sb, fs, owner) && AllMapped(sb, fs)
  }

  /**
   From fs to fs', file i may have gained blocks; no mapped block of any file
   has moved or changed.
   */
  ghost predicate Grown(sb: Super, fs: Fs, fs': Fs, i: nat)
    requires Shape(sb, fs) && i < |fs.inodes|
  {
    && Shape(sb, fs') && |fs'.inodes| == |fs.inodes|
    && (forall j, l :: IsSlot(fs, j, l) && (j != i || Ref(sb, fs, j, l) != 0) ==>
         Ref(sb, fs', j, l) == Ref(sb, fs, j, l))
    && (forall j, l :: IsSlot(fs, j, l) && l != INDIRECT && Ref(sb, fs, j, l) != 0 ==>
          Ref(sb, fs, j, l) < sb.size && fs'.data[Ref(sb, fs, j, l)] == fs.data[Ref(sb, fs, j, l)])
    && (forall j :: 0 <= j < |fs.inodes| && j != i ==> fs'.inodes[j] == fs.inodes[j])
    && fs'.inodes[i] == fs.inodes[i].(addrs := fs'.inodes[i].addrs)
  }

  lemma AttachGrows(sb: Super, fs: Fs, fs': Fs, owner: map<nat, Slot>, i: nat, k: nat, b: nat)
    requires Owned(sb, fs, owner) && IsSlot(fs, i, k) && Ref(sb, fs, i, k) == 0
    requires Attached(sb, fs, fs', i, k, b) && !fs.bits[b]
    ensures Grown(sb, fs, fs', i)
  {
    forall j, l | IsSlot(fs, j, l) && l != INDIRECT && Ref(sb, fs, j, l) != 0
      ensures Ref(sb, fs, j, l) < sb.size && fs'.data[Ref(sb, fs, j, l)] == fs.data[Ref(sb, fs, j, l)]
    {
      var c := Ref(sb, fs, j, l);
      assert c in owner && owner[c] == Slot(j, l);
      assert Ref(sb, fs, i, INDIRECT) == fs.inodes[i].addrs[INDIRECT];
    }
  }

  lemma GrownTransitive(sb: Super, fs: Fs, fs1: Fs, fs2: Fs, i: nat)
    requires Shape(sb, fs) && i < |fs.inodes| && Grown(sb, fs, fs1, i) && Grown(sb, fs1, fs2, i)
    ensures Grown(sb, fs, fs2, i)
  {
    forall j, l | IsSlot(fs, j, l) && (j != i || Ref(sb, fs, j, l) != 0)
      ensures Ref(sb, fs2, j, l) == Ref(sb, fs, j, l)
      ensures l != INDIRECT && Ref(sb, fs, j, l) != 0 ==> fs2.data[Ref(sb, fs, j, l)] == fs.data[Ref(sb, fs, j, l)]
    {
      assert IsSlot(fs1, j, l);
      assert Ref(sb, fs1, j, l) == Ref(sb, fs, j, l);
    }
  }

  lemma GrownSelf(sb: Super, fs: Fs, owner: map<nat, Slot>, i: nat)
    requires Owned(sb, fs, owner) && i < |fs.inodes|
    ensures Grown(sb, fs, fs, i)
  {
    forall j, l | IsSlot(fs, j, l) && Ref(sb, fs, j, l) != 0
      ensures Ref(sb, fs, j, l) < sb.size
    {
      assert Ref(sb, fs, j, l) in owner;
    }
  }

  /** Growing a file leaves every byte of every mapped block as it was. */
  lemma GrownBytes(sb: Super, fs: Fs, fs': Fs, i: nat, j: nat, p: nat)
    requires Shape(sb, fs) && i < |fs.inodes| && Grown(sb, fs, fs', i)
    requires j < |fs.inodes| && p < MAXFILE * BSIZE && Ref(sb, fs, j, SlotOf(p / BSIZE)) != 0
    ensures ByteAt(sb, fs', j, p) == ByteAt(sb, fs, j, p)
  {
    assert IsSlot(fs, j, SlotOf(p / BSIZE));
  }

  /** Writing a data block changes that block of that file and nothing else. */
  lemma DataWrite(sb: Super, fs: Fs, owner: map<nat, Slot>, i: nat, bn: nat, v: Block)
    requires Owned(sb, fs, owner) && i < |fs.inodes| && bn < MAXFILE && Ref(sb, fs, i, SlotOf(bn)) != 0
    ensures Ref(sb, fs, i, SlotOf(bn)) < sb.size
    ensures var fs' := fs.(data := fs.data[Ref(sb, fs, i, SlotOf(bn)) := v]);
            && Owned(sb, fs', owner)
            && (forall j, l :: IsSlot(fs, j, l) ==> Ref(sb, fs', j, l) == Ref(sb, fs, j, l))
            && (forall j, p :: 0 <= j < |fs.inodes| && 0 <= p < MAXFILE * BSIZE ==>
                  ByteAt(sb, fs', j, p) == if j == i && p / BSIZE == bn then v[p % BSIZE] else ByteAt(sb, fs, j, p))
  {
    var b := Ref(sb, fs, i, SlotOf(bn));
    assert b in owner && owner[b] == Slot(i, SlotOf(bn));
    var fs' := fs.(data := fs.data[b := v]);
    forall j, l | IsSlot(fs, j, l)
      ensures Ref(sb, fs', j, l) == Ref(sb, fs, j, l)
    {
      assert Ref(sb, fs, j, INDIRECT) == fs.inodes[j].addrs[INDIRECT];
    }
    forall j, p | 0 <= j < |fs.inodes| && 0 <= p < MAXFILE * BSIZE
      ensures ByteAt(sb, fs', j, p) == if j == i && p / BSIZE == bn then v[p % BSIZE] else ByteAt(sb, fs, j, p)
    {
      var l := SlotOf(p / BSIZE);
      assert IsSlot(fs, j, l) && Ref(sb, fs', j, l) == Ref(sb, fs, j, l);
    }
  }

  /** Slot k of inode i now is addr, zeroed if it is new; the other data slots of i are what they were. */
  ghost predicate OneSlot(sb: Super, fs: Fs, fs': Fs, i: nat, k: nat, addr: nat)
    requires Shape(sb, fs) && Shape(sb, fs') && IsSlot(fs, i, k) && |fs'.inodes| == |fs.inodes|
  {
    && Ref(sb, fs', i, k) == addr
    && (Ref(sb, fs, i, k) == 0 && addr != 0 ==> addr < sb.size && fs'.data[addr] == ZeroBlock())
    && forall l :: IsSlot(fs, i, l) && l != k && l != INDIRECT ==> Ref(sb, fs', i, l) == Ref(sb, fs, i, l)
  }

  /** The data slots of inode i refer to what they did. */
  ghost predicate SameData(sb: Super, fs: Fs, fs': Fs, i: nat)
    requires Shape(sb, fs) && Shape(sb, fs') && i < |fs.inodes| == |fs'.inodes|
  {
    forall l :: IsSlot(fs, i, l) && l != INDIRECT ==> Ref(sb, fs', i, l) == Ref(sb, fs, i, l)
  }

  lemma OneSlotAfter(sb: Super, fs: Fs, fs1: Fs, fs2: Fs, i: nat, k: nat, addr: nat)
    requires Shape(sb, fs) && Shape(sb, fs1) && Shape(sb, fs2) && |fs.inodes| == |fs1.inodes| == |fs2.inodes|
    requires IsSlot(fs, i, k) && k != INDIRECT
    requires SameData(sb, fs, fs1, i) && OneSlot(sb, fs1, fs2, i, k, addr)
    ensures OneSlot(sb, fs, fs2, i, k, addr) && Ref(sb, fs1, i, k) == Ref(sb, fs, i, k)
  {
    forall l | IsSlot(fs, i, l) && l != INDIRECT
      ensures Ref(sb, fs1, i, l) == Ref(sb, fs, i, l)
      ensures l != k ==> Ref(sb, fs2, i, l) == Ref(sb, fs, i, l)
    {
      assert IsSlot(fs1, i, l);
    }
  }

  /** A block past the direct ones is found only through the indirect block. */
  lemma IndirectNeeded(sb: Super, fs: Fs, i: nat, bn: nat)
    requires Shape(sb, fs) && i < |fs.inodes| && NDIRECT <= bn < MAXFILE
    ensures Ref(sb, fs, i, SlotOf(bn)) != 0 ==> fs.inodes[i].addrs[INDIRECT] != 0
    ensures SlotOf(bn) == NDIRECT + 1 + (bn - NDIRECT)
  {}

  // ----- writing a range of a file -----

  /** From fs0 to fs, the first r bytes of src were written at offset off of file i, and nothing else. */
  ghost predicate Written(sb: Super, fs0: Fs, fs: Fs, i: nat, off: nat, src: seq<byte>, r: nat)
    requires Shape(sb, fs0) && i < |fs0.inodes| && r <= |src| && off + r <= MAXFILE * BSIZE
  {
    && Shape(sb, fs) && |fs.inodes| == |fs0.inodes|
    && (forall j :: 0 <= j < |fs.inodes| && j != i ==> fs.inodes[j] == fs0.inodes[j])
    && fs.inodes[i] == fs0.inodes[i].(addrs := fs.inodes[i].addrs)
    && (forall j, l :: IsSlot(fs0, j, l) && (j != i || Ref(sb, fs0, j, l) != 0) ==>
         Ref(sb, fs, j, l) == Ref(sb, fs0, j, l))
    && (forall p :: off <= p < off + r ==>
         Ref(sb, fs, i, SlotOf(p / BSIZE)) != 0 && ByteAt(sb, fs, i, p) == src[p - off])
    && (forall j, p ::
          (0 <= j < |fs.inodes| && 0 <= p < MAXFILE * BSIZE && !(j == i && off <= p < off + r)
           && Ref(sb, fs0, j, SlotOf(p / BSIZE)) != 0) ==> ByteAt(sb, fs, j, p) == ByteAt(sb, fs0, j, p))
  }

  lemma WrittenGrown(sb: Super, fs0: Fs, fs: Fs, fs': Fs, i: nat, off: nat, src: seq<byte>, r: nat)
    requires Shape(sb, fs0) && i < |fs0.inodes| && r <= |src| && off + r <= MAXFILE * BSIZE
    requires Written(sb, fs0, fs, i, off, src, r) && Grown(sb, fs, fs', i)
    ensures Written(sb, fs0, fs', i, off, src, r)
  {
    forall j, l | IsSlot(fs0, j, l) && (j != i || Ref(sb, fs0, j, l) != 0)
      ensures Ref(sb, fs', j, l) == Ref(sb, fs0, j, l)
    {
      assert IsSlot(fs, j, l);
    }
    forall j, p | 0 <= j < |fs.inodes| && 0 <= p < MAXFILE * BSIZE && Ref(sb, fs, j, SlotOf(p / BSIZE)) != 0
      ensures Ref(sb, fs', j, SlotOf(p / BSIZE)) != 0 && ByteAt(sb, fs', j, p) == ByteAt(sb, fs, j, p)
    {
      assert IsSlot(fs, j, SlotOf(p / BSIZE));
      GrownBytes(sb, fs, fs', i, j, p);
    }
    forall j, p | 0 <= j < |fs.inodes| && 0 <= p < MAXFILE * BSIZE && !(j == i && off <= p < off + r)
                  && Ref(sb, fs0, j, SlotOf(p / BSIZE)) != 0
      ensures ByteAt(sb, fs', j, p) == ByteAt(sb, fs0, j, p)
    {
      assert IsSlot(fs0, j, SlotOf(p / BSIZE));
    }
  }

  /** A block with some bytes replaced. */
  function Splice(v: Block, at: nat, s: seq<byte>): Block
    requires at + |s| <= BSIZE
  {
    v[..at] + s + v[at + |s|..]
  }

  lemma WrittenMore(sb: Super, fs0: Fs, fs: Fs, owner: map<nat, Slot>, i: nat, off: nat, src: seq<byte>, r: nat, m: nat)
    requires Shape(sb, fs0) && i < |fs0.inodes| && r + m <= |src| && off + r + m <= MAXFILE * BSIZE
    requires Written(sb, fs0, fs, i, off, src, r) && Owned(sb, fs, owner)
    requires (off + r) / BSIZE < MAXFILE && m <= BSIZE - (off + r) % BSIZE
    requires Ref(sb, fs, i, SlotOf((off + r) / BSIZE)) != 0
    ensures var b := Ref(sb, fs, i, SlotOf((off + r) / BSIZE));
            && b < sb.size
            && var fs' := fs.(data := fs.data[b := Splice(fs.data[b], (off + r) % BSIZE, src[r..r + m])]);
               Written(sb, fs0, fs', i, off, src, r + m) && Owned(sb, fs', owner)
               && Ref(sb, fs', i, SlotOf((off + r) / BSIZE)) == b
  {
    var bn, at := (off + r) / BSIZE, (off + r) % BSIZE;
    var b := Ref(sb, fs, i, SlotOf(bn));
    assert b in owner;
    var v := Splice(fs.data[b], at, src[r..r + m]);
    DataWrite(sb, fs, owner, i, bn, v);
    var fs' := fs.(data := fs.data[b := v]);
    forall p | 0 <= p < MAXFILE * BSIZE
      ensures p / BSIZE == bn && off + r <= p < off + r + m ==> v[p % BSIZE] == src[p - off]
      ensures p / BSIZE == bn && !(off + r <= p < off + r + m) ==> v[p % BSIZE] == ByteAt(sb, fs, i, p)
      ensures off + r <= p < off + r + m ==> p / BSIZE == bn
    {
      SplicedByte(off + r, m, p);
    }
    forall p | off <= p < off + r + m
      ensures Ref(sb, fs', i, SlotOf(p / BSIZE)) != 0 && ByteAt(sb, fs', i, p) == src[p - off]
    {
      assert IsSlot(fs, i, SlotOf(p / BSIZE));
    }
  }

  /** Where an offset of the written range lies in its block. */
  lemma SplicedByte(start: nat, m: nat, p: nat)
    requires m <= BSIZE - start % BSIZE
    ensures start <= p < start + m ==> p / BSIZE == start / BSIZE && p % BSIZE == start % BSIZE + (p - start)
    ensures p / BSIZE == start / BSIZE && p < start ==> p % BSIZE < start % BSIZE
    ensures p / BSIZE == start / BSIZE && start + m <= p ==> start % BSIZE + m <= p % BSIZE
  {
  }

  /** c with s in place at offset off, cut or extended to `size` bytes. */
  function Overwritten(c: seq<byte>, off: nat, s: seq<byte>, size: nat): (r: seq<byte>)
    requires off <= |c| && (size <= |c| || size <= off + |s|)
    ensures |r| == size
  {
    seq(size, p requires 0 <= p < size => if off <= p < off + |s| then s[p - off] else c[p])
  }

  function Max(a: nat, b: nat): nat { if a < b then b else a }

  /** Setting the size after a write: the contents are the old ones overwritten, and still all mapped. */
  lemma WrittenContent(sb: Super, fs0: Fs, fs: Fs, owner: map<nat, Slot>, i: nat, off: nat, src: seq<byte>, r: nat,
                       reach: nat)
    requires AllMapped(sb, fs0) && i < |fs0.inodes|
    requires r <= reach <= |src| && off + reach <= MAXFILE * BSIZE && off <= fs0.inodes[i].size
    requires Written(sb, fs0, fs, i, off, src, reach) && Owned(sb, fs, owner)
    ensures var fs' := fs.(inodes := fs.inodes[i := fs.inodes[i].(size := Max(fs0.inodes[i].size, off + r))]);
            && FsInv(sb, fs', owner) && |fs'.inodes| == |fs0.inodes|
            && Content(sb, fs', i) == Overwritten(Content(sb, fs0, i), off, src[..reach],
                 Max(fs0.inodes[i].size, off + r))
            && forall j :: 0 <= j < |fs0.inodes| && j != i ==> Content(sb, fs', j) == Content(sb, fs0, j)
  {
    var size := Max(fs0.inodes[i].size, off + r);
    var fs' := fs.(inodes := fs.inodes[i := fs.inodes[i].(size := size)]);
    SizeKeepsRefs(sb, fs, i, size);
    assert Owned(sb, fs', owner) by { SizeKeepsOwned(sb, fs, owner, i, size); }
    forall j | 0 <= j < |fs0.inodes|
      ensures Mapped(sb, fs', j)
      ensures j == i ==> Content(sb, fs', j) == Overwritten(Content(sb, fs0, i), off, src[..reach], size)
      ensures j != i ==> Content(sb, fs', j) == Content(sb, fs0, j)
    {
      WrittenOne(sb, fs0, fs, i, off, src, r, reach, j);
    }
  }

  lemma SizeKeepsRefs(sb: Super, fs: Fs, i: nat, size: nat)
    requires Shape(sb, fs) && i < |fs.inodes|
    ensures var fs' := fs.(inodes := fs.inodes[i := fs.inodes[i].(size := size)]);
            && Shape(sb, fs')
            && (forall j, l :: IsSlot(fs, j, l) ==> Ref(sb, fs', j, l) == Ref(sb, fs, j, l))
            && forall j, p :: 0 <= j < |fs.inodes| && 0 <= p < MAXFILE * BSIZE ==>
                 ByteAt(sb, fs', j, p) == ByteAt(sb, fs, j, p)
  {}

  lemma SizeKeepsOwned(sb: Super, fs: Fs, owner: map<nat, Slot>, i: nat, size: nat)
    requires Owned(sb, fs, owner) && i < |fs.inodes|
    ensures Owned(sb, fs.(inodes := fs.inodes[i := fs.inodes[i].(size := size)]), owner)
  {
    SizeKeepsRefs(sb, fs, i, size);
    var fs' := fs.(inodes := fs.inodes[i := fs.inodes[i].(size := size)]);
    forall j, l | IsSlot(fs', j, l)
      ensures Ref(sb, fs', j, l) == Ref(sb, fs, j, l)
    {
      assert IsSlot(fs, j, l);
    }
  }

  lemma WrittenOne(sb: Super, fs0: Fs, fs: Fs, i: nat, off: nat, src: seq<byte>, r: nat, reach: nat, j: nat)
    requires AllMapped(sb, fs0) && i < |fs0.inodes| && j < |fs0.inodes|
    requires r <= reach <= |src| && off + reach <= MAXFILE * BSIZE && off <= fs0.inodes[i].size
    requires Written(sb, fs0, fs, i, off, src, reach)
    ensures var size := Max(fs0.inodes[i].size, off + r);
            var fs' := fs.(inodes := fs.inodes[i := fs.inodes[i].(size := size)]);
            && Shape(sb, fs') && Mapped(sb, fs', j)
            && (j == i ==> Content(sb, fs', j) == Overwritten(Content(sb, fs0, i), off, src[..reach], size))
            && (j != i ==> Content(sb, fs', j) == Content(sb, fs0, j))
  {
    var size := Max(fs0.inodes[i].size, off + r);
    var fs' := fs.(inodes := fs.inodes[i := fs.inodes[i].(size := size)]);
    SizeKeepsRefs(sb, fs, i, size);
    assert Mapped(sb, fs0, i) && Mapped(sb, fs0, j);
    forall bn | 0 <= bn < MAXFILE && bn * BSIZE < fs'.inodes[j].size
      ensures Ref(sb, fs', j, SlotOf(bn)) != 0
    {
      assert IsSlot(fs0, j, SlotOf(bn)) && IsSlot(fs, j, SlotOf(bn));
      if bn * BSIZE >= fs0.inodes[j].size {
        assert bn * BSIZE / BSIZE == bn;
      }
    }
    forall p | 0 <= p < fs0.inodes[j].size
      ensures Ref(sb, fs0, j, SlotOf(p / BSIZE)) != 0
    {
      assert p / BSIZE * BSIZE <= p;
    }
  }

  lemma AttachKeeps(sb: Super, fs: Fs, fs': Fs, owner: map<nat, Slot>, i: nat, k: nat, b: nat)
    requires Owned(sb, fs, owner) && IsSlot(fs, i, k) && Ref(sb, fs, i, k) == 0
    requires Attached(sb, fs, fs', i, k, b) && !fs.bits[b]
    ensures Owned(sb, fs', owner[b := Slot(i, k)]) && Grown(sb, fs, fs', i)
    ensures OneSlot(sb, fs, fs', i, k, b)
  {
    AttachOwns(sb, fs, fs', owner, i, k, b);
    AttachGrows(sb, fs, fs', owner, i, k, b);
  }

  ghost predicate Full(fs: Fs) { forall c :: 0 <= c < |fs.bits| ==> fs.bits[c] }

  ghost predicate FirstFree(fs: Fs, b: nat) {
    b < |fs.bits| && !fs.bits[b] && forall c :: 0 <= c < b ==> fs.bits[c]
  }

  /**
   How many blocks were allocated on the way from fs to fs', where only slot k of inode i and its
   indirect block may be new.
   */
  ghost function NewBlocks(sb: Super, fs: Fs, fs': Fs, i: nat, k: nat): nat
    requires Shape(sb, fs) && Shape(sb, fs') && IsSlot(fs, i, k) && |fs'.inodes| == |fs.inodes|
  {
    (if Ref(sb, fs, i, k) == Ref(sb, fs', i, k) then 0 else 1)
    + if fs.inodes[i].addrs[INDIRECT] == fs'.inodes[i].addrs[INDIRECT] then 0 else 1
  }

  /** Every block whose contents or bit changed from fs to fs' was logged, and so was every block allocated. */
  ghost predicate Recorded(sb: Super, fs: Fs, fs': Fs, logged: set<nat>) {
    && |fs'.data| == |fs.data| && |fs'.bits| == |fs.bits|
    && (forall b :: 0 <= b < |fs.data| && fs'.data[b] != fs.data[b] ==> b in logged)
    && (forall b :: 0 <= b < |fs.bits| && fs'.bits[b] != fs.bits[b] ==> BBlock(sb, b) in logged)
    && (forall b :: 0 <= b < |fs.bits| && fs'.bits[b] && !fs.bits[b] ==> b in logged)
  }

  ghost predicate BitsRecorded(sb: Super, bits: seq<bool>, bits': seq<bool>, logged: set<nat>) {
    |bits'| == |bits| && forall b :: 0 <= b < |bits| && bits'[b] != bits[b] ==> BBlock(sb, b) in logged
  }

  lemma RecordedTwice(sb: Super, fs: Fs, fs1: Fs, log1: set<nat>, fs2: Fs, log2: set<nat>)
    requires Recorded(sb, fs, fs1, log1) && Recorded(sb, fs1, fs2, log2) && log1 <= log2
    ensures Recorded(sb, fs, fs2, log2)
  {}

  lemma RecordedAlloc(sb: Super, fs: Fs, fs': Fs, b: nat, logged: set<nat>)
    requires b < |fs.bits| == |fs.data| && fs'.bits == fs.bits[b := true] && fs'.data == fs.data[b := ZeroBlock()]
    requires BBlock(sb, b) in logged && b in logged
    ensures Recorded(sb, fs, fs', logged)
  {}

  lemma RecordedBlock(sb: Super, fs: Fs, fs': Fs, b: nat, v: Block, logged: set<nat>)
    requires b < |fs.data| && fs'.bits == fs.bits && fs'.data == fs.data[b := v] && b in logged
    ensures Recorded(sb, fs, fs', logged)
  {}

  /** Everything logged since `before` is a bitmap block, one of `blocks`, or the indirect block. */
  ghost predicate Covers(logged: set<nat>, before: set<nat>, maps: set<nat>, blocks: set<nat>, ind: nat) {
    logged <= before + maps + blocks + NonZero(ind)
  }

  /** Block b, unless b is 0, which stands for no block. */
  function NonZero(b: nat): set<nat> { if b == 0 then {} else {b} }

  lemma CoversMore(before: set<nat>, logged: set<nat>, maps: set<nat>, map': nat, addr: nat, ind: nat)
    requires Covers(logged, before, maps, {}, ind) && addr != 0 && ind != 0
    ensures Covers(logged + {map', addr, ind}, before, maps + {map'}, NonZero(addr), ind)
    ensures |maps + {map'}| <= |maps| + 1
  {}

  lemma CoversStep(before: set<nat>, log0: set<nat>, log1: set<nat>, maps: set<nat>, more: set<nat>,
                   blocks: set<nat>, addr: nat, ind0: nat, ind1: nat)
    requires Covers(log0, before, maps, blocks, ind0) && Covers(log1, log0, more, NonZero(addr), ind1)
    requires ind0 == 0 || ind0 == ind1
    ensures Covers(log1, before, maps + more, blocks + NonZero(addr), ind1)
    ensures |maps + more| <= |maps| + |more| && |blocks + NonZero(addr)| <= |blocks| + 1
  {
    UnionSize(maps, more);
    UnionSize(blocks, NonZero(addr));
  }

  lemma UnionSize(a: set<nat>, b: set<nat>)
    ensures |a + b| <= |a| + |b|
  {
    assert |a + b| == |a| + |b - a| by { assert a + b == a + (b - a); }
    assert |b - a| <= |b| by { assert b == (b - a) + b * a; }
  }

  /** Passing from one file block to the next. */
  lemma NextBlock(off: nat, tot: nat, m: nat, t: nat)
    requires t == 0 ==> tot == 0
    requires t > 0 ==> off + tot == (off / BSIZE + t) * BSIZE
    requires 0 < m <= BSIZE - (off + tot) % BSIZE
    ensures (off / BSIZE + t) * BSIZE <= off + tot < off + tot + m <= (off / BSIZE + t + 1) * BSIZE
    ensures (off + tot) / BSIZE == off / BSIZE + t
  {}

  /** The most blocks that t passes of a write at offset off can have allocated. */
  ghost function MaxNew(sb: Super, fs0: Fs, fs: Fs, i: nat, off: nat, t: nat): nat
    requires Shape(sb, fs0) && Shape(sb, fs) && i < |fs0.inodes| == |fs.inodes| && off / BSIZE < MAXFILE
  {
    (if t > 0 && Ref(sb, fs0, i, SlotOf(off / BSIZE)) != 0 then t - 1 else t)
    + if fs0.inodes[i].addrs[INDIRECT] == fs.inodes[i].addrs[INDIRECT] then 0 else 1
  }

  lemma MaxNewStep(sb: Super, fs0: Fs, fs1: Fs, fs: Fs, i: nat, off: nat, src: seq<byte>, tot: nat, t: nat)
    requires Shape(sb, fs0) && i < |fs0.inodes| && tot < |src| && off + |src| <= MAXFILE * BSIZE
    requires Written(sb, fs0, fs1, i, off, src, tot) && Written(sb, fs0, fs, i, off, src, tot)
    requires fs1.inodes[i].addrs[INDIRECT] == 0 || fs.inodes[i].addrs[INDIRECT] == fs1.inodes[i].addrs[INDIRECT]
    requires t == 0 ==> tot == 0
    ensures MaxNew(sb, fs0, fs1, i, off, t) + NewBlocks(sb, fs1, fs, i, SlotOf((off + tot) / BSIZE))
            <= MaxNew(sb, fs0, fs, i, off, t + 1)
  {
    assert IsSlot(fs0, i, INDIRECT) && IsSlot(fs0, i, SlotOf(off / BSIZE));
    assert Ref(sb, fs0, i, INDIRECT) == fs0.inodes[i].addrs[INDIRECT];
    assert Ref(sb, fs, i, INDIRECT) == fs.inodes[i].addrs[INDIRECT];
    assert Ref(sb, fs1, i, INDIRECT) == fs1.inodes[i].addrs[INDIRECT];
  }

  /** The bookkeeping of a write: what t passes logged, beyond `before`. */
  ghost predicate Budget(sb: Super, fs0: Fs, fs: Fs, i: nat, off: nat, t: nat,
                         before: set<nat>, logged: set<nat>, maps: set<nat>, blocks: set<nat>)
    requires Shape(sb, fs0) && Shape(sb, fs) && i < |fs0.inodes| == |fs.inodes| && off / BSIZE < MAXFILE
  {
    && Covers(logged, before, maps, blocks, fs.inodes[i].addrs[INDIRECT])
    && |blocks| <= t && |maps| <= MaxNew(sb, fs0, fs, i, off, t)
  }

  lemma BudgetStep(sb: Super, fs0: Fs, fs1: Fs, fs: Fs, i: nat, off: nat, src: seq<byte>, tot: nat, t: nat,
                   before: set<nat>, log1: set<nat>, logged: set<nat>, maps: set<nat>, more: set<nat>,
                         blocks: set<nat>, addr: nat)
    requires Shape(sb, fs0) && i < |fs0.inodes| && tot < |src| && off + |src| <= MAXFILE * BSIZE
    requires Written(sb, fs0, fs1, i, off, src, tot) && Written(sb, fs0, fs, i, off, src, tot)
    requires fs1.inodes[i].addrs[INDIRECT] == 0 || fs.inodes[i].addrs[INDIRECT] == fs1.inodes[i].addrs[INDIRECT]
    requires t == 0 ==> tot == 0
    requires Budget(sb, fs0, fs1, i, off, t, before, log1, maps, blocks)
    requires Covers(logged, log1, more, NonZero(addr), fs.inodes[i].addrs[INDIRECT])
    requires |more| <= NewBlocks(sb, fs1, fs, i, SlotOf((off + tot) / BSIZE))
    ensures Budget(sb, fs0, fs, i, off, t + 1, before, logged, maps + more, blocks + NonZero(addr))
  {
    CoversStep(before, log1, logged, maps, more, blocks, addr, fs1.inodes[i].addrs[INDIRECT],
          fs.inodes[i].addrs[INDIRECT]);
    MaxNewStep(sb, fs0, fs1, fs, i, off, src, tot, t);
  }

  /** Logging a block already counted changes nothing. */
  lemma BudgetAgain(sb: Super, fs0: Fs, fs1: Fs, fs: Fs, i: nat, off: nat, t: nat,
                    before: set<nat>, logged: set<nat>, maps: set<nat>, blocks: set<nat>, addr: nat)
    requires Shape(sb, fs0) && Shape(sb, fs1) && Shape(sb, fs) && i < |fs0.inodes| == |fs.inodes|
             && off / BSIZE < MAXFILE
    requires fs.inodes == fs1.inodes && addr in blocks
    requires Budget(sb, fs0, fs1, i, off, t, before, logged, maps, blocks)
    ensures Budget(sb, fs0, fs, i, off, t, before, logged, maps, blocks)
    ensures Budget(sb, fs0, fs, i, off, t, before, logged + {addr}, maps, blocks)
  {}

  lemma WrittenNothing(sb: Super, fs: Fs, owner: map<nat, Slot>, i: nat, off: nat, src: seq<byte>)
    requires Owned(sb, fs, owner) && i < |fs.inodes| && off <= MAXFILE * BSIZE
    ensures Written(sb, fs, fs, i, off, src, 0)
  {}

  // ----- the abstract file system -----

  /** A file as its users see it. */
  datatype File = File(kind: nat, nlink: nat, content: seq<byte>)

  ghost function Files(sb: Super, fs: Fs): (files: seq<File>)
    requires AllMapped(sb, fs)
    ensures |files| == |fs.inodes|
    ensures forall j :: 0 <= j < |files| ==> files[j] == FileAt(sb, fs, j)
  {
    seq(|fs.inodes|, j requires 0 <= j < |fs.inodes| => FileAt(sb, fs, j))
  }

  ghost function FileAt(sb: Super, fs: Fs, j: nat): File
    requires AllMapped(sb, fs) && j < |fs.inodes|
  {
    File(fs.inodes[j].kind, fs.inodes[j].nlink, Content(sb, fs, j))
  }

  /**
   Write s into file i at offset off, with the size becoming at least off + r; past the end of the
   file nothing happens.
   */
  function WriteFile(files: seq<File>, i: nat, off: nat, s: seq<byte>, r: nat): (files': seq<File>)
    requires i < |files| && r <= |s|
    ensures |files'| == |files|
  {
    var f := files[i];
    if off <= |f.content|
    then files[i := f.(content := Overwritten(f.content, off, s, Max(|f.content|, off + r)))]
    else files
  }

  /** The size update at the end of writei(). */
  function Resized(fs: Fs, i: nat, off: nat, r: nat): Fs
    requires i < |fs.inodes|
  {
    if off + r > fs.inodes[i].size then fs.(inodes := fs.inodes[i := fs.inodes[i].(size := off + r)]) else fs
  }

  lemma WriteCompletes(sb: Super, fs0: Fs, fs: Fs, owner: map<nat, Slot>, i: nat, off: nat, src: seq<byte>, r: nat,
                       reach: nat)
    requires AllMapped(sb, fs0) && i < |fs0.inodes|
    requires r <= reach <= |src| && off + reach <= MAXFILE * BSIZE && off <= fs0.inodes[i].size
    requires Written(sb, fs0, fs, i, off, src, reach) && Owned(sb, fs, owner)
    ensures FsInv(sb, Resized(fs, i, off, r), owner)
    ensures Files(sb, Resized(fs, i, off, r)) == WriteFile(Files(sb, fs0), i, off, src[..reach], r)
  {
    var size := Max(fs0.inodes[i].size, off + r);
    WrittenContent(sb, fs0, fs, owner, i, off, src, r, reach);
    assert fs.inodes[i].size == fs0.inodes[i].size;
    var fs' := fs.(inodes := fs.inodes[i := fs.inodes[i].(size := size)]);
    assert Resized(fs, i, off, r) == fs' by {
      if off + r <= fs.inodes[i].size { assert fs'.inodes == fs.inodes; }
    }
    assert Files(sb, fs') == WriteFile(Files(sb, fs0), i, off, src[..reach], r);
  }

  /**
   The transaction-size bound: what one write of at most three blocks logs, the
   inode block included, is at most ten distinct blocks.
   */
  lemma TransactionBound(sb: Super, fs0: Fs, fs: Fs, i: nat, off: nat, n: nat, t: nat,
                         logged: set<nat>, maps: set<nat>, blocks: set<nat>, iblock: nat)
    requires Shape(sb, fs0) && Shape(sb, fs) && i < |fs0.inodes| == |fs.inodes| && off / BSIZE < MAXFILE
    requires Mapped(sb, fs0, i) && off <= fs0.inodes[i].size && n <= 3 * BSIZE
    requires Budget(sb, fs0, fs, i, off, t, {}, logged, maps, blocks)
    requires t > 0 ==> (off / BSIZE + t - 1) * BSIZE < off + n
    ensures |logged + {iblock}| <= MAXOPBLOCKS
  {
    assert t <= 4 && (t == 4 ==> off % BSIZE != 0);
    assert |maps| <= 4;
    var ind := NonZero(fs.inodes[i].addrs[INDIRECT]);
    UnionSize(maps, blocks);
    UnionSize(maps + blocks, ind);
    UnionSize(maps + blocks + ind, {iblock});
    SubsetSize(logged + {iblock}, maps + blocks + ind + {iblock});
  }

  // ----- truncating -----

  /** Slots below d, and the first e entries of the indirect block, have been dealt with. */
  predicate Done(k: nat, d: nat, e: nat) { k < d || NDIRECT < k < NDIRECT + 1 + e }

  /** The free map after freeing the blocks of inode i in the slots done so far. */
  ghost predicate Freed(sb: Super, fs0: Fs, bits: seq<bool>, owner: map<nat, Slot>, i: nat, d: nat, e: nat) {
    && |bits| == |fs0.bits|
    && forall b :: 0 <= b < |bits| ==>
         (bits[b] <==> fs0.bits[b] && !(b in owner && owner[b].inum == i && Done(owner[b].k, d, e)))
  }

  function Truncate(ip: Inode): Inode { ip.(size := 0, addrs := seq(NDIRECT + 1, _ => 0)) }

  function Without(owner: map<nat, Slot>, i: nat): map<nat, Slot> {
    map b | b in owner && owner[b].inum != i :: owner[b]
  }

  /** Once all slots are done and the inode is emptied, every block is singly owned again. */
  lemma TruncateOwns(sb: Super, fs0: Fs, fs: Fs, owner: map<nat, Slot>, i: nat)
    requires FsInv(sb, fs0, owner) && i < |fs0.inodes|
    requires fs.data == fs0.data && fs.inodes == fs0.inodes[i := Truncate(fs0.inodes[i])]
    requires Freed(sb, fs0, fs.bits, owner, i, NDIRECT + 1, NINDIRECT)
    ensures FsInv(sb, fs, Without(owner, i)) && |fs.inodes| == |fs0.inodes|
    ensures Files(sb, fs) == Files(sb, fs0)[i := Files(sb, fs0)[i].(content := [])]
  {
    forall j, l | IsSlot(fs, j, l)
      ensures Shape(sb, fs) && Ref(sb, fs, j, l) == if j == i then 0 else Ref(sb, fs0, j, l)
    {
      assert IsSlot(fs0, j, l);
    }
    forall j | 0 <= j < |fs.inodes|
      ensures Mapped(sb, fs, j) && (j != i ==> Content(sb, fs, j) == Content(sb, fs0, j))
    {
      assert Mapped(sb, fs0, j);
    }
    assert Content(sb, fs, i) == [];
  }

  // ----- reading -----

  /** The part of a block that a read takes is the part of the file it stands for. */
  lemma ReadChunk(sb: Super, fs: Fs, owner: map<nat, Slot>, i: nat, start: nat, m: nat)
    requires Owned(sb, fs, owner) && i < |fs.inodes| && Mapped(sb, fs, i)
    requires 0 < m <= BSIZE - start % BSIZE && start + m <= fs.inodes[i].size
    ensures var b := Ref(sb, fs, i, SlotOf(start / BSIZE));
            && 0 < b < sb.size
            && fs.data[b][start % BSIZE..start % BSIZE + m] == Content(sb, fs, i)[start..start + m]
  {
    var b := Ref(sb, fs, i, SlotOf(start / BSIZE));
    assert IsSlot(fs, i, SlotOf(start / BSIZE)) && start / BSIZE * BSIZE <= start;
    assert b != 0 && b in owner;
    var got, want := fs.data[b][start % BSIZE..start % BSIZE + m], Content(sb, fs, i)[start..start + m];
    forall q | 0 <= q < m
      ensures got[q] == want[q]
    {
      SplicedByte(start, m, start + q);
      assert want[q] == ByteAt(sb, fs, i, start + q);
    }
  }

  // ----- consecutive writes -----

  /** Writing s and then s' after it is writing s + s'. */
  lemma OverwrittenTwice(c: seq<byte>, off: nat, s: seq<byte>, r: nat, s': seq<byte>, r': nat)
    requires off <= |c| && r == |s| && r' <= |s'|
    ensures var c1 := Overwritten(c, off, s, Max(|c|, off + r));
            Overwritten(c1, off + r, s', Max(|c1|, off + r + r')) == Overwritten(c, off, s + s', Max(|c|, off + r + r'))
  {}

  /** Reading back the range just written gives the bytes written. */
  lemma ReadBack(c: seq<byte>, off: nat, s: seq<byte>)
    requires off <= |c|
    ensures Overwritten(c, off, s, Max(|c|, off + |s|))[off..off + |s|] == s
    ensures Overwritten(c, off, s, Max(|c|, off + |s|))[..off] == c[..off]
    ensures off + |s| <= |c| ==> Overwritten(c, off, s, Max(|c|, off + |s|))[off + |s|..] == c[off + |s|..]
  {}

  /** Two consecutive writes to a file are one longer write. */
  lemma WriteFileTwice(files: seq<File>, i: nat, off: nat, src: seq<byte>, r: nat, m: nat, r': nat, reach: nat)
    requires i < |files| && r + m <= |src| && r' <= reach <= m && off <= |files[i].content|
    ensures WriteFile(WriteFile(files, i, off, src[..r], r), i, off + r, src[r..r + m][..reach], r')
            == WriteFile(files, i, off, src[..r + reach], r + r')
  {
    OverwrittenTwice(files[i].content, off, src[..r], r, src[r..r + m][..reach], r');
    assert src[..r] + src[r..r + m][..reach] == src[..r + reach];
  }

  /** One more piece, after src[..k] has been written over `files`. */
  lemma PieceWritten(files: seq<File>, files1: seq<File>, i: nat, start: nat, src: seq<byte>, k: nat, n: nat,
                     at: nat, piece: seq<byte>, r: nat, more: nat, done: nat, reach: nat)
    requires i < |files| && k + n <= |src| && r <= more <= n && files1 == WriteFile(files, i, start, src[..k], k)
    requires done == k + r && reach == k + more
    requires at == start + k && piece == src[k..k + n] && at <= |files1[i].content|
             && (k > 0 ==> start <= |files[i].content|)
    ensures start <= |files[i].content|
    ensures WriteFile(files1, i, at, piece[..more], r) == WriteFile(files, i, start, src[..reach], done)
  {
    WriteFileTwice(files, i, start, src, k, n, r, more);
  }

  lemma WriteFileNothing(files: seq<File>, i: nat, off: nat)
    requires i < |files|
    ensures WriteFile(files, i, off, [], 0) == files
  {
    if off <= |files[i].content| {
      assert Overwritten(files[i].content, off, [], |files[i].content|) == files[i].content;
    }
  }
}
