/** How many blocks itrunc() logs: the bitmap blocks of the file's blocks, and the inode's block. */
module FsTruncate {
  import opened Counting
  import opened Words
  import opened FsLayout

  /** The bitmap blocks of the blocks of inode i in the slots done so far. */
  ghost function MapsOf(sb: Super, owner: map<nat, Slot>, i: nat, d: nat, e: nat): set<nat> {
    set b | b in owner && owner[b].inum == i && Done(owner[b].k, d, e) :: BBlock(sb, b)
  }

  /** Those of all its blocks. */
  ghost function FileMaps(sb: Super, owner: map<nat, Slot>, i: nat): set<nat> {
    set b | b in owner && owner[b].inum == i :: BBlock(sb, b)
  }

  /** Slot k is done next; it refers to b. */
  lemma MapsNext(sb: Super, fs: Fs, owner: map<nat, Slot>, i: nat, k: nat, b: nat, d: nat, e: nat, d': nat, e': nat)
    requires Owned(sb, fs, owner) && IsSlot(fs, i, k) && Ref(sb, fs, i, k) == b
    requires forall l: nat :: Done(l, d', e') <==> Done(l, d, e) || l == k
    ensures MapsOf(sb, owner, i, d', e') == MapsOf(sb, owner, i, d, e) + if b == 0 then {} else {BBlock(sb, b)}
  {
    forall c | c in owner && owner[c].inum == i
      ensures owner[c].k == k <==> c == b
    {
      assert Ref(sb, fs, owner[c].inum, owner[c].k) == c;
    }
  }

  /** Where itrunc() is: the free map, and the blocks logged. */
  ghost predicate Freeing(sb: Super, fs0: Fs, bits: seq<bool>, owner: map<nat, Slot>, i: nat, d: nat, e: nat,
                          log0: set<nat>, logged: set<nat>) {
    && Freed(sb, fs0, bits, owner, i, d, e) && BitsRecorded(sb, fs0.bits, bits, logged)
    && logged == log0 + MapsOf(sb, owner, i, d, e)
  }

  lemma FreeingNext(sb: Super, fs: Fs, bits: seq<bool>, owner: map<nat, Slot>, i: nat, k: nat, b: nat, d: nat, e: nat,
                    d': nat, e': nat, log0: set<nat>, logged: set<nat>)
    requires Owned(sb, fs, owner) && IsSlot(fs, i, k) && Ref(sb, fs, i, k) == b && !Done(k, d, e)
    requires forall l: nat :: Done(l, d', e') <==> Done(l, d, e) || l == k
    requires Freeing(sb, fs, bits, owner, i, d, e, log0, logged)
    ensures b != 0 ==> b < |bits| && bits[b]
    ensures if b == 0 then Freeing(sb, fs, bits, owner, i, d', e', log0, logged)
            else Freeing(sb, fs, bits[b := false], owner, i, d', e', log0, logged + {BBlock(sb, b)})
  {
    MapsNext(sb, fs, owner, i, k, b, d, e, d', e');
    forall c | c in owner && owner[c].inum == i
      ensures owner[c].k == k <==> c == b
    {
      assert Ref(sb, fs, owner[c].inum, owner[c].k) == c;
    }
  }

  lemma DirectNext(sb: Super, fs: Fs, bits: seq<bool>, owner: map<nat, Slot>, i: nat, k: nat, b: nat, k': nat,
                   log0: set<nat>, logged: set<nat>)
    requires Owned(sb, fs, owner) && i < |fs.inodes| && k < NDIRECT && k' == k + 1 && fs.inodes[i].addrs[k] == b
    requires Freeing(sb, fs, bits, owner, i, k, 0, log0, logged)
    ensures b != 0 ==> b < |bits| && bits[b]
    ensures if b == 0 then Freeing(sb, fs, bits, owner, i, k', 0, log0, logged)
            else Freeing(sb, fs, bits[b := false], owner, i, k', 0, log0, logged + {BBlock(sb, b)})
  {
    assert IsSlot(fs, i, k) && Ref(sb, fs, i, k) == b;
    FreeingNext(sb, fs, bits, owner, i, k, b, k, 0, k', 0, log0, logged);
  }

  lemma EntryNext(sb: Super, fs: Fs, bits: seq<bool>, owner: map<nat, Slot>, i: nat, e: nat, b: nat, e': nat,
                  log0: set<nat>, logged: set<nat>)
    requires Owned(sb, fs, owner) && i < |fs.inodes| && e < NINDIRECT && e' == e + 1
    requires fs.inodes[i].addrs[INDIRECT] != 0 && Word(fs.data[fs.inodes[i].addrs[INDIRECT]], e) == b
    requires Freeing(sb, fs, bits, owner, i, NDIRECT, e, log0, logged)
    ensures b != 0 ==> b < |bits| && bits[b]
    ensures if b == 0 then Freeing(sb, fs, bits, owner, i, NDIRECT, e', log0, logged)
            else Freeing(sb, fs, bits[b := false], owner, i, NDIRECT, e', log0, logged + {BBlock(sb, b)})
  {
    var k := NDIRECT + 1 + e;
    assert IsSlot(fs, i, k) && Ref(sb, fs, i, k) == b;
    FreeingNext(sb, fs, bits, owner, i, k, b, NDIRECT, e, NDIRECT, e', log0, logged);
  }

  /** All slots are done. */
  ghost predicate AllFreed(sb: Super, fs0: Fs, bits: seq<bool>, owner: map<nat, Slot>, i: nat, log0: set<nat>,
                           logged: set<nat>) {
    && Freed(sb, fs0, bits, owner, i, NDIRECT + 1, NINDIRECT) && BitsRecorded(sb, fs0.bits, bits, logged)
    && logged == log0 + FileMaps(sb, owner, i)
  }

  lemma IndirectLast(sb: Super, fs: Fs, bits: seq<bool>, owner: map<nat, Slot>, i: nat, b: nat, log0: set<nat>,
                     logged: set<nat>)
    requires Owned(sb, fs, owner) && i < |fs.inodes| && fs.inodes[i].addrs[INDIRECT] == b != 0
    requires Freeing(sb, fs, bits, owner, i, NDIRECT, NINDIRECT, log0, logged)
    ensures b < |bits| && bits[b]
    ensures AllFreed(sb, fs, bits[b := false], owner, i, log0, logged + {BBlock(sb, b)})
  {
    assert IsSlot(fs, i, INDIRECT) && Ref(sb, fs, i, INDIRECT) == b;
    FreeingNext(sb, fs, bits, owner, i, INDIRECT, b, NDIRECT, NINDIRECT, NDIRECT + 1, NINDIRECT, log0, logged);
    forall c | c in owner && owner[c].inum == i
      ensures Done(owner[c].k, NDIRECT + 1, NINDIRECT)
    {
      assert IsSlot(fs, owner[c].inum, owner[c].k);
    }
    assert FileMaps(sb, owner, i) == MapsOf(sb, owner, i, NDIRECT + 1, NINDIRECT);
  }

  lemma NoIndirect(sb: Super, fs: Fs, bits: seq<bool>, owner: map<nat, Slot>, i: nat, log0: set<nat>, logged: set<nat>)
    requires Owned(sb, fs, owner) && i < |fs.inodes| && fs.inodes[i].addrs[INDIRECT] == 0
    requires Freeing(sb, fs, bits, owner, i, NDIRECT, 0, log0, logged)
    ensures AllFreed(sb, fs, bits, owner, i, log0, logged)
  {
    forall c | c in owner && owner[c].inum == i
      ensures owner[c].k < NDIRECT
    {
      assert Ref(sb, fs, owner[c].inum, owner[c].k) == c >= sb.datastart;
    }
    assert FileMaps(sb, owner, i) == MapsOf(sb, owner, i, NDIRECT, 0);
  }

  // ----- how many there can be -----

  /** The number of bitmap blocks that have bits of data blocks. */
  function Span(sb: Super): nat {
    if sb.datastart < sb.size then (sb.size - 1) / BPB - sb.datastart / BPB + 1 else 0
  }

  ghost function Interval(lo: nat, n: nat): set<nat> { set j | 0 <= j < n :: Plus(lo, j) }

  function Plus(lo: nat, j: nat): nat { lo + j }

  lemma {:induction false} IntervalSize(lo: nat, n: nat)
    ensures |Interval(lo, n)| == n
  {
    if n > 0 {
      IntervalSize(lo, n - 1);
      assert Interval(lo, n) == Interval(lo, n - 1) + {Plus(lo, n - 1)};
    }
  }

  lemma BitmapOf(sb: Super, b: nat)
    requires sb.datastart <= b < sb.size
    ensures BBlock(sb, b) in Interval(BBlock(sb, sb.datastart), Span(sb))
  {
    var j := b / BPB - sb.datastart / BPB;
    assert 0 <= j < Span(sb) && Plus(BBlock(sb, sb.datastart), j) == BBlock(sb, b);
  }

  /** A truncation logs at most the bitmap blocks over the data blocks, and the inode's block. */
  lemma TruncationBound(sb: Super, fs: Fs, owner: map<nat, Slot>, i: nat)
    requires Owned(sb, fs, owner)
    ensures |FileMaps(sb, owner, i)| <= Span(sb) && |FileMaps(sb, owner, i) + {IBlock(sb, i)}| <= Span(sb) + 1
  {
    var all := Interval(BBlock(sb, sb.datastart), Span(sb));
    forall b | b in owner && owner[b].inum == i
      ensures BBlock(sb, b) in all
    {
      BitmapOf(sb, b);
    }
    IntervalSize(BBlock(sb, sb.datastart), Span(sb));
    SubsetSize(FileMaps(sb, owner, i), all);
  }

  // ----- a file under many bitmap blocks -----

  const MANY := MAXOPBLOCKS

  /** A data block under the j-th of the bitmap blocks. */
  function Spread(sb: Super, j: nat): nat { if j == 0 then sb.datastart else (sb.datastart / BPB + j) * BPB }

  lemma SpreadBlock(sb: Super, j: nat)
    requires j < Span(sb)
    ensures sb.datastart <= Spread(sb, j) < sb.size && BBlock(sb, Spread(sb, j)) == Plus(BBlock(sb, sb.datastart), j)
  {
    var q := sb.datastart / BPB;
    if j > 0 {
      assert q * BPB <= sb.datastart < (q + 1) * BPB <= (q + j) * BPB;
      assert q + j <= (sb.size - 1) / BPB;
      assert (q + j) * BPB <= (sb.size - 1) / BPB * BPB <= sb.size - 1;
      assert (q + j) * BPB / BPB == q + j;
    }
  }

  lemma SpreadApart(sb: Super, j: nat, l: nat)
    requires j < Span(sb) && l < Span(sb) && j != l
    ensures Spread(sb, j) != Spread(sb, l)
  {
    SpreadBlock(sb, j);
    SpreadBlock(sb, l);
  }

  ghost function Spreads(sb: Super, n: nat): map<nat, Slot> {
    if n == 0 then map[] else Spreads(sb, n - 1)[Spread(sb, n - 1) := Slot(0, n - 1)]
  }

  lemma {:induction false} SpreadOwners(sb: Super, n: nat)
    requires n <= Span(sb)
    ensures forall j :: 0 <= j < n ==> Spread(sb, j) in Spreads(sb, n) && Spreads(sb, n)[Spread(sb, j)] == Slot(0, j)
    ensures forall b :: b in Spreads(sb, n) ==>
              Spreads(sb, n)[b].inum == 0 && 0 <= Spreads(sb, n)[b].k < n && b == Spread(sb, Spreads(sb, n)[b].k)
  {
    if n > 0 {
      SpreadOwners(sb, n - 1);
      forall j | 0 <= j < n - 1
        ensures Spread(sb, j) != Spread(sb, n - 1)
      {
        SpreadApart(sb, j, n - 1);
      }
    }
  }

  /** One file, with a block under each of MANY bitmap blocks. */
  ghost function SpreadFs(sb: Super): Fs {
    Fs(seq(sb.size, b requires 0 <= b < sb.size => b < sb.datastart || b in Spreads(sb, MANY)),
       seq(sb.size, _ => ZeroBlock()),
       [Inode(2, 1, MANY * BSIZE,
             seq(NDIRECT + 1, k requires 0 <= k <= NDIRECT => if k < MANY then Spread(sb, k) else 0))])
  }

  lemma SpreadInv(sb: Super)
    requires 0 < sb.datastart && sb.size < 0x1_0000_0000 && Span(sb) >= MANY
    ensures FsInv(sb, SpreadFs(sb), Spreads(sb, MANY))
  {
    var fs, owner := SpreadFs(sb), Spreads(sb, MANY);
    SpreadOwners(sb, MANY);
    forall j | 0 <= j < MANY
      ensures sb.datastart <= Spread(sb, j) < sb.size
    {
      SpreadBlock(sb, j);
    }
    assert Shape(sb, fs);
    forall i, k | IsSlot(fs, i, k)
      ensures Ref(sb, fs, i, k) == if k < MANY then Spread(sb, k) else 0
    {}
    forall b | b in owner
      ensures sb.datastart <= b < sb.size && IsSlot(fs, owner[b].inum, owner[b].k)
              && Ref(sb, fs, owner[b].inum, owner[b].k) == b
    {}
    assert Owned(sb, fs, owner);
    assert Mapped(sb, fs, 0);
  }

  lemma SpreadMaps(sb: Super)
    requires Span(sb) >= MANY
    ensures FileMaps(sb, Spreads(sb, MANY), 0) == Interval(BBlock(sb, sb.datastart), MANY)
  {
    var owner, lo := Spreads(sb, MANY), BBlock(sb, sb.datastart);
    SpreadOwners(sb, MANY);
    forall j | 0 <= j < MANY
      ensures Plus(lo, j) in FileMaps(sb, owner, 0)
    {
      SpreadBlock(sb, j);
      assert Spread(sb, j) in owner;
    }
    forall b | b in owner
      ensures BBlock(sb, b) in Interval(lo, MANY)
    {
      SpreadBlock(sb, owner[b].k);
    }
  }

  lemma SpreadTooMany(sb: Super)
    requires Span(sb) >= MANY && sb.inodestart < sb.bmapstart
    ensures |FileMaps(sb, Spreads(sb, MANY), 0) + {IBlock(sb, 0)}| == MAXOPBLOCKS + 1
  {
    var lo := BBlock(sb, sb.datastart);
    SpreadMaps(sb);
    IntervalSize(lo, MANY);
    assert IBlock(sb, 0) == sb.inodestart;
    assert forall j :: 0 <= j < MANY ==> Plus(lo, j) >= sb.bmapstart;
    assert IBlock(sb, 0) !in Interval(lo, MANY);
  }

  /** Truncating any file logs at most MAXOPBLOCKS blocks. */
  ghost predicate AllFit(sb: Super) {
    forall fs, owner, i: nat :: FsInv(sb, fs, owner) && i < |fs.inodes| ==>
      |FileMaps(sb, owner, i) + {IBlock(sb, i)}| <= MAXOPBLOCKS
  }

  /** It does, if and only if there are fewer bitmap blocks over the data than that. */
  lemma TruncationFits(sb: Super)
    requires 0 < sb.datastart <= sb.size < 0x1_0000_0000 && sb.inodestart < sb.bmapstart
    ensures AllFit(sb) <==> Span(sb) < MAXOPBLOCKS
  {
    if Span(sb) < MAXOPBLOCKS {
      forall fs, owner, i: nat | FsInv(sb, fs, owner) && i < |fs.inodes|
        ensures |FileMaps(sb, owner, i) + {IBlock(sb, i)}| <= MAXOPBLOCKS
      {
        TruncationBound(sb, fs, owner, i);
      }
    } else {
      SpreadInv(sb);
      SpreadTooMany(sb);
      assert 0 < |SpreadFs(sb).inodes|;
    }
  }
}
